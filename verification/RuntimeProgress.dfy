/** The runtime always comes to rest: however its own steps are scheduled and whatever every call answers,
    only boundedly many are possible without a new call from outside, and when none is left all runs have
    ended, all cancellations are issued and every close has returned. */
module RuntimeProgress {
  import opened Wrappers
  import opened BrokerModel
  import opened BrokerProofs
  import R = BrokerRuns
  import opened Execution
  import opened Runtime
  import opened RuntimeInvariant

  // ----- how much is left to do -----

  function PhaseRank(phase: Phase): nat {
    match phase
    case Unstarted => 11
    case Locking => 10
    case Connecting => 9
    case OpeningCursor => 8
    case Registering(_) => 7
    case Executing(_) => 6
    case Fetching(_) => 5
    case Releasing(_, _) => 4
    case ClosingCursor(_, _) => 3
    case ClosingConnection(_) => 2
    case Unlocking(_) => 1
    case Finished(_) => 0
  }

  function RunRank(run: RunPhase): nat {
    match run
    case Scheduling => 7
    case Scheduled => 6
    case Waiting => 5
    case Polling => 4
    case Awaiting => 3
    case Settling(_) => 2
    case Failing => 1
    case Ended => 0
  }

  function Rank(t: Task): nat {
    RunRank(t.run) + PhaseRank(t.phase)
  }

  function LoopRank(loop: LoopState): nat {
    match loop
    case Free => 0
    case Submitting(_) => 1
    case Closing(pending) => 1 + |pending|
  }

  function Work(tasks: map<RequestId, Task>, ids: seq<RequestId>): nat {
    if ids == [] then 0
    else Work(tasks, ids[..|ids| - 1]) + if ids[|ids| - 1] in tasks then Rank(tasks[ids[|ids| - 1]]) else 0
  }

  /** Tasks that differ in one entry only. */
  ghost predicate Agree(before: map<RequestId, Task>, after: map<RequestId, Task>, id: RequestId) {
    forall k :: k != id ==> (k in before <==> k in after) && (k in before ==> before[k] == after[k])
  }

  lemma {:induction false} WorkDrops(before: map<RequestId, Task>, after: map<RequestId, Task>, ids: seq<RequestId>, id: RequestId)
    requires Agree(before, after, id) && id in before && id in after && Rank(after[id]) < Rank(before[id])
    ensures Work(after, ids) <= Work(before, ids)
    ensures id in ids ==> Work(after, ids) < Work(before, ids)
  {
    hide Rank;
    if ids != [] {
      WorkDrops(before, after, ids[..|ids| - 1], id);
    }
  }

  function Left(w: World): nat {
    Work(w.tasks, w.machine.issued) + LoopRank(w.loop)
  }

  // ----- one useful step -----

  /** The next move of a task, with the clock where it is and no driver call succeeding. */
  function Move(cfg: Config, w: World, id: RequestId): Action
    requires id in w.tasks
  {
    var t, now := w.tasks[id], w.machine.clock;
    match t.run
    case Scheduled => StartRun(id)
    case Polling => Poll(id, now)
    case Settling(_) => PublishResult(id, now)
    case Failing => RecordFailure(id, now)
    case _ =>
      if t.phase.Finished? then Collect(id)
      else if t.phase.Unstarted? then Spawn(id, true)
      else Advance(id, NextReply(cfg, w, id), now)
  }

  function NextReply(cfg: Config, w: World, id: RequestId): Reply
    requires id in w.tasks
  {
    match w.tasks[id].phase
    case Locking => if w.lock.None? then Ok else Reply.Failed
    case Registering(cursor) =>
      if AnswerTo(cfg, w, Register(id, cursor, w.machine.clock)).OneView? then Ok else Reply.Failed
    case Releasing(_, _) => Ok
    case Unlocking(_) => Ok
    case _ => Reply.Failed
  }

  predicate Movable(w: World, id: RequestId) {
    id in w.tasks && !w.tasks[id].run.Ended? && !w.tasks[id].run.Scheduling? && Paired(w.tasks[id])
  }

  lemma SingleCall(cfg: Config, m: R.Machine, call: Call)
    requires !call.Submit? && !call.List? && call.now == m.clock
    ensures R.Enabled(cfg, m, call)
  {
    assert R.Readings(call) == [m.clock];
  }

  /** Every move of a task, whatever it is answered, brings it nearer its end. */
  lemma MoveLowers(t: Task, a: Action, answer: Option<Answer>)
    requires TaskGuard(t, a) && Paired(t)
    requires OwnMove(a)
    ensures Rank(Moved(t, a, answer)) < Rank(t)
  {
    if a.Advance? {
      StepLowers(t.phase, a.reply);
      hide Step;
      hide Fits;
    }
  }

  lemma StepLowers(phase: Phase, reply: Reply)
    requires Fits(phase, reply)
    ensures PhaseRank(Step(phase, reply).phase) < PhaseRank(phase)
  {
  }

  /** The actions that move a task. */
  predicate OwnMove(a: Action) {
    a.CreateTask? || a.AbandonTask? || a.StartRun? || a.TimerFires? || a.Poll? || a.Collect? || a.PublishResult?
    || a.RecordFailure? || a.Spawn? || a.Advance?
  }

  /** The steps of the runtime itself, as opposed to new calls of its users. */
  predicate Internal(a: Action) {
    OwnMove(a) || a.CancelNext? || a.AwaitTasks? || a.FinishClose? || a.Deliver?
  }

  /** With nothing owed and the event loop free, every unfinished task can move. */
  lemma MoveEnabled(cfg: Config, w: World, id: RequestId)
    requires Movable(w, id) && w.owed == [] && w.loop.Free?
    ensures Enabled(cfg, w, Move(cfg, w, id)) && Internal(Move(cfg, w, id))
  {
    hide Apply;
    hide R.Enabled;
    var run := w.tasks[id].run;
    if run.Scheduled? || run.Polling? || run.Settling? || run.Failing? {
      CoroutineCanMove(cfg, w, id);
    } else if w.tasks[id].phase.Finished? || w.tasks[id].phase.Unstarted? {
      WorkCanMove(cfg, w, id);
    } else {
      WorkerCanMove(cfg, w, id);
    }
    hide Enabled;
  }

  lemma CoroutineCanMove(cfg: Config, w: World, id: RequestId)
    requires Movable(w, id) && w.owed == [] && w.loop.Free?
    requires var run := w.tasks[id].run; run.Scheduled? || run.Polling? || run.Settling? || run.Failing?
    ensures Enabled(cfg, w, Move(cfg, w, id))
  {
    hide Apply;
    hide NextReply;
    hide R.Enabled;
    hide R.Readings;
    var a := Move(cfg, w, id);
    if BrokerCall(w, a).Some? {
      SingleCall(cfg, w.machine, BrokerCall(w, a).value);
    }
  }

  lemma WorkCanMove(cfg: Config, w: World, id: RequestId)
    requires Movable(w, id) && w.owed == [] && w.loop.Free? && (w.tasks[id].phase.Finished? || w.tasks[id].phase.Unstarted?)
    requires var run := w.tasks[id].run; !(run.Scheduled? || run.Polling? || run.Settling? || run.Failing?)
    ensures Enabled(cfg, w, Move(cfg, w, id))
  {
  }

  lemma WorkerCanMove(cfg: Config, w: World, id: RequestId)
    requires Movable(w, id) && w.owed == [] && !w.tasks[id].phase.Finished? && !w.tasks[id].phase.Unstarted?
    requires var run := w.tasks[id].run; !(run.Scheduled? || run.Polling? || run.Settling? || run.Failing?)
    ensures Enabled(cfg, w, Move(cfg, w, id))
  {
    hide Apply;
    hide R.Enabled;
    hide R.Readings;
    var a := Move(cfg, w, id);
    if BrokerCall(w, a).Some? {
      SingleCall(cfg, w.machine, BrokerCall(w, a).value);
    }
  }

  /** A step that moves one task down. */
  lemma TaskStepDrops(cfg: Config, w: World, a: Action, id: RequestId)
    requires Inv(cfg, w) && Enabled(cfg, w, a) && Subject(w, a) == Some(id)
    requires LoopRank(LoopAfter(cfg, w, a)) <= LoopRank(w.loop)
    requires Rank(Moved(w.tasks[id], a, AnswerOf(cfg, w, a))) < Rank(w.tasks[id])
    ensures Left(Next(cfg, w, a)) < Left(w)
  {
    EnabledIsDefined(cfg, w, a);
    var n := Next(cfg, w, a);
    SubjectTask(cfg, w, a, id);
    NextIssued(cfg, w, a);
    NextMachine(cfg, w, a);
    NextShared(cfg, w, a);
    assert id in w.machine.issued;
    OthersAgree(cfg, w, a, id);
    hide *;
    WorkDrops(w.tasks, n.tasks, w.machine.issued, id);
    assert Left(w) == Work(w.tasks, w.machine.issued) + LoopRank(w.loop);
    assert Left(n) == Work(n.tasks, n.machine.issued) + LoopRank(n.loop);
  }

  lemma OthersAgree(cfg: Config, w: World, a: Action, id: RequestId)
    requires Defined(w, a) && Subject(w, a) == Some(id)
    ensures Agree(w.tasks, Next(cfg, w, a).tasks, id)
  {
    hide Half;
    hide Moved;
  }

  // ----- every internal step counts -----

  /** What is left to do, debts and waiting closes included. */
  function Weight(w: World): nat {
    4 * Left(w) + |w.owed| + |w.waiting|
  }

  lemma FewCancels(cfg: Config, table: Table, call: Call)
    requires !call.Submit? && !call.List?
    ensures |Apply(cfg, table, call).cancels| <= 2
  {
  }

  /** No internal step is a submission or a listing, so none owes more than two cancellations. */
  lemma OwedFew(cfg: Config, w: World, a: Action)
    requires Defined(w, a) && Internal(a) && !a.Deliver?
    ensures |Next(cfg, w, a).owed| <= |w.owed| + 2
    ensures |Next(cfg, w, a).waiting| == |w.waiting| + (if a.AwaitTasks? then 1 else if a.FinishClose? then -1 else 0)
  {
    if BrokerCall(w, a).Some? {
      FewCancels(cfg, w.machine.table, BrokerCall(w, a).value);
    }
    hide Apply;
    hide TasksAfter;
    hide LoopAfter;
  }

  lemma OwnMoveDrops(cfg: Config, w: World, a: Action)
    requires Inv(cfg, w) && Enabled(cfg, w, a) && OwnMove(a)
    ensures Left(Next(cfg, w, a)) < Left(w)
  {
    hide Inv;
    hide Enabled;
    hide Next;
    hide Moved;
    hide Left;
    hide TaskGuard;
    hide AnswerOf;
    MovesSomething(cfg, w, a);
    var id := Subject(w, a).value;
    SubjectFacts(cfg, w, a, id);
    MoveLowers(w.tasks[id], a, AnswerOf(cfg, w, a));
    TaskStepDrops(cfg, w, a, id);
  }

  lemma MovesSomething(cfg: Config, w: World, a: Action)
    requires Enabled(cfg, w, a) && OwnMove(a)
    ensures Subject(w, a).Some? && Defined(w, a) && LoopRank(LoopAfter(cfg, w, a)) <= LoopRank(w.loop)
  {
    hide Apply;
    hide R.Enabled;
  }

  /** The cancel loop of close and the awaiting of tasks. */
  lemma LoopDrops(cfg: Config, w: World, a: Action)
    requires Enabled(cfg, w, a) && (a.CancelNext? || a.AwaitTasks?)
    ensures Left(Next(cfg, w, a)) < Left(w)
  {
    EnabledIsDefined(cfg, w, a);
    NextIssued(cfg, w, a);
    NextMachine(cfg, w, a);
    NextShared(cfg, w, a);
    TasksAre(cfg, w, a);
    LoopEntry(cfg, w, a);
    hide Next;
    hide Half;
    hide Enabled;
  }

  lemma LoopEntry(cfg: Config, w: World, a: Action)
    requires Enabled(cfg, w, a) && (a.CancelNext? || a.AwaitTasks?)
    ensures Defined(w, a) && Subject(w, a).None? && Created(cfg, w, a).None?
    ensures LoopRank(LoopAfter(cfg, w, a)) < LoopRank(w.loop)
  {
    hide Apply;
    hide R.Enabled;
  }

  /** Every internal step, whatever it is answered, leaves less to do. */
  lemma InternalDrops(cfg: Config, w: World, a: Action)
    requires Inv(cfg, w) && Enabled(cfg, w, a) && Internal(a)
    ensures Defined(w, a) && Weight(Next(cfg, w, a)) < Weight(w)
  {
    hide Inv;
    hide Enabled;
    hide Next;
    hide Left;
    EnabledIsDefined(cfg, w, a);
    if a.Deliver? {
      DeliverDrops(cfg, w, a.i);
    } else {
      OwedFew(cfg, w, a);
      if OwnMove(a) {
        OwnMoveDrops(cfg, w, a);
      } else if a.FinishClose? {
        FinishDrops(cfg, w, a.i);
      } else {
        LoopDrops(cfg, w, a);
      }
    }
  }

  lemma DeliverDrops(cfg: Config, w: World, i: nat)
    requires i < |w.owed|
    ensures var n := Next(cfg, w, Deliver(i));
            Left(n) == Left(w) && |n.owed| == |w.owed| - 1 && |n.waiting| == |w.waiting|
  {
    assert Next(cfg, w, Deliver(i))
        == w.(owed := w.owed[..i] + w.owed[i + 1..], cancelled := w.cancelled + multiset{w.owed[i].cursor});
    hide Next;
    hide Work;
  }

  lemma FinishDrops(cfg: Config, w: World, i: nat)
    requires i < |w.waiting|
    ensures var n := Next(cfg, w, FinishClose(i));
            Left(n) == Left(w) && n.owed == w.owed && |n.waiting| == |w.waiting| - 1
  {
  }

  ghost predicate AllInternal(actions: seq<Action>) {
    forall i :: 0 <= i < |actions| ==> Internal(actions[i])
  }

  /** No schedule of internal steps is longer than what there was to do. */
  lemma {:induction false} SchedulesEnd(cfg: Config, w: World, actions: seq<Action>)
    requires ValidConfig(cfg) && Inv(cfg, w) && EnabledAll(cfg, w, actions) && AllInternal(actions)
    ensures |actions| + Weight(Run(cfg, w, actions)) <= Weight(w)
    decreases |actions|
  {
    hide Inv;
    hide Enabled;
    hide Next;
    hide Weight;
    hide Internal;
    if actions != [] {
      InternalDrops(cfg, w, actions[0]);
      StepKeeps(cfg, w, actions[0]);
      SchedulesEnd(cfg, Next(cfg, w, actions[0]), actions[1..]);
    }
  }

  // ----- and where it ends is rest -----

  /** Nothing runs, nothing is owed and the event loop is free. */
  ghost predicate Quiet(w: World) {
    w.owed == [] && w.loop.Free? && forall id :: id in w.tasks ==> w.tasks[id].run.Ended?
  }

  ghost predicate AtRest(w: World) {
    Quiet(w) && w.waiting == []
  }

  /** One step towards rest, from any state that is not there yet. */
  lemma UsefulStep(cfg: Config, w: World) returns (a: Action)
    requires ValidConfig(cfg) && Inv(cfg, w) && !AtRest(w)
    ensures Enabled(cfg, w, a) && Internal(a)
  {
    hide Enabled;
    if w.owed != [] {
      a := Deliver(0);
      DeliverEnabled(cfg, w);
    } else if w.loop.Submitting? {
      a := CreateTask;
      SubmittingTask(cfg, w);
      CreateEnabled(cfg, w);
    } else if w.loop.Closing? {
      a := if w.loop.pending == [] then AwaitTasks else CancelNext(w.machine.clock);
      CloseEnabled(cfg, w);
    } else if Quiet(w) {
      a := FinishClose(0);
      CloseCanReturn(cfg, w, 0);
    } else {
      var id :| id in w.tasks && !w.tasks[id].run.Ended?;
      assert TaskOk(w, id);
      a := Move(cfg, w, id);
      hide Inv;
      MoveEnabled(cfg, w, id);
    }
  }

  lemma DeliverEnabled(cfg: Config, w: World)
    requires w.owed != []
    ensures Enabled(cfg, w, Deliver(0))
  {
  }

  lemma SubmittingTask(cfg: Config, w: World)
    requires Inv(cfg, w) && w.loop.Submitting?
    ensures w.loop.id in w.tasks && w.tasks[w.loop.id].run.Scheduling?
  {
    assert TaskOk(w, w.loop.id);
  }

  lemma CreateEnabled(cfg: Config, w: World)
    requires w.loop.Submitting? && w.loop.id in w.tasks && w.tasks[w.loop.id].run.Scheduling? && w.owed == []
    ensures Enabled(cfg, w, CreateTask)
  {
  }

  lemma CloseEnabled(cfg: Config, w: World)
    requires w.loop.Closing? && w.owed == []
    ensures Enabled(cfg, w, if w.loop.pending == [] then AwaitTasks else CancelNext(w.machine.clock))
  {
    if w.loop.pending != [] {
      SingleCall(cfg, w.machine, Cancel(w.loop.pending[0], w.machine.clock));
    }
    hide Apply;
    hide R.Enabled;
  }

  /** When nothing runs any more, a close() that waits can return. */
  lemma CloseCanReturn(cfg: Config, w: World, i: nat)
    requires Quiet(w) && i < |w.waiting|
    ensures Enabled(cfg, w, FinishClose(i)) && Next(cfg, w, FinishClose(i)).returned
  {
  }

  /** At rest only a new call can do anything. */
  lemma RestIsFinal(cfg: Config, w: World, a: Action)
    requires Inv(cfg, w) && AtRest(w) && Internal(a)
    ensures !Enabled(cfg, w, a)
  {
    hide Inv;
    hide TaskGuard;
    if Enabled(cfg, w, a) {
      if OwnMove(a) {
        MovesSomething(cfg, w, a);
        var id := Subject(w, a).value;
        SubjectFacts(cfg, w, a, id);
        hide Enabled;
        EndedHasNoMove(w.tasks[id], a);
      } else {
        NeedsWork(cfg, w, a);
        hide Enabled;
      }
    }
  }

  lemma EndedHasNoMove(t: Task, a: Action)
    requires t.run.Ended? && Paired(t) && OwnMove(a)
    ensures !TaskGuard(t, a)
  {
  }

  lemma NeedsWork(cfg: Config, w: World, a: Action)
    requires Enabled(cfg, w, a) && Internal(a) && !OwnMove(a)
    ensures a.CancelNext? || a.AwaitTasks? ==> w.loop.Closing?
    ensures a.FinishClose? ==> w.waiting != []
    ensures a.Deliver? ==> w.owed != []
  {
    hide R.Enabled;
  }

  /** Whatever the schedule, a reachable runtime left to itself comes to rest: any schedule of internal
      steps is at most as long as what there is to do, and it cannot be continued exactly when everything
      is at rest. */
  lemma AlwaysComesToRest(cfg: Config, w: World, actions: seq<Action>)
    requires ValidConfig(cfg) && Reachable(cfg, w) && EnabledAll(cfg, w, actions) && AllInternal(actions)
    ensures |actions| <= Weight(w)
    ensures (forall a :: Internal(a) ==> !Enabled(cfg, Run(cfg, w, actions), a)) <==> AtRest(Run(cfg, w, actions))
  {
    hide Reachable;
    hide Enabled;
    hide AtRest;
    hide Inv;
    ReachableOk(cfg, w);
    SchedulesEnd(cfg, w, actions);
    RunKeeps(cfg, w, actions);
    hide EnabledAll;
    hide Run;
    var end := Run(cfg, w, actions);
    if AtRest(end) {
      forall a | Internal(a) ensures !Enabled(cfg, end, a) {
        RestIsFinal(cfg, end, a);
      }
    } else {
      var a := UsefulStep(cfg, end);
    }
  }

  /** From every state the invariant allows, some schedule ends all runs, pays every cancellation, frees the
      event loop and returns every close. */
  lemma {:induction false} CanComeToRest(cfg: Config, w: World) returns (actions: seq<Action>)
    requires ValidConfig(cfg) && Inv(cfg, w)
    ensures EnabledAll(cfg, w, actions) && AllInternal(actions) && AtRest(Run(cfg, w, actions))
    decreases Weight(w)
  {
    hide Inv;
    hide Weight;
    hide AtRest;
    hide Enabled;
    hide Next;
    hide Internal;
    if AtRest(w) {
      actions := [];
    } else {
      var a := UsefulStep(cfg, w);
      InternalDrops(cfg, w, a);
      StepKeeps(cfg, w, a);
      var rest := CanComeToRest(cfg, Next(cfg, w, a));
      actions := [a] + rest;
      assert actions[1..] == rest;
    }
  }

  /** No reachable state is a dead end. */
  lemma NeverStuck(cfg: Config, w: World)
    requires ValidConfig(cfg) && Reachable(cfg, w)
    ensures exists actions :: EnabledAll(cfg, w, actions) && AllInternal(actions) && AtRest(Run(cfg, w, actions))
  {
    hide Inv;
    hide AtRest;
    hide Reachable;
    ReachableOk(cfg, w);
    var actions := CanComeToRest(cfg, w);
  }
}
