/** The states the theorems speak of do occur: for every configuration there is a run in which a cursor
    is armed, its result is published, and the executor then closes. */
module RuntimeWitness {
  import opened Wrappers
  import opened BrokerModel
  import opened BrokerProofs
  import opened BrokerTouch
  import R = BrokerRuns
  import Broker
  import opened Execution
  import opened Runtime
  import opened RuntimeInvariant
  import opened RuntimeRuns
  import opened RuntimeTheorems
  import opened RuntimeCancellation
  import opened ExecutorSteps

  lemma {:induction false} Above(cursors: set<CursorId>) returns (bound: nat)
    ensures forall c :: c in cursors ==> c < bound
  {
    if cursors == {} {
      bound := 0;
    } else {
      var c :| c in cursors;
      var rest := Above(cursors - {c});
      bound := if c < rest then rest else c + 1;
      assert cursors == (cursors - {c}) + {c};
    }
  }

  /** One request, seen from outside: its task, the broker's table at time zero, and the cancellations
      outside callers still owe. */
  ghost predicate Owing(cfg: Config, w: World, id: RequestId, t: Task, table: Table, owed: seq<Debt>) {
    && Shared(cfg, w, table, 0, false) && w.loop.Free? && w.tasks == map[id := t] && w.owed == owed
    && forall i :: 0 <= i < |owed| ==> owed[i].actor == Outside
  }

  ghost predicate Single(cfg: Config, w: World, id: RequestId, t: Task, table: Table) {
    Owing(cfg, w, id, t, table, [])
  }

  /** A worker that has succeeded so far. */
  function At(phase: Phase, source: SourceId): Task {
    Task(Waiting, phase, Path(phase, source))
  }

  function Advanced(t: Task, reply: Reply): Task
    requires Fits(t.phase, reply)
  {
    t.(phase := Step(t.phase, reply).phase, log := t.log + [Step(t.phase, reply).event])
  }

  /** A step without a broker operation. */
  lemma QuietStep(cfg: Config, w: World, a: Action) returns (n: World)
    requires Enabled(cfg, w, a) && BrokerCall(w, a).None? && !a.Deliver? && !a.BeginClose?
    ensures Defined(w, a) && RunsTo(cfg, w, n) && n.machine == w.machine && n.owed == w.owed && n.closed == w.closed
    ensures n.tasks == TasksAfter(cfg, w, a) && n.loop == LoopAfter(cfg, w, a)
  {
    hide Enabled;
    hide RunsTo;
    hide NextPaid;
    hide TasksAfter;
    hide LoopAfter;
    hide LockAfter;
    hide WaitingAfter;
    hide Half;
    EnabledIsDefined(cfg, w, a);
    PaidFacts(cfg, w, a);
    n := NextPaid(cfg, w, a);
    NoCall(cfg, w, a);
  }

  /** A move of the one worker thread. */
  lemma WorkerStep(cfg: Config, w: World, id: RequestId, t: Task, table: Table, owed: seq<Debt>, a: Action) returns (n: World)
    requires Owing(cfg, w, id, t, table, owed) && (a.Advance? || a.Spawn?) && a.id == id
    requires Enabled(cfg, w, a) && BrokerCall(w, a).None?
    ensures a.Advance? ==> Fits(t.phase, a.reply)
    ensures Owing(cfg, n, id, Moved(t, a, None), table, owed)
  {
    hide Enabled;
    hide RunsTo;
    hide Reachable;
    hide Moved;
    n := QuietStep(cfg, w, a);
    StillReachable(cfg, w, n);
    assert TasksAfter(cfg, w, a) == w.tasks[id := Moved(t, a, None)] && LoopAfter(cfg, w, a) == w.loop;
    Replaced(id, t, Moved(t, a, None));
  }

  lemma Replaced(id: RequestId, t: Task, u: Task)
    ensures map[id := t][id := u] == map[id := u]
  {
  }

  /** A driver call of the worker thread. */
  lemma WorkerMoves(cfg: Config, w: World, id: RequestId, t: Task, table: Table, reply: Reply) returns (n: World)
    requires Single(cfg, w, id, t, table) && Fits(t.phase, reply) && !t.phase.Registering? && !t.phase.Releasing?
    requires t.phase.Locking? ==> (reply.Ok? <==> w.lock.None?)
    requires reply.Cursor? ==> reply.cursor !in w.cursors
    ensures Single(cfg, n, id, Advanced(t, reply), table)
  {
    hide Owing;
    n := WorkerMovesOwing(cfg, w, id, t, table, [], reply);
  }

  lemma WorkerMovesOwing(cfg: Config, w: World, id: RequestId, t: Task, table: Table, owed: seq<Debt>, reply: Reply)
    returns (n: World)
    requires Owing(cfg, w, id, t, table, owed) && Fits(t.phase, reply) && !t.phase.Registering? && !t.phase.Releasing?
    requires t.phase.Locking? ==> (reply.Ok? <==> w.lock.None?)
    requires reply.Cursor? ==> reply.cursor !in w.cursors
    ensures Enabled(cfg, w, Advance(id, reply, 0)) && Owing(cfg, n, id, Advanced(t, reply), table, owed)
  {
    var a := Advance(id, reply, 0);
    CanAdvance(cfg, w, id, reply);
    hide Enabled;
    hide Owing;
    n := WorkerStep(cfg, w, id, t, table, owed, a);
  }

  lemma CanAdvance(cfg: Config, w: World, id: RequestId, reply: Reply)
    requires Idle(w, Thread(id)) && id in w.tasks && Fits(w.tasks[id].phase, reply)
    requires !w.tasks[id].phase.Registering? && !w.tasks[id].phase.Releasing?
    requires w.tasks[id].phase.Locking? ==> (reply.Ok? <==> w.lock.None?)
    requires reply.Cursor? ==> reply.cursor !in w.cursors
    ensures Enabled(cfg, w, Advance(id, reply, 0)) && BrokerCall(w, Advance(id, reply, 0)).None?
  {
  }

  lemma WorkerSpawned(cfg: Config, w: World, id: RequestId, t: Task, table: Table) returns (n: World)
    requires Single(cfg, w, id, t, table) && t.run.Waiting? && t.phase.Unstarted?
    ensures Single(cfg, n, id, t.(phase := Locking), table)
  {
    CanSpawn(cfg, w, id);
    hide Enabled;
    hide Owing;
    n := WorkerStep(cfg, w, id, t, table, [], Spawn(id, true));
  }

  lemma CanSpawn(cfg: Config, w: World, id: RequestId)
    requires w.owed == [] && id in w.tasks && w.tasks[id].run.Waiting? && w.tasks[id].phase.Unstarted?
    ensures Enabled(cfg, w, Spawn(id, true)) && BrokerCall(w, Spawn(id, true)).None?
  {
  }

  /** While the one worker is not inside, nobody holds the lock. */
  lemma LockIsFree(cfg: Config, w: World, id: RequestId, t: Task, table: Table)
    requires ValidConfig(cfg) && Single(cfg, w, id, t, table) && !HoldsLock(t.phase)
    ensures w.lock.None?
  {
    OneExecutionAtATime(cfg, w);
    hide Reachable;
  }

  function Fresh(cfg: Config, id: RequestId): Record {
    Record(id, Pending, cfg.maximumTtl, None, None)
  }

  /** Submitted to an empty broker at time zero, and waiting for its worker. */
  lemma Submitted(cfg: Config, id: RequestId) returns (w: World)
    requires ValidConfig(cfg)
    ensures Single(cfg, w, id, Task(Waiting, Unstarted, []), [Fresh(cfg, id)])
  {
    hide Apply;
    hide Reachable;
    hide RunsTo;
    hide Submission;
    var r := Fresh(cfg, id);
    var effect := Effect([r], OneView(r.AsView()), []);
    var a := Action.Submit(cfg.maximumTtl, [], 0, [id]);
    FirstSubmission(cfg, id);
    var v := SubmissionAccepted(cfg, START, a, [], 0, 0, {}, effect);
    OnlyTask(id);
    hide Between;
    w := StartStep(cfg, v, [r], 0, false, {} + {id}, id);
    BetweenIsShared(cfg, w, [r], 0, {} + {id});
    Replaced(id, Task(Scheduled, Unstarted, []), Task(Waiting, Unstarted, []));
  }

  lemma OnlyTask(id: RequestId)
    ensures START.tasks[id := Task(Scheduled, Unstarted, [])] == map[id := Task(Scheduled, Unstarted, [])]
  {
  }

  lemma BetweenIsShared(cfg: Config, w: World, table: Table, now: int, tasks: set<RequestId>)
    requires Between(cfg, w, table, now, false, tasks)
    ensures Shared(cfg, w, table, now, false) && w.loop.Free?
  {
    hide Shared;
  }

  lemma FirstSubmission(cfg: Config, id: RequestId)
    requires ValidConfig(cfg)
    ensures Between(cfg, START, [], 0, false, {})
    ensures Submission(cfg, START, Action.Submit(cfg.maximumTtl, [], 0, [id]), 0, 0,
                       Effect([Fresh(cfg, id)], OneView(Fresh(cfg, id).AsView()), []))
  {
    hide Apply;
    hide Reachable;
    hide Broker.Monotone;
    StartReachable(cfg);
    FirstEffect(cfg, id);
    ReadsZero();
    hide SomeFresh;
  }

  lemma ReadsZero()
    ensures Broker.Monotone(0, [] + [0], 0)
  {
  }

  lemma FirstEffect(cfg: Config, id: RequestId)
    requires ValidConfig(cfg)
    ensures SomeFresh([], [id])
    ensures Apply(cfg, [], Call.Submit(cfg.maximumTtl, [], 0, [id]))
            == Effect([Fresh(cfg, id)], OneView(Fresh(cfg, id).AsView()), [])
  {
    assert !HasId([], [id][0]);
    assert FirstFresh([], [id]) == id;
    assert [] + [Fresh(cfg, id)] == [Fresh(cfg, id)];
  }

  lemma OnlyRecord(r: Record, s: Record)
    ensures Find([r], r.id) == 0 && [r][0 := s] == [s]
  {
  }

  /** The worker has opened a cursor and is about to register it. */
  lemma CursorPresented(cfg: Config, id: RequestId) returns (w: World, cursor: CursorId)
    requires ValidConfig(cfg)
    ensures Single(cfg, w, id, At(Registering(cursor), 0), [Fresh(cfg, id)])
  {
    hide Reachable;
    hide Shared;
    var table := [Fresh(cfg, id)];
    var t := Task(Waiting, Unstarted, []);
    w := Submitted(cfg, id);
    w := WorkerSpawned(cfg, w, id, t, table);
    t := t.(phase := Locking);
    LockIsFree(cfg, w, id, t, table);
    w := WorkerMoves(cfg, w, id, t, table, Ok);
    t := Advanced(t, Ok);
    w := WorkerMoves(cfg, w, id, t, table, Ok);
    t := Advanced(t, Ok);
    cursor := Above(w.cursors);
    w := WorkerMoves(cfg, w, id, t, table, Reply.Cursor(cursor));
    t := Advanced(t, Reply.Cursor(cursor));
    assert t == At(Registering(cursor), 0);
  }

  /** The worker registers its cursor, and from then on the cursor is armed. */
  lemma CursorArmed(cfg: Config, id: RequestId) returns (w: World, cursor: CursorId)
    requires ValidConfig(cfg)
    ensures Single(cfg, w, id, At(Executing(cursor), 0), [Fresh(cfg, id).(cursor := Some(cursor))])
  {
    hide Shared;
    hide Owing;
    w, cursor := CursorPresented(cfg, id);
    var t := At(Registering(cursor), 0);
    w := Registers(cfg, w, id, t, cursor);
    assert ExecutorSteps.Registered(t, cursor, true) == At(Executing(cursor), 0);
  }

  lemma Registers(cfg: Config, w: World, id: RequestId, t: Task, cursor: CursorId) returns (n: World)
    requires ValidConfig(cfg) && Single(cfg, w, id, t, [Fresh(cfg, id)]) && t.phase == Registering(cursor)
    ensures Single(cfg, n, id, ExecutorSteps.Registered(t, cursor, true), [Fresh(cfg, id).(cursor := Some(cursor))])
  {
    var r := Fresh(cfg, id);
    var effect := Effect([r.(cursor := Some(cursor))], OneView(r.AsView()), []);
    OnlyRecord(r, r.(cursor := Some(cursor)));
    assert effect == Apply(cfg, [r], Register(id, cursor, 0));
    hide Apply;
    hide Shared;
    hide RunsTo;
    n := RegisterStep(cfg, w, [r], 0, 0, false, id, cursor, 0, effect);
    Replaced(id, t, ExecutorSteps.Registered(t, cursor, true));
  }

  lemma Releases(cfg: Config, w: World, id: RequestId, t: Task, cursor: CursorId) returns (n: World)
    requires ValidConfig(cfg) && Single(cfg, w, id, t, [Fresh(cfg, id).(cursor := Some(cursor))])
    requires t.phase.Releasing? && t.phase.cursor == cursor
    ensures Single(cfg, n, id, ExecutorSteps.Released(t, cursor), [Fresh(cfg, id)])
  {
    var r := Fresh(cfg, id);
    var effect := Effect([r], Nothing, []);
    OnlyRecord(r.(cursor := Some(cursor)), r);
    assert effect == Apply(cfg, [r.(cursor := Some(cursor))], Release(id, cursor, 0));
    hide Apply;
    hide Shared;
    hide RunsTo;
    n := ReleaseStep(cfg, w, [r.(cursor := Some(cursor))], 0, 0, false, id, cursor, 0, effect);
    Replaced(id, t, ExecutorSteps.Released(t, cursor));
  }

  /** The armed worker runs its query to the end. */
  lemma WorkReturned(cfg: Config, id: RequestId, source: SourceId) returns (w: World)
    requires ValidConfig(cfg)
    ensures Single(cfg, w, id, At(Finished(Returned(source)), source), [Fresh(cfg, id)])
  {
    hide Shared;
    var cursor;
    w, cursor := CursorArmed(cfg, id);
    var held := [Fresh(cfg, id).(cursor := Some(cursor))];
    var t := At(Executing(cursor), 0);
    w := WorkerMoves(cfg, w, id, t, held, Ok);
    t := Advanced(t, Ok);
    w := WorkerMoves(cfg, w, id, t, held, Result(source));
    t := Advanced(t, Result(source));
    w := Releases(cfg, w, id, t, cursor);
    t := ExecutorSteps.Released(t, cursor);
    assert t == At(ClosingCursor(cursor, Returned(source)), source);
    w := CleanedUp(cfg, w, id, cursor, source);
  }

  lemma CleanedUp(cfg: Config, begun: World, id: RequestId, cursor: CursorId, source: SourceId) returns (w: World)
    requires Single(cfg, begun, id, At(ClosingCursor(cursor, Returned(source)), source),
                    [Fresh(cfg, id)])
    ensures Single(cfg, w, id, At(Finished(Returned(source)), source), [Fresh(cfg, id)])
  {
    hide Shared;
    var table := [Fresh(cfg, id)];
    var t := At(ClosingCursor(cursor, Returned(source)), source);
    w := WorkerMoves(cfg, begun, id, t, table, Ok);
    t := Advanced(t, Ok);
    w := WorkerMoves(cfg, w, id, t, table, Ok);
    t := Advanced(t, Ok);
    w := WorkerMoves(cfg, w, id, t, table, Ok);
    t := Advanced(t, Ok);
    assert t == At(Finished(Returned(source)), source);
  }

  function Published(cfg: Config, id: RequestId, source: SourceId): Record {
    Fresh(cfg, id).(status := Complete, source := Some(source))
  }

  /** A run that publishes, and what its broker then holds. */
  lemma Publishes(cfg: Config, id: RequestId, source: SourceId) returns (w: World)
    requires ValidConfig(cfg)
    ensures Between(cfg, w, [Published(cfg, id, source)], 0, false, {})
  {
    hide RunsTo;
    var r := Fresh(cfg, id);
    var effect := Effect([Published(cfg, id, source)], OneView(Published(cfg, id, source).AsView()), []);
    OnlyRecord(r, Published(cfg, id, source));
    assert effect == Apply(cfg, [r], Publish(id, source, 0));
    hide Apply;
    hide Reachable;
    var v := WorkReturned(cfg, id, source);
    var t := At(Finished(Returned(source)), source);
    OnlyLive(id, t);
    assert Between(cfg, v, [r], 0, false, {id});
    var u := CollectStep(cfg, v, [r], 0, false, {id}, id);
    Replaced(id, t, Collected(t, Returned(source)));
    w := PublishStep(cfg, u, [r], 0, 0, false, {id}, id, source, 0, effect);
    assert {id} - {id} == {};
  }

  lemma OnlyLive(id: RequestId, t: Task)
    requires !t.run.Ended?
    ensures LiveTasks(map[id := t]) == {id}
  {
  }

  /** A close after that, with nothing to cancel and nothing to wait for. */
  lemma Closes(cfg: Config, id: RequestId, source: SourceId) returns (w: World)
    requires ValidConfig(cfg)
    ensures Reachable(cfg, w) && w.returned && w.machine.table == [Published(cfg, id, source)]
  {
    hide RunsTo;
    var r := Published(cfg, id, source);
    var effect := Effect([r], Views([r.AsView()]), []);
    ListsOne(cfg, r);
    hide Apply;
    hide Reachable;
    hide LiveTasks;
    var v := Publishes(cfg, id, source);
    var begun := ListStep(cfg, v, [r], 0, 0, false, {}, [0], effect);
    var views := [r.AsView()];
    assert views[0..] == views && views[1..] == [];
    SkipStep(cfg, v, begun, [r], 0, views, 0);
    var idle := AwaitStep(cfg, v, begun, [r], 0, false, {}, [r], 0, views[1..]);
    w := FinishStep(cfg, idle, [r], 0, true, {}, |v.waiting|);
  }

  lemma ListsOne(cfg: Config, r: Record)
    requires r.status.Complete? && r.cursor.None? && r.expiresAt > 0
    ensures Apply(cfg, [r], List([0])) == Effect([r], Views([r.AsView()]), [])
    ensures Broker.Monotone(0, [0], 0)
  {
    assert ExpireAll([r], [0]) == [r];
    assert TakenAll([r][..0], [0][..0]) == [];
    assert TakenAll([r], [0]) == [];
    assert Reversed(ViewsOf([r])) == [r.AsView()];
  }

  function Cancelled(cfg: Config, id: RequestId): Record {
    Fresh(cfg, id).(status := Status.Cancelled)
  }

  /** An outside caller cancels the request, and has not yet cancelled the cursor it took out. */
  lemma Cancels(cfg: Config, w: World, id: RequestId, t: Task, cursor: Option<CursorId>) returns (n: World)
    requires ValidConfig(cfg) && Single(cfg, w, id, t, [Fresh(cfg, id).(cursor := cursor)])
    ensures Owing(cfg, n, id, t, [Cancelled(cfg, id)], if cursor.Some? then [Debt(Outside, cursor.value)] else [])
  {
    hide Apply;
    hide Reachable;
    hide RunsTo;
    hide Enabled;
    var cancels := if cursor.Some? then [cursor.value] else [];
    var effect := Effect([Cancelled(cfg, id)], OneView(Cancelled(cfg, id).AsView()), cancels);
    CancelEffect(cfg, id, cursor);
    CanCancel(cfg, w, id);
    n := OutsideStep(cfg, w, OutsideCall(Cancel(id, 0)), Cancel(id, 0), effect);
  }

  lemma CancelEffect(cfg: Config, id: RequestId, cursor: Option<CursorId>)
    requires ValidConfig(cfg)
    ensures Apply(cfg, [Fresh(cfg, id).(cursor := cursor)], Cancel(id, 0))
            == Effect([Cancelled(cfg, id)], OneView(Cancelled(cfg, id).AsView()), if cursor.Some? then [cursor.value] else [])
  {
    var held := Fresh(cfg, id).(cursor := cursor);
    OnlyRecord(held, Cancelled(cfg, id));
    assert [] + CursorOf(held) == CursorOf(held);
  }

  lemma CanCancel(cfg: Config, w: World, id: RequestId)
    requires w.machine.clock <= 0
    ensures Enabled(cfg, w, OutsideCall(Cancel(id, 0)))
  {
    SingleCall(cfg, w.machine, Cancel(id, 0));
    hide Apply;
  }

  lemma OutsideStep(cfg: Config, w: World, a: Action, call: Call, effect: Effect) returns (n: World)
    requires a == OutsideCall(call) && !call.Submit? && !call.List? && call.now >= w.machine.clock && Enabled(cfg, w, a)
    requires effect == Apply(cfg, w.machine.table, call) && Reachable(cfg, w) && w.owed == []
    ensures Reachable(cfg, n) && n.machine.table == effect.table && n.machine.clock == call.now && n.closed == w.closed
    ensures n.owed == Debts(Outside, effect.cancels) && n.tasks == w.tasks && n.loop == w.loop
  {
    hide Apply;
    hide Enabled;
    hide RunsTo;
    hide Reachable;
    hide AnswerTo;
    hide R.Enabled;
    hide R.Readings;
    EnabledIsDefined(cfg, w, a);
    OutsideChanges(cfg, w, a, call);
    hide Next;
    RunsOne(cfg, w, a);
    n := Next(cfg, w, a);
    CallFacts(cfg, w, a, call, effect);
    SingleCall(cfg, w.machine, call);
    StillReachable(cfg, w, n);
  }

  /** A call from outside touches the broker and its debts alone. */
  lemma OutsideChanges(cfg: Config, w: World, a: Action, call: Call)
    requires a == OutsideCall(call) && Applicable(w.machine.table, call) && Defined(w, a) && w.owed == []
    ensures var n := Next(cfg, w, a);
            && n.machine == Half(cfg, w, a).machine && n.tasks == w.tasks && n.loop == w.loop && n.closed == w.closed
            && n.owed == Debts(Outside, Apply(cfg, w.machine.table, call).cancels)
  {
    hide Apply;
    hide R.Next;
    var debts := Debts(Outside, Apply(cfg, w.machine.table, call).cancels);
    assert [] + debts == debts;
  }

  /** A release that finds its request cancelled changes nothing in the broker. */
  lemma ReleasesCancelled(cfg: Config, w: World, id: RequestId, t: Task, cursor: CursorId, owed: seq<Debt>) returns (n: World)
    requires ValidConfig(cfg) && Owing(cfg, w, id, t, [Cancelled(cfg, id)], owed)
    requires t.phase.Releasing? && t.phase.cursor == cursor
    ensures Owing(cfg, n, id, ExecutorSteps.Released(t, cursor), [Cancelled(cfg, id)], owed)
  {
    var r := Cancelled(cfg, id);
    var effect := Effect([r], Nothing, []);
    OnlyRecord(r, r);
    assert effect == Apply(cfg, [r], Release(id, cursor, 0));
    hide Apply;
    hide Shared;
    hide RunsTo;
    n := ReleaseStep(cfg, w, [r], 0, 0, false, id, cursor, 0, effect);
    Replaced(id, t, ExecutorSteps.Released(t, cursor));
  }

  /** A request is cancelled while its worker executes: the cursor stays armed with its cancellation
      queued, and the worker goes on to close it while the canceller still owes the cancellation. */
  lemma CancelledWhileArmed(cfg: Config, id: RequestId) returns (armed: World, closing: World, cursor: CursorId)
    requires ValidConfig(cfg)
    ensures Owing(cfg, armed, id, At(Executing(cursor), 0), [Cancelled(cfg, id)], [Debt(Outside, cursor)])
    ensures exists t: Task :: t.phase == ClosingCursor(cursor, Raised)
                        && Owing(cfg, closing, id, t, [Cancelled(cfg, id)], [Debt(Outside, cursor)])
  {
    hide Shared;
    hide Owing;
    var w;
    w, cursor := CursorArmed(cfg, id);
    var t := At(Executing(cursor), 0);
    armed := Cancels(cfg, w, id, t, Some(cursor));
    var owed := [Debt(Outside, cursor)];
    w := WorkerMovesOwing(cfg, armed, id, t, [Cancelled(cfg, id)], owed, Reply.Failed);
    t := Advanced(t, Reply.Failed);
    closing := ReleasesCancelled(cfg, w, id, t, cursor, owed);
  }

  /** The cursor is closed, and its cancellation issued after that. */
  lemma CancelComesAfterClose(cfg: Config, id: RequestId)
    requires ValidConfig(cfg)
    ensures exists w, cursor ::
              && Reachable(cfg, w) && id in w.tasks && w.tasks[id].phase == ClosingCursor(cursor, Raised)
              && Enabled(cfg, w, Advance(id, Ok, 0)) && Defined(w, Advance(id, Ok, 0))
              && var n := Next(cfg, w, Advance(id, Ok, 0));
                 && CursorClosed in n.tasks[id].log && cursor !in n.cancelled
                 && Enabled(cfg, n, Deliver(0)) && Defined(n, Deliver(0)) && cursor in Next(cfg, n, Deliver(0)).cancelled
  {
    var armed, w, cursor := CancelledWhileArmed(cfg, id);
    var t: Task :| t.phase == ClosingCursor(cursor, Raised) && Owing(cfg, w, id, t, [Cancelled(cfg, id)], [Debt(Outside, cursor)]);
    var a := Advance(id, Ok, 0);
    CanAdvance(cfg, w, id, Ok);
    EnabledIsDefined(cfg, w, a);
    var n := Next(cfg, w, a);
    SubjectTask(cfg, w, a, id);
    CloseChangesNothingElse(cfg, w, a);
    FirstDelivered(cfg, n);
    NotYetCancelled(cfg, w, cursor);
    hide Reachable;
    hide Next;
    hide Enabled;
    assert CursorClosed in n.tasks[id].log;
  }

  /** A queued cancellation has not been issued. */
  lemma NotYetCancelled(cfg: Config, w: World, cursor: CursorId)
    requires ValidConfig(cfg) && Reachable(cfg, w) && w.owed == [Debt(Outside, cursor)]
    ensures cursor !in w.cancelled
  {
    EachCursorInOnePlace(cfg, w, cursor);
    assert Cursors(w.owed)[0] == cursor;
    hide Reachable;
  }

  /** A request is cancelled before its worker registers: the cursor is refused, and cancelled at once. */
  lemma CursorRefusedLate(cfg: Config, id: RequestId) returns (w: World, cursor: CursorId)
    requires ValidConfig(cfg)
    ensures Reachable(cfg, w) && id in w.tasks && CursorRefused in w.tasks[id].log
    ensures w.tasks[id].phase == ClosingCursor(cursor, Raised)
  {
    hide Owing;
    var table := [Fresh(cfg, id)];
    w, cursor := CursorPresented(cfg, id);
    var t := At(Registering(cursor), 0);
    w := Cancels(cfg, w, id, t, None);
    w := RefusesCursor(cfg, w, id, t, cursor);
  }

  lemma RefusesCursor(cfg: Config, w: World, id: RequestId, t: Task, cursor: CursorId) returns (n: World)
    requires ValidConfig(cfg) && Owing(cfg, w, id, t, [Cancelled(cfg, id)], []) && t.phase == Registering(cursor)
    ensures Reachable(cfg, n) && id in n.tasks && CursorRefused in n.tasks[id].log
    ensures n.tasks[id].phase == ClosingCursor(cursor, Raised)
  {
    var r := Cancelled(cfg, id);
    var effect := Effect([r], Unavailable, [cursor]);
    OnlyRecord(r, r);
    assert [] + [cursor] == [cursor];
    assert effect == Apply(cfg, [r], Register(id, cursor, 0));
    hide Apply;
    hide Reachable;
    hide RunsTo;
    n := RegisterStep(cfg, w, [r], 0, 0, false, id, cursor, 0, effect);
  }

  function Second(cfg: Config, id: RequestId): Action {
    Action.Submit(cfg.maximumTtl, [0], 0, [id])
  }

  /** What a broker holding one cancelled request answers to a second submission: it accepts it, evicting
      the first if there is room for one only. */
  function SecondTable(cfg: Config, first: RequestId, second: RequestId): Table {
    (if cfg.maximumRequests == Some(1) then [] else [Cancelled(cfg, first)]) + [Fresh(cfg, second)]
  }

  lemma SecondEffect(cfg: Config, first: RequestId, second: RequestId)
    requires ValidConfig(cfg) && first != second
    ensures SomeFresh([Cancelled(cfg, first)], [second])
    ensures Apply(cfg, [Cancelled(cfg, first)], Call.Submit(cfg.maximumTtl, [0], 0, [second]))
            == Effect(SecondTable(cfg, first, second), OneView(Fresh(cfg, second).AsView()), [])
  {
    var table := [Cancelled(cfg, first)];
    assert !HasId(table, [second][0]) && !HasId([], [second][0]);
    assert ExpireAll(table, [0]) == table && TakenAll(table[..0], [0][..0]) == [] && TakenAll(table, [0]) == [];
    assert PendingCount(table[..0]) == 0 && PendingCount(table) == 0;
    assert OldestTerminal(table) == 0 && Without(table, 0) == [];
    assert FirstFresh(table, [second]) == second && FirstFresh([], [second]) == second;
  }

  /** A second request is accepted after the first was cancelled, while the first one's worker is still
      inside its execution; its own worker then finds the lock taken, and the request fails. */
  lemma LockHeld(cfg: Config, first: RequestId, second: RequestId) returns (w: World, failed: World)
    requires ValidConfig(cfg) && first != second
    ensures Reachable(cfg, w) && second in w.tasks && w.tasks[second].phase.Locking? && w.lock == Some(first)
    ensures Enabled(cfg, w, Advance(second, Reply.Failed, 0)) && PendingRecord(Lookup(w.machine.table, second))
    ensures Reachable(cfg, failed) && second in failed.tasks && failed.tasks[second].log == [LockBusy]
    ensures Lookup(failed.machine.table, second) == Some(Fresh(cfg, second).(status := Status.Failed))
  {
    hide Reachable;
    hide RunsTo;
    hide Apply;
    hide Enabled;
    hide Submission;
    hide Between;
    var before, after := SecondTable(cfg, first, second), FailedTable(cfg, first, second);
    var v, cursor := SecondSubmitted(cfg, first, second);
    var live := {first, second};
    w := SpawnStep(cfg, v, before, live, second);
    BetweenIsShared(cfg, w, before, 0, live);
    FirstHasLock(cfg, w, first);
    var refused := LockStep(cfg, w, before, live, second);
    SecondFails(cfg, first, second);
    var collected := CollectStep(cfg, refused, before, 0, false, live, second);
    failed := FailStep(cfg, collected, before, 0, 0, false, live, second, 0,
                       Effect(after, OneView(Failing(cfg, second).AsView()), []));
    BetweenIsShared(cfg, failed, after, 0, live - {second});
  }

  function Failing(cfg: Config, id: RequestId): Record {
    Fresh(cfg, id).(status := Status.Failed)
  }

  function FailedTable(cfg: Config, first: RequestId, second: RequestId): Table {
    (if cfg.maximumRequests == Some(1) then [] else [Cancelled(cfg, first)]) + [Failing(cfg, second)]
  }

  lemma SecondFails(cfg: Config, first: RequestId, second: RequestId)
    requires first != second
    ensures Lookup(SecondTable(cfg, first, second), second) == Some(Fresh(cfg, second))
    ensures ValidConfig(cfg) ==>
              Apply(cfg, SecondTable(cfg, first, second), Fail(second, 0))
              == Effect(FailedTable(cfg, first, second), OneView(Failing(cfg, second).AsView()), [])
    ensures Lookup(FailedTable(cfg, first, second), second) == Some(Failing(cfg, second))
  {
    var before, after := SecondTable(cfg, first, second), FailedTable(cfg, first, second);
    var k := |before| - 1;
    LastFound(before, k);
    LastFound(after, k);
    assert before[k := Failing(cfg, second)] == after;
    assert [] + CursorOf(Fresh(cfg, second)) == [];
  }

  lemma LastFound(table: Table, k: nat)
    requires |table| == k + 1 <= 2 && (k == 1 ==> table[0].id != table[1].id)
    ensures Find(table, table[k].id) == k
  {
  }

  /** The first worker is armed, its request cancelled; the second request is accepted and waits. */
  lemma SecondSubmitted(cfg: Config, first: RequestId, second: RequestId) returns (v: World, cursor: CursorId)
    requires ValidConfig(cfg) && first != second
    ensures Between(cfg, v, SecondTable(cfg, first, second), 0, false, {first, second})
    ensures forall i :: 0 <= i < |v.owed| ==> v.owed[i].actor == Outside
    ensures v.tasks == map[first := At(Executing(cursor), 0), second := Task(Waiting, Unstarted, [])]
  {
    hide RunsTo;
    hide Reachable;
    hide Submission;
    hide Between;
    hide Shared;
    hide Enabled;
    hide NextPaid;
    hide SubmitsNext;
    hide Apply;
    var armed, closing;
    armed, closing, cursor := CancelledWhileArmed(cfg, first);
    var table, t := [Cancelled(cfg, first)], At(Executing(cursor), 0);
    ArmedBetween(cfg, armed, first, t, table);
    var effect := Effect(SecondTable(cfg, first, second), OneView(Fresh(cfg, second).AsView()), []);
    SecondSubmission(cfg, armed, first, second, effect);
    var u := SubmissionAccepted(cfg, armed, Second(cfg, second), table, 0, 0, {first}, effect);
    assert {first} + {second} == {first, second};
    v := StartStep(cfg, u, SecondTable(cfg, first, second), 0, false, {first, second}, second);
    assert u.tasks == map[first := t, second := Task(Scheduled, Unstarted, [])];
    assert v.tasks == map[first := t, second := Task(Waiting, Unstarted, [])];
  }

  lemma SecondSubmission(cfg: Config, w: World, first: RequestId, second: RequestId, effect: Effect)
    requires ValidConfig(cfg) && first != second && Reachable(cfg, w) && w.machine.table == [Cancelled(cfg, first)]
    requires w.tasks.Keys == {first}
    requires effect == Effect(SecondTable(cfg, first, second), OneView(Fresh(cfg, second).AsView()), [])
    ensures Submission(cfg, w, Second(cfg, second), 0, 0, effect)
  {
    hide Reachable;
    ReachableOk(cfg, w);
    assert second !in w.tasks ==> second !in w.machine.issued;
    hide Inv;
    hide Apply;
    hide SomeFresh;
    SecondEffect(cfg, first, second);
  }

  /** A step of one worker without a broker operation, among others. */
  lemma AmongOthers(cfg: Config, w: World, table: Table, live: set<RequestId>, a: Action) returns (n: World)
    requires Between(cfg, w, table, 0, false, live) && (a.Advance? || a.Spawn?) && Enabled(cfg, w, a) && BrokerCall(w, a).None?
    ensures Defined(w, a) && a.id in w.tasks && Between(cfg, n, table, 0, false, live) && n.owed == w.owed
    ensures n.tasks == w.tasks[a.id := Moved(w.tasks[a.id], a, None)]
  {
    hide Enabled;
    hide RunsTo;
    hide Reachable;
    n := QuietStep(cfg, w, a);
    StillReachable(cfg, w, n);
    assert TasksAfter(cfg, w, a) == w.tasks[a.id := Moved(w.tasks[a.id], a, None)] && LoopAfter(cfg, w, a) == w.loop;
    SameLive(w.tasks, a.id, Moved(w.tasks[a.id], a, None));
  }

  lemma SameLive(tasks: map<RequestId, Task>, id: RequestId, t: Task)
    requires id in tasks && t.run == tasks[id].run
    ensures LiveTasks(tasks[id := t]) == LiveTasks(tasks)
  {
  }

  lemma SpawnStep(cfg: Config, w: World, table: Table, live: set<RequestId>, id: RequestId) returns (n: World)
    requires Between(cfg, w, table, 0, false, live) && id in w.tasks && w.tasks[id].run.Waiting? && w.tasks[id].phase.Unstarted?
    requires forall i :: 0 <= i < |w.owed| ==> w.owed[i].actor == Outside
    ensures Between(cfg, n, table, 0, false, live) && n.owed == w.owed
    ensures n.tasks == w.tasks[id := w.tasks[id].(phase := Locking)]
  {
    hide Between;
    var a := Spawn(id, true);
    assert Enabled(cfg, w, a) && BrokerCall(w, a).None?;
    hide Enabled;
    n := AmongOthers(cfg, w, table, live, a);
  }

  lemma LockStep(cfg: Config, w: World, table: Table, live: set<RequestId>, id: RequestId) returns (n: World)
    requires Between(cfg, w, table, 0, false, live) && id in w.tasks && w.tasks[id].phase.Locking? && w.lock.Some?
    requires forall i :: 0 <= i < |w.owed| ==> w.owed[i].actor == Outside
    ensures Enabled(cfg, w, Advance(id, Reply.Failed, 0))
    ensures Between(cfg, n, table, 0, false, live) && n.owed == w.owed
    ensures n.tasks == w.tasks[id := w.tasks[id].(phase := Finished(Raised), log := w.tasks[id].log + [LockBusy])]
  {
    hide Between;
    CanAdvance(cfg, w, id, Reply.Failed);
    hide Enabled;
    n := AmongOthers(cfg, w, table, live, Advance(id, Reply.Failed, 0));
  }

  lemma ArmedBetween(cfg: Config, w: World, id: RequestId, t: Task, table: Table)
    requires exists owed :: Owing(cfg, w, id, t, table, owed)
    requires !t.run.Ended?
    ensures Between(cfg, w, table, 0, false, {id}) && Reachable(cfg, w) && w.machine.table == table
  {
    OnlyLive(id, t);
    hide Reachable;
  }

  lemma FirstHasLock(cfg: Config, w: World, id: RequestId)
    requires ValidConfig(cfg) && Reachable(cfg, w) && id in w.tasks && HoldsLock(w.tasks[id].phase)
    ensures w.lock == Some(id)
  {
    ReachableOk(cfg, w);
    TaskFacts(cfg, w, id);
    hide Reachable;
    hide Inv;
  }

  /** Armed cursors, cursors armed after a cancellation, refused cursors, published results and returned
      closes are all reachable, whatever the configuration. */
  lemma EverythingHappens(cfg: Config, id: RequestId, source: SourceId)
    requires ValidConfig(cfg)
    ensures exists w :: Reachable(cfg, w) && id in w.tasks && Armed(w.tasks[id].phase).Some? && w.owed == []
    ensures exists w, cursor :: Reachable(cfg, w) && id in w.tasks && Armed(w.tasks[id].phase) == Some(cursor) && Due(w, cursor)
    ensures exists w :: Reachable(cfg, w) && id in w.tasks && CursorRefused in w.tasks[id].log
    ensures exists w :: Reachable(cfg, w) && Holds(w.machine.table, id, source) && !w.closed
    ensures exists w :: Reachable(cfg, w) && Holds(w.machine.table, id, source) && w.returned
  {
    hide Reachable;
    var armed, cursor := CursorArmed(cfg, id);
    assert Reachable(cfg, armed);
    var cancelled, closing, late := CancelledWhileArmed(cfg, id);
    assert cancelled.owed[0].cursor == late && Reachable(cfg, cancelled) && Due(cancelled, late);
    var refused, unwanted := CursorRefusedLate(cfg, id);
    var published := Publishes(cfg, id, source);
    OnlyRecord(Published(cfg, id, source), Published(cfg, id, source));
    assert Reachable(cfg, published) && Holds(published.machine.table, id, source) && !published.closed;
    var quiet := Closes(cfg, id, source);
    assert Reachable(cfg, quiet) && Holds(quiet.machine.table, id, source) && quiet.returned;
  }
}
