/** The steps of Runtime behind the code of the executor object: when each is enabled, and what it
    leaves behind once its cancellations are issued. */
module ExecutorSteps {
  import opened Wrappers
  import opened BrokerModel
  import opened BrokerProofs
  import opened BrokerTouch
  import R = BrokerRuns
  import Broker
  import opened Execution
  import opened Runtime
  import opened RuntimeInvariant
  import opened RuntimeRuns

  lemma StartReachable(cfg: Config)
    ensures Reachable(cfg, START) && RunsTo(cfg, START, START)
  {
    assert EnabledAll(cfg, START, []) && Run(cfg, START, []) == START;
  }

  lemma PaidFacts(cfg: Config, w: World, a: Action)
    requires Enabled(cfg, w, a) && !a.Deliver?
    ensures Defined(w, a) && RunsTo(cfg, w, NextPaid(cfg, w, a))
    ensures var n := NextPaid(cfg, w, a);
            && n.tasks == TasksAfter(cfg, w, a) && n.loop == LoopAfter(cfg, w, a) && n.lock == LockAfter(w, a)
            && n.closed == (w.closed || a.BeginClose?) && n.returned == (w.returned || a.FinishClose?)
            && n.waiting == WaitingAfter(w, a) && n.owed == w.owed
            && n.machine == Half(cfg, w, a).machine
  {
    PayingIsARun(cfg, w, a);
    hide Half;
    hide TasksAfter;
    hide LoopAfter;
    hide LockAfter;
    hide WaitingAfter;
    hide Enabled;
    hide RunsTo;
  }

  /** The broker half of a step, from what the broker object did. */
  lemma CallFacts(cfg: Config, w: World, a: Action, call: Call, effect: Effect)
    requires Defined(w, a) && BrokerCall(w, a) == Some(call) && effect == Apply(cfg, w.machine.table, call)
    ensures Half(cfg, w, a).machine.table == effect.table && AnswerOf(cfg, w, a) == Some(effect.answer)
    ensures Half(cfg, w, a).machine.clock == R.Latest(w.machine.clock, R.Readings(call))
    ensures !call.Submit? ==> Half(cfg, w, a).machine.issued == w.machine.issued
  {
    hide Apply;
  }

  // ----- submission -----

  lemma SubmitEnabled(cfg: Config, w: World, a: Action, from: int, to: int)
    requires a.Submit? && w.loop.Free? && Idle(w, EventLoop) && !w.closed && w.machine.clock <= from
    requires |a.readings| == |w.machine.table| && SomeFresh(w.machine.table, a.tokens)
    requires Broker.Monotone(from, a.readings + [a.now], to)
    requires forall t :: t in a.tokens ==> t !in w.machine.issued
    ensures Enabled(cfg, w, a)
  {
    var call := BrokerCall(w, a).value;
    assert R.Readings(call) == a.readings + [a.now];
    if Issued(cfg, w.machine.table, call).Some? {
      IssuedFromTokens(cfg, w.machine.table, call);
    }
    hide SubmitEffect;
    hide Issued;
  }

  lemma LastReading(from: int, readings: seq<int>, now: int, to: int)
    requires Broker.Monotone(from, readings + [now], to)
    ensures from <= now <= to
  {
    assert (readings + [now])[|readings|] == now;
  }

  lemma IssuedFromTokens(cfg: Config, table: Table, call: Call)
    requires Applicable(table, call) && call.Submit? && Issued(cfg, table, call).Some?
    ensures Issued(cfg, table, call).value in call.tokens && Apply(cfg, table, call).answer.view.status.Pending?
  {
  }

  /** A submission as its caller sees it: refused, or a new pending request whose task is being made. */
  lemma SubmittedFacts(cfg: Config, w: World, a: Action, effect: Effect)
    requires a.Submit? && !w.closed && Enabled(cfg, w, a) && ValidConfig(cfg) && Reachable(cfg, w)
    requires effect == Apply(cfg, w.machine.table, Call.Submit(a.ttl, a.readings, a.now, a.tokens))
    ensures Defined(w, a) && RunsTo(cfg, w, NextPaid(cfg, w, a))
    ensures var v := NextPaid(cfg, w, a);
            && v.machine.table == effect.table && v.machine.clock == a.now && v.closed == w.closed && v.owed == w.owed
            && if effect.answer.OneView? then
                 var id := effect.answer.view.id;
                 && effect.answer.view.status.Pending? && id !in w.tasks
                 && v.loop == LoopState.Submitting(id) && v.tasks == w.tasks[id := Task(Scheduling, Unstarted, [])]
               else v.loop == w.loop && v.tasks == w.tasks
  {
    hide Apply;
    hide Inv;
    hide Reachable;
    hide Half;
    hide NextPaid;
    hide Enabled;
    hide RunsTo;
    var call := Call.Submit(a.ttl, a.readings, a.now, a.tokens);
    PaidFacts(cfg, w, a);
    CallFacts(cfg, w, a, call, effect);
    assert R.Readings(call) == a.readings + [a.now];
    ReachableOk(cfg, w);
    if effect.answer.OneView? {
      IssuedFromTokens(cfg, w.machine.table, call);
      CreatedIsNew(cfg, w, a);
    }
  }

  lemma TaskCreated(cfg: Config, v: World)
    requires v.loop.Submitting? && v.loop.id in v.tasks && v.tasks[v.loop.id].run.Scheduling? && Idle(v, EventLoop)
    ensures Enabled(cfg, v, CreateTask) && RunsTo(cfg, v, NextPaid(cfg, v, CreateTask))
    ensures var n := NextPaid(cfg, v, CreateTask);
            && n.machine == v.machine && n.owed == v.owed && n.closed == v.closed && n.loop.Free?
            && n.tasks == v.tasks[v.loop.id := v.tasks[v.loop.id].(run := Scheduled)]
  {
    PaidFacts(cfg, v, CreateTask);
    hide NextPaid;
    hide RunsTo;
  }

  lemma SingleCall(cfg: Config, m: R.Machine, call: Call)
    requires !call.Submit? && !call.List? && call.now >= m.clock
    ensures R.Enabled(cfg, m, call) && R.Latest(m.clock, R.Readings(call)) == call.now
  {
    assert R.Readings(call) == [call.now];
  }

  lemma TaskAbandoned(cfg: Config, v: World, at: int, effect: Effect)
    requires v.loop.Submitting? && v.loop.id in v.tasks && v.tasks[v.loop.id].run.Scheduling? && Idle(v, EventLoop)
    requires at >= v.machine.clock && effect == Apply(cfg, v.machine.table, Fail(v.loop.id, at))
    ensures Enabled(cfg, v, AbandonTask(at)) && RunsTo(cfg, v, NextPaid(cfg, v, AbandonTask(at)))
    ensures var n := NextPaid(cfg, v, AbandonTask(at));
            && n.machine.table == effect.table && n.machine.clock == at
            && n.owed == v.owed && n.closed == v.closed && n.loop.Free?
            && n.tasks == v.tasks[v.loop.id := v.tasks[v.loop.id].(run := RunPhase.Ended)]
  {
    SingleCall(cfg, v.machine, Fail(v.loop.id, at));
    assert BrokerCall(v, AbandonTask(at)) == Some(Fail(v.loop.id, at));
    assert Enabled(cfg, v, AbandonTask(at));
    PaidFacts(cfg, v, AbandonTask(at));
    CallFacts(cfg, v, AbandonTask(at), Fail(v.loop.id, at), effect);
    hide NextPaid;
    hide RunsTo;
    hide Half;
    hide Apply;
    hide AnswerOf;
  }

  /** A World agrees with what the object shows: the broker's table and clock and the closed flag. */
  ghost predicate Shared(cfg: Config, w: World, table: Table, now: int, closed: bool) {
    w.machine.table == table && w.machine.clock <= now && w.closed == closed && Reachable(cfg, w)
  }

  /** Between two stretches the event loop is free and owes nothing, and the live tasks are known. */
  ghost predicate Between(cfg: Config, w: World, table: Table, now: int, closed: bool, tasks: set<RequestId>) {
    Shared(cfg, w, table, now, closed) && w.loop.Free? && Idle(w, EventLoop) && tasks == LiveTasks(w.tasks)
  }

  lemma Overwrite(tasks: map<RequestId, Task>, id: RequestId, first: Task, last: Task)
    ensures tasks[id := first][id := last] == tasks[id := last]
  {
  }

  /** Every pending record belongs to a live task. */
  ghost predicate AllLive(table: Table, tasks: set<RequestId>) {
    forall id :: PendingRecord(Lookup(table, id)) ==> id in tasks
  }

  lemma PendingAreLive(cfg: Config, w: World, table: Table, now: int, closed: bool, tasks: set<RequestId>)
    requires ValidConfig(cfg) && Between(cfg, w, table, now, closed, tasks)
    ensures AllLive(table, tasks)
  {
    ReachableOk(cfg, w);
    hide Reachable;
    hide Inv;
    forall id | PendingRecord(Lookup(table, id)) ensures id in tasks {
      PendingIsLive(cfg, w, id);
    }
  }

  lemma PendingIsLive(cfg: Config, w: World, id: RequestId)
    requires Inv(cfg, w) && PendingRecord(Lookup(w.machine.table, id))
    ensures id in w.tasks && !w.tasks[id].run.Ended?
  {
    var k := Find(w.machine.table, id);
    assert w.machine.table[k].id in w.machine.issued;
    assert TaskOk(w, id);
  }

  /** A submission the object has made of its broker. */
  ghost predicate Submission(cfg: Config, w: World, a: Action, from: int, to: int, effect: Effect) {
    && a.Submit? && |a.readings| == |w.machine.table| && SomeFresh(w.machine.table, a.tokens)
    && Broker.Monotone(from, a.readings + [a.now], to)
    && effect == Apply(cfg, w.machine.table, Call.Submit(a.ttl, a.readings, a.now, a.tokens))
    && forall t :: t in a.tokens ==> t !in w.machine.issued
  }

  /** The submission is the next step. */
  ghost predicate SubmitsNext(cfg: Config, w: World, a: Action) {
    a.Submit? && Enabled(cfg, w, a) && Defined(w, a)
  }

  lemma SubmissionStep(cfg: Config, w: World, a: Action, table: Table, from: int, to: int, tasks: set<RequestId>, effect: Effect)
    requires ValidConfig(cfg) && Between(cfg, w, table, from, false, tasks) && Submission(cfg, w, a, from, to, effect)
    ensures Enabled(cfg, w, a) && Defined(w, a) && RunsTo(cfg, w, NextPaid(cfg, w, a))
    ensures a.Submit? && a.now <= to
    ensures var v := NextPaid(cfg, w, a);
            && v.machine.table == effect.table && v.machine.clock == a.now && !v.closed && v.owed == w.owed
            && if effect.answer.OneView? then
                 var id := effect.answer.view.id;
                 && effect.answer.view.status.Pending? && id !in w.tasks
                 && v.loop == LoopState.Submitting(id) && v.tasks == w.tasks[id := Task(Scheduling, Unstarted, [])]
               else v.loop == w.loop && v.tasks == w.tasks
  {
    LastReading(from, a.readings, a.now, to);
    SubmitEnabled(cfg, w, a, from, to);
    SubmittedFacts(cfg, w, a, effect);
    hide NextPaid;
    hide Apply;
    hide RunsTo;
    hide Enabled;
    hide LiveTasks;
    hide Broker.Monotone;
  }

  lemma SubmissionRefused(cfg: Config, w: World, a: Action, table: Table, from: int, to: int, tasks: set<RequestId>, effect: Effect)
    returns (n: World)
    requires ValidConfig(cfg) && Between(cfg, w, table, from, false, tasks) && Submission(cfg, w, a, from, to, effect)
    requires !effect.answer.OneView?
    ensures Between(cfg, n, effect.table, to, false, tasks) && RunsTo(cfg, w, n)
    ensures SubmitsNext(cfg, w, a) && n == NextPaid(cfg, w, a)
  {
    hide Submission;
    hide Reachable;
    hide RunsTo;
    hide Enabled;
    hide NextPaid;
    SubmissionStep(cfg, w, a, table, from, to, tasks, effect);
    n := NextPaid(cfg, w, a);
    StillReachable(cfg, w, n);
  }

  lemma SubmissionAccepted(
      cfg: Config, w: World, a: Action, table: Table, from: int, to: int, tasks: set<RequestId>, effect: Effect)
    returns (n: World)
    requires ValidConfig(cfg) && Between(cfg, w, table, from, false, tasks) && Submission(cfg, w, a, from, to, effect)
    requires effect.answer.OneView?
    ensures var view := effect.answer.view;
            && Between(cfg, n, effect.table, to, false, tasks + {view.id}) && RunsTo(cfg, w, n)
            && view.status.Pending? && view.id !in w.tasks
            && n.tasks == w.tasks[view.id := Task(Scheduled, Unstarted, [])]
    ensures n.owed == w.owed
    ensures SubmitsNext(cfg, w, a) && Enabled(cfg, NextPaid(cfg, w, a), CreateTask)
    ensures Defined(NextPaid(cfg, w, a), CreateTask) && n == NextPaid(cfg, NextPaid(cfg, w, a), CreateTask)
  {
    hide Submission;
    hide Reachable;
    hide RunsTo;
    hide Enabled;
    hide NextPaid;
    SubmissionStep(cfg, w, a, table, from, to, tasks, effect);
    var v := NextPaid(cfg, w, a);
    TaskCreated(cfg, v);
    n := NextPaid(cfg, v, CreateTask);
    RunsThrough(cfg, w, v, n);
    StillReachable(cfg, w, n);
  }

  lemma SubmissionAbandoned(
      cfg: Config, w: World, a: Action, table: Table, from: int, to: int, tasks: set<RequestId>, effect: Effect,
                            at: int, last: int, failed: Effect)
    returns (n: World)
    requires ValidConfig(cfg) && Between(cfg, w, table, from, false, tasks) && Submission(cfg, w, a, from, to, effect)
    requires effect.answer.OneView? && to <= at <= last
    requires failed == Apply(cfg, effect.table, Fail(effect.answer.view.id, at))
    ensures Between(cfg, n, failed.table, last, false, tasks) && RunsTo(cfg, w, n)
    ensures var id := effect.answer.view.id;
            id !in w.tasks && id !in tasks && n.tasks == w.tasks[id := Task(RunPhase.Ended, Unstarted, [])]
    ensures SubmitsNext(cfg, w, a) && Enabled(cfg, NextPaid(cfg, w, a), AbandonTask(at))
    ensures Defined(NextPaid(cfg, w, a), AbandonTask(at)) && n == NextPaid(cfg, NextPaid(cfg, w, a), AbandonTask(at))
  {
    hide Submission;
    hide Reachable;
    hide RunsTo;
    hide Enabled;
    hide NextPaid;
    hide Apply;
    Overwrite(w.tasks, effect.answer.view.id, Task(Scheduling, Unstarted, []), Task(RunPhase.Ended, Unstarted, []));
    SubmissionStep(cfg, w, a, table, from, to, tasks, effect);
    var v := NextPaid(cfg, w, a);
    TaskAbandoned(cfg, v, at, failed);
    n := NextPaid(cfg, v, AbandonTask(at));
    RunsThrough(cfg, w, v, n);
    StillReachable(cfg, w, n);
  }

  // ----- one coroutine or worker thread -----

  predicate OnLoop(a: Action) {
    a.StartRun? || a.TimerFires? || a.Poll? || a.Collect? || a.PublishResult? || a.RecordFailure?
  }

  /** A move of a coroutine that has the event loop. */
  lemma CoroutineMoves(cfg: Config, w: World, a: Action)
    requires OnLoop(a) && w.loop.Free? && Idle(w, EventLoop) && a.id in w.tasks && TaskGuard(w.tasks[a.id], a)
    requires a.Poll? || a.PublishResult? || a.RecordFailure? ==> a.now >= w.machine.clock
    ensures Enabled(cfg, w, a) && RunsTo(cfg, w, NextPaid(cfg, w, a))
    ensures var n := NextPaid(cfg, w, a);
            && n.owed == w.owed && n.closed == w.closed && n.loop == w.loop
            && n.tasks == w.tasks[a.id := Moved(w.tasks[a.id], a, AnswerOf(cfg, w, a))]
            && (BrokerCall(w, a).None? ==> n.machine == w.machine)
  {
    if BrokerCall(w, a).Some? {
      SingleCall(cfg, w.machine, BrokerCall(w, a).value);
    }
    assert Enabled(cfg, w, a);
    PaidFacts(cfg, w, a);
    hide NextPaid;
    hide RunsTo;
    hide AfterCall;
    hide AnswerOf;
    hide Moved;
  }

  /** The same with what the broker object answered. */
  lemma CoroutineCalls(cfg: Config, w: World, a: Action, call: Call, effect: Effect)
    requires OnLoop(a) && w.loop.Free? && Idle(w, EventLoop) && a.id in w.tasks && TaskGuard(w.tasks[a.id], a)
    requires BrokerCall(w, a) == Some(call) && !call.Submit? && !call.List? && call.now >= w.machine.clock
    requires a.Poll? || a.PublishResult? || a.RecordFailure? ==> a.now == call.now
    requires effect == Apply(cfg, w.machine.table, call)
    ensures Enabled(cfg, w, a) && RunsTo(cfg, w, NextPaid(cfg, w, a))
    ensures var n := NextPaid(cfg, w, a);
            && n.owed == w.owed && n.closed == w.closed && n.loop == w.loop
            && n.tasks == w.tasks[a.id := Moved(w.tasks[a.id], a, Some(effect.answer))]
            && n.machine.table == effect.table && n.machine.clock == call.now
  {
    CoroutineMoves(cfg, w, a);
    CallFacts(cfg, w, a, call, effect);
    SingleCall(cfg, w.machine, call);
    PaidFacts(cfg, w, a);
    hide *;
  }

  /** A broker call of a worker thread. */
  lemma WorkerCalls(cfg: Config, w: World, a: Action, call: Call, effect: Effect)
    requires a.Advance? && a.id in w.tasks && Fits(w.tasks[a.id].phase, a.reply) && Idle(w, Thread(a.id))
    requires w.tasks[a.id].phase.Registering? || w.tasks[a.id].phase.Releasing?
    requires BrokerCall(w, a) == Some(call) && call.now >= w.machine.clock && !call.Submit? && !call.List?
    requires effect == Apply(cfg, w.machine.table, call)
    requires w.tasks[a.id].phase.Registering? ==> (a.reply.Ok? <==> effect.answer.OneView?)
    ensures Enabled(cfg, w, a) && RunsTo(cfg, w, NextPaid(cfg, w, a))
    ensures var n := NextPaid(cfg, w, a);
            && n.owed == w.owed && n.closed == w.closed && n.loop == w.loop
            && n.tasks == w.tasks[a.id := Moved(w.tasks[a.id], a, Some(effect.answer))]
            && n.machine.table == effect.table && n.machine.clock == call.now
  {
    SingleCall(cfg, w.machine, call);
    assert Enabled(cfg, w, a) by { hide Apply; }
    PaidFacts(cfg, w, a);
    CallFacts(cfg, w, a, call, effect);
    hide NextPaid;
    hide RunsTo;
    hide Half;
    hide Apply;
    hide Moved;
    hide AnswerOf;
  }

  // ----- closing -----

  lemma ListEnabled(cfg: Config, w: World, readings: seq<int>, from: int, to: int)
    requires w.loop.Free? && Idle(w, EventLoop) && w.machine.clock <= from
    requires |readings| == |w.machine.table| && Broker.Monotone(from, readings, to)
    ensures Enabled(cfg, w, Action.BeginClose(readings))
  {
    assert R.Readings(List(readings)) == readings;
  }

  /** While the cancel loop of close runs over the views that are left, every pending record is among
      them. */
  ghost predicate Cancelling(w: World, v: World, views: seq<View>) {
    && v.loop == Closing(PendingIds(views))
    && v.tasks == w.tasks && v.waiting == w.waiting && v.closed && v.owed == w.owed
    && Distinct(v.machine.table)
    && forall i :: 0 <= i < |v.machine.table| && v.machine.table[i].status.Pending? ==> v.machine.table[i].id in PendingIds(views)
  }

  /** A listing shows every pending record it leaves as pending. */
  lemma ListedTable(cfg: Config, table: Table, readings: seq<int>)
    requires |readings| == |table| && Distinct(table)
    ensures var effect := Apply(cfg, table, List(readings));
            && effect.answer.Views? && Distinct(effect.table)
            && forall i :: 0 <= i < |effect.table| && effect.table[i].status.Pending?
                           ==> effect.table[i].id in PendingIds(effect.answer.views)
  {
    hide PendingIds;
    var effect := Apply(cfg, table, List(readings));
    var views := effect.answer.views;
    forall i | 0 <= i < |effect.table| && effect.table[i].status.Pending?
      ensures effect.table[i].id in PendingIds(views)
    {
      assert views[|views| - 1 - i] == effect.table[i].AsView();
      PendingListed(views, |views| - 1 - i);
    }
    forall i, j | 0 <= i < j < |effect.table| ensures effect.table[i].id != effect.table[j].id {
      assert table[i].id != table[j].id;
    }
  }

  lemma Listed(cfg: Config, w: World, readings: seq<int>, effect: Effect)
    requires Enabled(cfg, w, Action.BeginClose(readings)) && Distinct(w.machine.table) && |readings| == |w.machine.table|
    requires effect == Apply(cfg, w.machine.table, List(readings))
    ensures effect.answer.Views? && RunsTo(cfg, w, NextPaid(cfg, w, Action.BeginClose(readings)))
    ensures var v := NextPaid(cfg, w, Action.BeginClose(readings));
            && Cancelling(w, v, effect.answer.views) && v.machine.table == effect.table
            && v.machine.clock == R.Latest(w.machine.clock, readings)
  {
    hide NextPaid;
    hide RunsTo;
    hide Half;
    hide PendingIds;
    hide Enabled;
    hide Apply;
    hide AnswerOf;
    hide Distinct;
    var a := Action.BeginClose(readings);
    PaidFacts(cfg, w, a);
    CallFacts(cfg, w, a, List(readings), effect);
    ListedTable(cfg, w.machine.table, readings);
  }

  lemma {:induction false} PendingListed(views: seq<View>, i: nat)
    requires i < |views| && views[i].status.Pending?
    ensures views[i].id in PendingIds(views)
  {
    if i > 0 {
      PendingListed(views[1..], i - 1);
    }
  }

  lemma NextView(views: seq<View>, i: nat)
    requires i < |views|
    ensures PendingIds(views[i..])
            == (if views[i].status.Pending? then [views[i].id] else []) + PendingIds(views[i + 1..])
  {
    assert views[i..][1..] == views[i + 1..];
  }

  /** A cancellation leaves its own record, and no other, newly out of the pending ones. */
  lemma CancelClears(cfg: Config, table: Table, id: RequestId, at: int)
    requires Distinct(table)
    ensures var after := Apply(cfg, table, Cancel(id, at)).table;
            && Distinct(after) && |after| == |table|
            && forall i :: 0 <= i < |after| ==>
                 after[i].id == table[i].id && (after[i].status.Pending? ==> table[i].status.Pending? && after[i].id != id)
  {
    var k := Find(table, id);
  }

  /** One turn of the cancel loop. */
  lemma CancelledOne(cfg: Config, w: World, v: World, views: seq<View>, i: nat, at: int, effect: Effect)
    requires i < |views| && views[i].status.Pending? && Cancelling(w, v, views[i..]) && Idle(v, EventLoop)
    requires at >= v.machine.clock && effect == Apply(cfg, v.machine.table, Cancel(views[i].id, at))
    ensures Enabled(cfg, v, CancelNext(at)) && RunsTo(cfg, v, NextPaid(cfg, v, CancelNext(at)))
    ensures var n := NextPaid(cfg, v, CancelNext(at));
            Cancelling(w, n, views[i + 1..]) && n.machine.table == effect.table && n.machine.clock == at
  {
    hide NextPaid;
    hide RunsTo;
    hide Half;
    hide PendingIds;
    hide Apply;
    hide AnswerOf;
    hide Distinct;
    var a := CancelNext(at);
    NextView(views, i);
    assert PendingIds(views[i..])[1..] == PendingIds(views[i + 1..]);
    SingleCall(cfg, v.machine, Cancel(views[i].id, at));
    assert BrokerCall(v, a) == Some(Cancel(views[i].id, at));
    CancelEnabled(cfg, v, at);
    hide Enabled;
    PaidFacts(cfg, v, a);
    CallFacts(cfg, v, a, Cancel(views[i].id, at), effect);
    CancelClears(cfg, v.machine.table, views[i].id, at);
  }

  lemma CancelEnabled(cfg: Config, v: World, at: int)
    requires v.loop.Closing? && v.loop.pending != [] && Idle(v, EventLoop) && at >= v.machine.clock
    ensures Enabled(cfg, v, CancelNext(at))
  {
    SingleCall(cfg, v.machine, Cancel(v.loop.pending[0], at));
  }

  lemma SkipView(w: World, v: World, views: seq<View>, i: nat)
    requires i < |views| && !views[i].status.Pending? && Cancelling(w, v, views[i..])
    ensures Cancelling(w, v, views[i + 1..])
  {
    NextView(views, i);
    assert PendingIds(views[i..]) == PendingIds(views[i + 1..]);
  }

  lemma AllCancelled(cfg: Config, w: World, v: World)
    requires Cancelling(w, v, []) && Idle(v, EventLoop)
    ensures Enabled(cfg, v, AwaitTasks) && RunsTo(cfg, v, NextPaid(cfg, v, AwaitTasks))
    ensures var n := NextPaid(cfg, v, AwaitTasks);
            && n.machine == v.machine && n.tasks == w.tasks && n.owed == v.owed && n.closed && n.loop.Free?
            && n.waiting == w.waiting + [LiveTasks(w.tasks)]
    ensures forall i :: 0 <= i < |v.machine.table| ==> !v.machine.table[i].status.Pending?
  {
    assert PendingIds([]) == [];
    PaidFacts(cfg, v, AwaitTasks);
    hide NextPaid;
    hide RunsTo;
    hide Distinct;
  }

  lemma CloseReturns(cfg: Config, w: World, i: nat)
    requires w.loop.Free? && Idle(w, EventLoop) && i < |w.waiting|
    requires forall id :: id in w.waiting[i] && id in w.tasks ==> w.tasks[id].run.Ended?
    ensures Enabled(cfg, w, FinishClose(i)) && RunsTo(cfg, w, NextPaid(cfg, w, FinishClose(i)))
    ensures var n := NextPaid(cfg, w, FinishClose(i));
            n.machine == w.machine && n.tasks == w.tasks && n.owed == w.owed && n.closed == w.closed && n.loop.Free? && n.returned
  {
    hide NextPaid;
    hide RunsTo;
    hide Half;
    FinishEnabled(cfg, w, i);
    hide Enabled;
    PaidFacts(cfg, w, FinishClose(i));
    assert Half(cfg, w, FinishClose(i)).machine == w.machine by { NoCall(cfg, w, FinishClose(i)); }
  }

  lemma FinishEnabled(cfg: Config, w: World, i: nat)
    requires w.loop.Free? && Idle(w, EventLoop) && i < |w.waiting|
    requires forall id :: id in w.waiting[i] && id in w.tasks ==> w.tasks[id].run.Ended?
    ensures Enabled(cfg, w, FinishClose(i))
  {
  }

  lemma NoCall(cfg: Config, w: World, a: Action)
    requires Defined(w, a) && BrokerCall(w, a).None?
    ensures Half(cfg, w, a) == w
  {
  }

  // ----- whole stretches, from one agreement with the object to the next -----

  lemma ReachableIsDistinct(cfg: Config, w: World)
    requires ValidConfig(cfg) && Reachable(cfg, w)
    ensures Distinct(w.machine.table)
  {
    ReachableOk(cfg, w);
    R.OrderIsDistinct(w.machine.table, w.machine.issued);
  }

  /** The cancel loop of a close that began in `w` has reached `v` and has these views left. */
  ghost predicate ClosingLoop(cfg: Config, w: World, v: World, table: Table, now: int, views: seq<View>) {
    && RunsTo(cfg, w, v) && Cancelling(w, v, views) && Idle(w, EventLoop)
    && v.machine.table == table && v.machine.clock <= now
  }

  lemma LatestReading(clock: int, readings: seq<int>, from: int, to: int)
    requires Broker.Monotone(from, readings, to) && clock <= from
    ensures R.Latest(clock, readings) <= to
  {
  }

  lemma ListStep(cfg: Config, w: World, table: Table, from: int, to: int, closed: bool, tasks: set<RequestId>,
                 readings: seq<int>, effect: Effect) returns (v: World)
    requires ValidConfig(cfg) && Between(cfg, w, table, from, closed, tasks)
    requires |readings| == |table| && Broker.Monotone(from, readings, to) && effect == Apply(cfg, table, List(readings))
    ensures effect.answer.Views? && ClosingLoop(cfg, w, v, effect.table, to, effect.answer.views)
  {
    hide RunsTo;
    hide Reachable;
    hide Enabled;
    hide NextPaid;
    hide Apply;
    hide LiveTasks;
    hide Cancelling;
    ReachableIsDistinct(cfg, w);
    LatestReading(w.machine.clock, readings, from, to);
    ListEnabled(cfg, w, readings, from, to);
    Listed(cfg, w, readings, effect);
    EnabledIsDefined(cfg, w, Action.BeginClose(readings));
    v := NextPaid(cfg, w, Action.BeginClose(readings));
  }

  lemma CancelStep(cfg: Config, w: World, v: World, table: Table, from: int, to: int, views: seq<View>, i: nat, at: int,
                   effect: Effect) returns (n: World)
    requires i < |views| && views[i].status.Pending? && ClosingLoop(cfg, w, v, table, from, views[i..])
    requires from <= at <= to && effect == Apply(cfg, table, Cancel(views[i].id, at))
    ensures ClosingLoop(cfg, w, n, effect.table, to, views[i + 1..])
  {
    hide RunsTo;
    hide Enabled;
    hide NextPaid;
    hide Apply;
    assert Idle(v, EventLoop);
    CancelledOne(cfg, w, v, views, i, at, effect);
    EnabledIsDefined(cfg, v, CancelNext(at));
    n := NextPaid(cfg, v, CancelNext(at));
    hide Cancelling;
    RunsThrough(cfg, w, v, n);
  }

  lemma SkipStep(cfg: Config, w: World, v: World, table: Table, now: int, views: seq<View>, i: nat)
    requires i < |views| && !views[i].status.Pending? && ClosingLoop(cfg, w, v, table, now, views[i..])
    ensures ClosingLoop(cfg, w, v, table, now, views[i + 1..])
  {
    SkipView(w, v, views, i);
    hide Cancelling;
    hide RunsTo;
  }

  lemma AwaitStep(cfg: Config, w: World, v: World, before: Table, from: int, closed: bool, tasks: set<RequestId>,
                  table: Table, now: int, views: seq<View>) returns (n: World)
    requires Between(cfg, w, before, from, closed, tasks) && ClosingLoop(cfg, w, v, table, now, views) && views == []
    ensures Between(cfg, n, table, now, true, tasks) && RunsTo(cfg, w, n)
    ensures n.tasks == w.tasks && n.waiting == w.waiting + [tasks]
    ensures forall i :: 0 <= i < |table| ==> !table[i].status.Pending?
  {
    hide RunsTo;
    hide Reachable;
    hide Enabled;
    hide NextPaid;
    hide LiveTasks;
    assert Idle(v, EventLoop);
    AllCancelled(cfg, w, v);
    EnabledIsDefined(cfg, v, AwaitTasks);
    n := NextPaid(cfg, v, AwaitTasks);
    hide Cancelling;
    RunsThrough(cfg, w, v, n);
    StillReachable(cfg, w, n);
  }

  lemma FinishStep(cfg: Config, w: World, table: Table, now: int, closed: bool, tasks: set<RequestId>, i: nat) returns (n: World)
    requires Between(cfg, w, table, now, closed, tasks) && i < |w.waiting| && w.waiting[i] !! tasks
    ensures Between(cfg, n, table, now, closed, tasks) && RunsTo(cfg, w, n) && n.returned && n.tasks == w.tasks
  {
    hide RunsTo;
    hide Reachable;
    hide Enabled;
    hide NextPaid;
    CloseReturns(cfg, w, i);
    EnabledIsDefined(cfg, w, FinishClose(i));
    n := NextPaid(cfg, w, FinishClose(i));
    StillReachable(cfg, w, n);
  }

  /** A worker's task after its registration was accepted or refused. */
  function Registered(t: Task, cursor: CursorId, attached: bool): Task {
    if attached then t.(phase := Executing(cursor), log := t.log + [CursorRegistered])
    else t.(phase := ClosingCursor(cursor, Raised), log := t.log + [CursorRefused])
  }

  lemma RegisterStep(cfg: Config, w: World, table: Table, from: int, to: int, closed: bool, id: RequestId, cursor: CursorId,
                     at: int, effect: Effect) returns (n: World)
    requires Shared(cfg, w, table, from, closed) && from <= at <= to
    requires id in w.tasks && w.tasks[id].phase == Registering(cursor) && Idle(w, Thread(id))
    requires effect == Apply(cfg, table, Register(id, cursor, at))
    ensures Shared(cfg, n, effect.table, to, closed) && RunsTo(cfg, w, n) && n.loop == w.loop && n.owed == w.owed
    ensures var t := w.tasks[id];
            n.tasks == w.tasks[id := Registered(t, cursor, effect.answer.OneView?)]
  {
    hide RunsTo;
    hide Reachable;
    hide Enabled;
    hide NextPaid;
    hide Apply;
    hide Idle;
    var a := Advance(id, if effect.answer.OneView? then Ok else Reply.Failed, at);
    WorkerCalls(cfg, w, a, Register(id, cursor, at), effect);
    EnabledIsDefined(cfg, w, a);
    n := NextPaid(cfg, w, a);
    StillReachable(cfg, w, n);
  }

  function Released(t: Task, cursor: CursorId): Task
    requires t.phase.Releasing?
  {
    t.(phase := ClosingCursor(cursor, t.phase.outcome), log := t.log + [ReleaseAttempted])
  }

  lemma ReleaseStep(cfg: Config, w: World, table: Table, from: int, to: int, closed: bool, id: RequestId, cursor: CursorId,
                    at: int, effect: Effect) returns (n: World)
    requires Shared(cfg, w, table, from, closed) && from <= at <= to
    requires id in w.tasks && w.tasks[id].phase.Releasing? && w.tasks[id].phase.cursor == cursor && Idle(w, Thread(id))
    requires effect == Apply(cfg, table, Release(id, cursor, at))
    ensures Shared(cfg, n, effect.table, to, closed) && RunsTo(cfg, w, n) && n.loop == w.loop && n.owed == w.owed
    ensures var t := w.tasks[id];
            n.tasks == w.tasks[id := Released(t, cursor)]
  {
    hide RunsTo;
    hide Reachable;
    hide Enabled;
    hide NextPaid;
    hide Apply;
    hide Idle;
    var a := Advance(id, Ok, at);
    WorkerCalls(cfg, w, a, Release(id, cursor, at), effect);
    EnabledIsDefined(cfg, w, a);
    n := NextPaid(cfg, w, a);
    StillReachable(cfg, w, n);
  }

  /** A coroutine begins: its work is started and its timer armed. */
  lemma StartStep(cfg: Config, w: World, table: Table, now: int, closed: bool, tasks: set<RequestId>, id: RequestId)
    returns (n: World)
    requires Between(cfg, w, table, now, closed, tasks) && id in w.tasks && w.tasks[id].run.Scheduled?
    ensures Between(cfg, n, table, now, closed, tasks) && RunsTo(cfg, w, n)
    ensures n.tasks == w.tasks[id := w.tasks[id].(run := Waiting)]
    ensures n.owed == w.owed
  {
    hide RunsTo;
    hide Reachable;
    hide Enabled;
    hide NextPaid;
    CoroutineMoves(cfg, w, StartRun(id));
    EnabledIsDefined(cfg, w, StartRun(id));
    n := NextPaid(cfg, w, StartRun(id));
    StillReachable(cfg, w, n);
  }

  /** The expiry timer fires first: the coroutine looks at its own request, so that it can expire. */
  lemma PollStep(cfg: Config, w: World, table: Table, from: int, to: int, closed: bool, tasks: set<RequestId>, id: RequestId,
                 at: int, effect: Effect) returns (n: World)
    requires Between(cfg, w, table, from, closed, tasks) && from <= at <= to
    requires id in w.tasks && w.tasks[id].run.Waiting? && !w.tasks[id].phase.Finished?
    requires effect == Apply(cfg, table, Get(id, at))
    ensures Between(cfg, n, effect.table, to, closed, tasks) && RunsTo(cfg, w, n)
    ensures n.tasks == w.tasks[id := w.tasks[id].(run := Awaiting)]
  {
    hide RunsTo;
    hide Reachable;
    hide Enabled;
    hide NextPaid;
    hide Apply;
    CoroutineMoves(cfg, w, TimerFires(id));
    EnabledIsDefined(cfg, w, TimerFires(id));
    var v := NextPaid(cfg, w, TimerFires(id));
    CoroutineCalls(cfg, v, Poll(id, at), Get(id, at), effect);
    EnabledIsDefined(cfg, v, Poll(id, at));
    n := NextPaid(cfg, v, Poll(id, at));
    RunsThrough(cfg, w, v, n);
    StillReachable(cfg, w, n);
  }

  function Collected(t: Task, outcome: Outcome): Task {
    t.(run := if outcome.Returned? then Settling(outcome.source) else Failing)
  }

  /** The work is done: its outcome is collected. */
  lemma CollectStep(cfg: Config, w: World, table: Table, now: int, closed: bool, tasks: set<RequestId>, id: RequestId)
    returns (n: World)
    requires Between(cfg, w, table, now, closed, tasks)
    requires id in w.tasks && (w.tasks[id].run.Waiting? || w.tasks[id].run.Awaiting?) && w.tasks[id].phase.Finished?
    ensures Between(cfg, n, table, now, closed, tasks) && RunsTo(cfg, w, n)
    ensures n.tasks == w.tasks[id := Collected(w.tasks[id], w.tasks[id].phase.outcome)]
    ensures n.owed == w.owed
  {
    hide RunsTo;
    hide Reachable;
    hide Enabled;
    hide NextPaid;
    CoroutineMoves(cfg, w, Collect(id));
    EnabledIsDefined(cfg, w, Collect(id));
    n := NextPaid(cfg, w, Collect(id));
    StillReachable(cfg, w, n);
  }

  /** The record is COMPLETE and holds this source. */
  predicate Holds(table: Table, id: RequestId, source: SourceId) {
    var record := Lookup(table, id);
    record.Some? && record.value.status.Complete? && record.value.source == Some(source)
  }

  lemma PublishedHolds(cfg: Config, table: Table, id: RequestId, source: SourceId, at: int)
    ensures var effect := Apply(cfg, table, Publish(id, source, at));
            effect.answer.OneView? ==> Holds(effect.table, id, source)
  {
    var k := Find(table, id);
    if k < |table| {
      var after := table[k := OnRecord(table[k], Publish(id, source, at), at).record];
      FindKept(table, after, id);
    }
  }

  lemma {:induction false} FindKept(table: Table, after: Table, id: RequestId)
    requires |table| == |after| && forall i :: 0 <= i < |table| ==> table[i].id == after[i].id
    ensures Find(after, id) == Find(table, id)
  {
    if table != [] {
      FindKept(table[1..], after[1..], id);
    }
  }

  lemma PublishStep(cfg: Config, w: World, table: Table, from: int, to: int, closed: bool, tasks: set<RequestId>, id: RequestId,
                    source: SourceId, at: int, effect: Effect) returns (n: World)
    requires Between(cfg, w, table, from, closed, tasks) && from <= at <= to
    requires id in w.tasks && w.tasks[id].run == Settling(source)
    requires effect == Apply(cfg, table, Publish(id, source, at))
    ensures RunsTo(cfg, w, n)
    ensures n.tasks == w.tasks[id := w.tasks[id].(run := if effect.answer.OneView? then RunPhase.Ended else Failing)]
    ensures Between(cfg, n, effect.table, to, closed, if effect.answer.OneView? then tasks - {id} else tasks)
    ensures effect.answer.OneView? ==> Holds(effect.table, id, source)
    ensures n.owed == w.owed
  {
    PublishedHolds(cfg, table, id, source, at);
    hide RunsTo;
    hide Reachable;
    hide Enabled;
    hide NextPaid;
    hide Apply;
    hide Holds;
    var a := PublishResult(id, at);
    CoroutineCalls(cfg, w, a, Publish(id, source, at), effect);
    EnabledIsDefined(cfg, w, a);
    n := NextPaid(cfg, w, a);
    StillReachable(cfg, w, n);
  }

  lemma FailStep(cfg: Config, w: World, table: Table, from: int, to: int, closed: bool, tasks: set<RequestId>, id: RequestId,
                 at: int, effect: Effect) returns (n: World)
    requires Between(cfg, w, table, from, closed, tasks) && from <= at <= to
    requires id in w.tasks && w.tasks[id].run.Failing? && effect == Apply(cfg, table, Fail(id, at))
    ensures RunsTo(cfg, w, n) && n.tasks == w.tasks[id := w.tasks[id].(run := RunPhase.Ended)]
    ensures Between(cfg, n, effect.table, to, closed, tasks - {id})
  {
    hide RunsTo;
    hide Reachable;
    hide Enabled;
    hide NextPaid;
    hide Apply;
    var a := RecordFailure(id, at);
    CoroutineCalls(cfg, w, a, Fail(id, at), effect);
    EnabledIsDefined(cfg, w, a);
    n := NextPaid(cfg, w, a);
    StillReachable(cfg, w, n);
  }
}
