/** The background executor as the object it is: a closed flag, the set of live tasks, and the broker.
    Its methods are the stretches of its code between two awaits, and the two callbacks the worker
    thread calls. A ghost World records where every coroutine and worker stands; each method takes it
    along an enabled run of Runtime, so what holds in every reachable World holds of the object. */
module Executor {
  import opened Wrappers
  import opened BrokerModel
  import opened BrokerProofs
  import opened BrokerTouch
  import R = BrokerRuns
  import opened Broker
  import opened Execution
  import opened Runtime
  import opened RuntimeInvariant
  import opened RuntimeRuns
  import opened RuntimeTheorems
  import opened ExecutorSteps
  import BrokerAnswers

  datatype Submitted = Accepted(view: View) | Refused(answer: Answer)

  /** A new pending request and its scheduled task, next to the tasks there were. */
  ghost predicate TaskAdded(w: World, n: World, before: set<RequestId>, after: set<RequestId>, view: View) {
    && view.status.Pending? && view.id !in w.tasks && after == before + {view.id}
    && n.tasks == w.tasks[view.id := Task(Scheduled, Unstarted, [])]
  }

  /** A submission followed to its end: the broker's own step, and what the executor made of its answer. */
  ghost predicate SubmittedAs(cfg: Config, w: World, a: Action, created: bool, at: int, result: Submitted, n: World)
    requires SubmitsNext(cfg, w, a) && |a.readings| == |w.machine.table| && SomeFresh(w.machine.table, a.tokens)
  {
    var v := NextPaid(cfg, w, a);
    var answer := Apply(cfg, w.machine.table, Call.Submit(a.ttl, a.readings, a.now, a.tokens)).answer;
    if !answer.OneView? then result == Refused(answer) && n == v
    else if created then
      result == Accepted(answer.view) && Enabled(cfg, v, CreateTask) && Defined(v, CreateTask) && n == NextPaid(cfg, v, CreateTask)
    else
      && result == Refused(Unavailable) && Enabled(cfg, v, AbandonTask(at)) && Defined(v, AbandonTask(at))
      && n == NextPaid(cfg, v, AbandonTask(at))
  }

  lemma OneTaskAdded(w: World, n: World, before: set<RequestId>, after: set<RequestId>, view: View)
    requires view.status.Pending? && view.id !in w.tasks && after == before + {view.id}
    requires n.tasks == w.tasks[view.id := Task(Scheduled, Unstarted, [])]
    ensures TaskAdded(w, n, before, after, view)
  {
  }

  predicate NonePending(table: Table) {
    forall i :: 0 <= i < |table| ==> table[i].status != Pending
  }

  predicate NoneAttached(table: Table) {
    forall i :: 0 <= i < |table| ==> table[i].cursor == None
  }

  class BackgroundQueryExecutor {
    const broker: InProcessBroker
    var tasks: set<RequestId>
    var closed: bool
    ghost var world: World

    /** What holds whenever the worker threads may call in. */
    ghost predicate Coupled()
      reads this, broker, broker.records, broker.clock
    {
      broker.Valid() && Shared(broker.cfg, world, broker.Contents(), broker.clock.last, closed)
    }

    /** What holds between two stretches of the event loop. */
    ghost predicate Valid()
      reads this, broker, broker.records, broker.clock
    {
      broker.Valid() && Between(broker.cfg, world, broker.Contents(), broker.clock.last, closed, tasks)
    }

    constructor (broker: InProcessBroker)
      requires broker.Valid() && broker.Contents() == [] && broker.clock.last >= 0
      ensures Valid() && this.broker == broker && tasks == {} && !closed && world == START
    {
      this.broker, tasks, closed, world := broker, {}, false, START;
      new;
      StartReachable(broker.cfg);
    }

    /** Moves the recorded World on, once the object has done what leads there. */
    ghost method Adopt(n: World)
      requires broker.Valid() && Between(broker.cfg, n, broker.Contents(), broker.clock.last, closed, tasks)
      modifies this`world
      ensures Valid() && world == n && broker.Contents() == old(broker.Contents())
    {
      hide Between;
      ghost var table := broker.Contents();
      world := n;
      assert broker.Contents() == table;
    }

    /** The same at the end of a run, whose task is discarded. */
    method Retire(id: RequestId, ghost n: World)
      requires broker.Valid() && Between(broker.cfg, n, broker.Contents(), broker.clock.last, closed, tasks - {id})
      modifies this`world, this`tasks
      ensures Valid() && world == n && tasks == old(tasks) - {id} && broker.Contents() == old(broker.Contents())
    {
      hide Between;
      ghost var table := broker.Contents();
      tasks := tasks - {id};
      world := n;
      assert broker.Contents() == table;
    }

    /** And at the start of one, whose task is kept until it is done. */
    method Enlist(id: RequestId, ghost n: World)
      requires broker.Valid() && Between(broker.cfg, n, broker.Contents(), broker.clock.last, closed, tasks + {id})
      modifies this`world, this`tasks
      ensures Valid() && world == n && tasks == old(tasks) + {id} && broker.Contents() == old(broker.Contents())
    {
      hide Between;
      ghost var table := broker.Contents();
      tasks := tasks + {id};
      world := n;
      assert broker.Contents() == table;
    }

    /** The same while a worker thread calls in. */
    ghost method AdoptShared(n: World)
      requires broker.Valid() && Shared(broker.cfg, n, broker.Contents(), broker.clock.last, closed)
      modifies this`world
      ensures Coupled() && world == n
    {
      hide Shared;
      ghost var table := broker.Contents();
      world := n;
      assert broker.Contents() == table;
    }

    /** Synchronous submission: refused when closed, when admission raises, or by the broker; otherwise
        one pending record and one scheduled task, or a failed record when no task can be made. An open
        executor always asks the broker, and accepts exactly if a task can be made, the lifetime is positive
        and there is a place for the request. */
    method Submit(admitted: bool, requestedTtl: int, tokens: seq<RequestId>, created: bool)
      returns (result: Submitted, ghost readings: seq<int>, ghost now: int, ghost at: int)
      requires Valid() && SomeFresh(broker.Contents(), tokens)
      requires forall t :: t in tokens ==> t !in world.machine.issued
      modifies this, broker`records, broker.records, broker.clock
      ensures Valid() && closed == old(closed) && RunsTo(broker.cfg, old(world), world)
      ensures old(closed) || !admitted ==> result == Refused(Unavailable) && world == old(world)
      ensures !old(closed) && admitted ==>
                && |readings| == |old(broker.Contents())|
                && Monotone(old(broker.clock.last), readings + [now], broker.clock.last)
                && (result.Accepted? <==>
                      created && requestedTtl > 0 && BrokerAnswers.HasPlace(broker.cfg, old(broker.Contents()), readings))
                && (result.Accepted? ==>
                      result.view.expiresAt
                      == now + if requestedTtl <= broker.cfg.maximumTtl then requestedTtl else broker.cfg.maximumTtl)
                && (requestedTtl <= 0 ==> result == Refused(BadValue))
      ensures !old(closed) && admitted ==>
                var a := Action.Submit(requestedTtl, readings, now, tokens);
                && old(world).machine.table == old(broker.Contents())
                && SubmitsNext(broker.cfg, old(world), a) && SubmittedAs(broker.cfg, old(world), a, created, at, result, world)
      ensures result.Refused? ==> tasks == old(tasks)
      ensures AllLive(broker.Contents(), tasks)
      ensures result.Accepted? ==> TaskAdded(old(world), world, old(tasks), tasks, result.view)
    {
      hide *;
      if closed || !admitted {
        readings, now, at := [], broker.clock.last, broker.clock.last;
        RunsNowhere(broker.cfg, world);
        AllAreLive();
        return Refused(Unavailable), readings, now, at;
      }
      result, readings, now, at := SubmitAdmitted(requestedTtl, tokens, created);
    }

    lemma AllAreLive()
      requires Valid()
      ensures AllLive(broker.Contents(), tasks)
    {
      PendingAreLive(broker.cfg, world, broker.Contents(), broker.clock.last, closed, tasks);
    }

    /** The submission of an admitted query to an open executor. */
    method SubmitAdmitted(requestedTtl: int, tokens: seq<RequestId>, created: bool)
      returns (result: Submitted, ghost readings: seq<int>, ghost now: int, ghost at: int)
      requires Valid() && !closed && SomeFresh(broker.Contents(), tokens)
      requires forall t :: t in tokens ==> t !in world.machine.issued
      modifies this`world, this`tasks, broker`records, broker.records, broker.clock
      ensures Valid() && RunsTo(broker.cfg, old(world), world) && AllLive(broker.Contents(), tasks)
      ensures |readings| == |old(broker.Contents())|
      ensures Monotone(old(broker.clock.last), readings + [now], broker.clock.last)
      ensures result.Accepted? <==>
                created && requestedTtl > 0 && BrokerAnswers.HasPlace(broker.cfg, old(broker.Contents()), readings)
      ensures result.Accepted? ==>
                result.view.expiresAt == now + if requestedTtl <= broker.cfg.maximumTtl then requestedTtl else broker.cfg.maximumTtl
      ensures requestedTtl <= 0 ==> result == Refused(BadValue)
      ensures var a := Action.Submit(requestedTtl, readings, now, tokens);
              && old(world).machine.table == old(broker.Contents())
              && SubmitsNext(broker.cfg, old(world), a) && SubmittedAs(broker.cfg, old(world), a, created, at, result, world)
      ensures result.Refused? ==> tasks == old(tasks)
      ensures result.Accepted? ==> TaskAdded(old(world), world, old(tasks), tasks, result.view)
    {
      ghost var cfg, w, table, from, live := broker.cfg, world, broker.Contents(), broker.clock.last, tasks;
      assert ValidConfig(cfg);
      assert |table| == |broker.records| && table == w.machine.table;
      hide *;
      var answer, cancels;
      answer, cancels, readings, now := broker.Submit(requestedTtl, tokens);
      assert !closed && tasks == live && world == w;
      ghost var a, to := Action.Submit(requestedTtl, readings, now, tokens), broker.clock.last;
      ghost var effect := Effect(broker.Contents(), answer, cancels);
      MakesSubmission(cfg, w, a, from, to, effect);
      SubmissionAnswered(cfg, table, requestedTtl, readings, now, tokens);
      LastReading(from, readings, now, to);
      result, at := Conclude(answer, created, a, table, from, effect);
      Widened(from, readings + [now], to, broker.clock.last);
    }

    /** What follows the broker's own submission: nothing if it refused, else the new task, if one can be
        made. */
    method Conclude(answer: Answer, created: bool, ghost a: Action, ghost table: Table, ghost from: int, ghost effect: Effect)
      returns (result: Submitted, ghost at: int)
      requires broker.Valid() && !closed && effect.table == broker.Contents() && effect.answer == answer
      requires Between(broker.cfg, world, table, from, false, tasks)
      requires Submission(broker.cfg, world, a, from, broker.clock.last, effect)
      modifies this`world, this`tasks, broker.records, broker.clock
      ensures Valid() && RunsTo(broker.cfg, old(world), world) && AllLive(broker.Contents(), tasks)
      ensures old(broker.clock.last) <= broker.clock.last
      ensures SubmitsNext(broker.cfg, old(world), a) && |a.readings| == |old(world).machine.table|
      ensures SomeFresh(old(world).machine.table, a.tokens)
      ensures SubmittedAs(broker.cfg, old(world), a, created, at, result, world)
      ensures result.Refused? ==> tasks == old(tasks)
      ensures result ==
              if !answer.OneView? then Refused(answer) else if created then Accepted(answer.view) else Refused(Unavailable)
      ensures result.Accepted? ==> TaskAdded(old(world), world, old(tasks), tasks, result.view)
    {
      assert ValidConfig(broker.cfg);
      assert |a.readings| == |world.machine.table| && SomeFresh(world.machine.table, a.tokens);
      assert answer == Apply(broker.cfg, world.machine.table, Call.Submit(a.ttl, a.readings, a.now, a.tokens)).answer;
      at := broker.clock.last;
      hide RunsTo;
      hide Apply;
      hide SomeFresh;
      hide Between;
      hide Submission;
      hide SubmitsNext;
      hide NextPaid;
      hide Enabled;
      hide InProcessBroker.Valid;
      hide InProcessBroker.Contents;
      if !answer.OneView? {
        ghost var n := SubmissionRefused(broker.cfg, world, a, table, from, broker.clock.last, tasks, effect);
        Adopt(n);
        result := Refused(answer);
      } else if !created {
        at := FailUnscheduled(answer.view, a, table, from, effect);
        result := Refused(Unavailable);
      } else {
        CreateTask(answer.view, a, table, from, effect);
        result := Accepted(answer.view);
      }
      PendingAreLive(broker.cfg, world, broker.Contents(), broker.clock.last, closed, tasks);
    }

    /** No task could be made for a new request: its record is no longer pending, and no run is live for
        it. */
    method FailUnscheduled(view: View, ghost a: Action, ghost table: Table, ghost from: int, ghost effect: Effect)
      returns (ghost at: int)
      requires broker.Valid() && !closed && effect.table == broker.Contents() && effect.answer == OneView(view)
      requires Between(broker.cfg, world, table, from, false, tasks)
      requires Submission(broker.cfg, world, a, from, broker.clock.last, effect)
      modifies this`world, broker.records, broker.clock
      ensures Valid() && RunsTo(broker.cfg, old(world), world)
      ensures old(broker.clock.last) <= at <= broker.clock.last
      ensures broker.Contents() == Apply(broker.cfg, old(broker.Contents()), Call.Fail(view.id, at)).table
      ensures SubmitsNext(broker.cfg, old(world), a) && Enabled(broker.cfg, NextPaid(broker.cfg, old(world), a), AbandonTask(at))
      ensures Defined(NextPaid(broker.cfg, old(world), a), AbandonTask(at))
      ensures world == NextPaid(broker.cfg, NextPaid(broker.cfg, old(world), a), AbandonTask(at))
      ensures !PendingRecord(Lookup(broker.Contents(), view.id)) && view.id !in tasks && view.id !in old(world).tasks
      ensures world.tasks == old(world).tasks[view.id := Task(RunPhase.Ended, Unstarted, [])]
    {
      assert ValidConfig(broker.cfg);
      hide RunsTo;
      hide Apply;
      hide Between;
      hide Submission;
      hide SubmitsNext;
      hide NextPaid;
      hide Enabled;
      hide InProcessBroker.Valid;
      hide InProcessBroker.Contents;
      hide PendingRecord;
      ghost var cfg, w, live, to := broker.cfg, world, tasks, broker.clock.last;
      var failed, more;
      failed, more, at := broker.Fail(view.id);
      assert !closed && tasks == live && world == w;
      ghost var after := Effect(broker.Contents(), failed, more);
      ghost var n := SubmissionAbandoned(cfg, w, a, table, from, to, live, effect, at, broker.clock.last, after);
      PendingAreLive(cfg, n, broker.Contents(), broker.clock.last, false, live);
      Adopt(n);
    }

    method CreateTask(view: View, ghost a: Action, ghost table: Table, ghost from: int, ghost effect: Effect)
      requires broker.Valid() && !closed && effect.table == broker.Contents() && effect.answer == OneView(view)
      requires Between(broker.cfg, world, table, from, false, tasks)
      requires Submission(broker.cfg, world, a, from, broker.clock.last, effect)
      modifies this`world, this`tasks
      ensures Valid() && RunsTo(broker.cfg, old(world), world)
      ensures SubmitsNext(broker.cfg, old(world), a)
      ensures var v := NextPaid(broker.cfg, old(world), a);
              && Enabled(broker.cfg, v, Action.CreateTask) && Defined(v, Action.CreateTask)
              && world == NextPaid(broker.cfg, v, Action.CreateTask)
      ensures TaskAdded(old(world), world, old(tasks), tasks, view)
    {
      assert ValidConfig(broker.cfg);
      hide *;
      ghost var w, live := world, tasks;
      ghost var n := SubmissionAccepted(broker.cfg, w, a, table, from, broker.clock.last, live, effect);
      Enlist(view.id, n);
      OneTaskAdded(w, n, live, tasks, view);
    }

    /** The first stretch of close: no more submissions, and every pending request cancelled. What is
        then awaited are the tasks still alive. */
    method BeginClose() returns (awaited: set<RequestId>)
      requires Valid()
      modifies this`world, this`closed, broker.records, broker.clock
      ensures Valid() && closed && RunsTo(broker.cfg, old(world), world)
      ensures awaited == tasks && world.tasks == old(world).tasks
      ensures world.waiting == old(world).waiting + [awaited]
      ensures NonePending(broker.Contents())
    {
      hide RunsTo;
      hide Between;
      hide ClosingLoop;
      hide NonePending;
      hide InProcessBroker.Valid;
      hide InProcessBroker.Contents;
      ghost var table, from, was := broker.Contents(), broker.clock.last, closed;
      closed := true;
      assert broker.Contents() == table;
      var views, v := ListAll(was);
      v := CancelPending(views, world, v);
      AwaitTasks(v, table, from, was);
      awaited := tasks;
    }

    method ListAll(ghost was: bool) returns (views: seq<View>, ghost v: World)
      requires broker.Valid() && Between(broker.cfg, world, broker.Contents(), broker.clock.last, was, tasks)
      modifies broker.records, broker.clock
      ensures broker.Valid() && broker.records == old(broker.records)
      ensures ClosingLoop(broker.cfg, world, v, broker.Contents(), broker.clock.last, views)
    {
      ghost var cfg, w, table, from, live := broker.cfg, world, broker.Contents(), broker.clock.last, tasks;
      assert ValidConfig(cfg) && |table| == |broker.records|;
      hide RunsTo;
      hide Apply;
      hide Between;
      hide Monotone;
      hide ClosingLoop;
      hide InProcessBroker.Valid;
      hide InProcessBroker.Contents;
      var answer, cancels, readings := broker.ListRequests();
      assert world == w;
      v := ListStep(cfg, w, table, from, broker.clock.last, was, live, readings, Effect(broker.Contents(), answer, cancels));
      views := answer.views;
    }

    ghost method AwaitTasks(v: World, table: Table, from: int, was: bool)
      requires broker.Valid() && closed && Between(broker.cfg, world, table, from, was, tasks)
      requires ClosingLoop(broker.cfg, world, v, broker.Contents(), broker.clock.last, [])
      modifies this`world
      ensures Valid() && RunsTo(broker.cfg, old(world), world) && NonePending(broker.Contents())
      ensures world.tasks == old(world).tasks && world.waiting == old(world).waiting + [tasks]
    {
      hide RunsTo;
      hide Between;
      hide ClosingLoop;
      hide InProcessBroker.Valid;
      hide InProcessBroker.Contents;
      var n := AwaitStep(broker.cfg, world, v, table, from, was, tasks, broker.Contents(), broker.clock.last, []);
      assert NonePending(broker.Contents());
      hide NonePending;
      Adopt(n);
    }

    /** The cancel loop of close. */
    method CancelPending(views: seq<View>, ghost w: World, ghost begun: World) returns (ghost v: World)
      requires broker.Valid() && ClosingLoop(broker.cfg, w, begun, broker.Contents(), broker.clock.last, views)
      modifies broker.records, broker.clock
      ensures broker.Valid() && broker.records == old(broker.records)
      ensures ClosingLoop(broker.cfg, w, v, broker.Contents(), broker.clock.last, [])
    {
      hide Apply;
      hide ClosingLoop;
      hide InProcessBroker.Valid;
      hide InProcessBroker.Contents;
      v := begun;
      var i := 0;
      assert views[0..] == views;
      while i < |views|
        invariant 0 <= i <= |views|
        invariant broker.Valid() && broker.records == old(broker.records)
        invariant ClosingLoop(broker.cfg, w, v, broker.Contents(), broker.clock.last, views[i..])
      {
        ghost var here, now := broker.Contents(), broker.clock.last;
        if views[i].status == Pending {
          var reply, more, at := broker.Cancel(views[i].id);
          v := CancelStep(broker.cfg, w, v, here, now, broker.clock.last, views, i, at, Effect(broker.Contents(), reply, more));
        } else {
          SkipStep(broker.cfg, w, v, here, now, views, i);
        }
        i := i + 1;
      }
      assert views[i..] == [];
    }

    /** The end of a close whose awaited tasks have all ended: the runtime is quiescent for good. */
    method FinishClose(k: nat)
      requires Valid() && k < |world.waiting| && world.waiting[k] !! tasks
      modifies this`world
      ensures Valid() && closed && RunsTo(broker.cfg, old(world), world) && world.returned
      ensures tasks == {}
      ensures NonePending(broker.Contents()) && NoneAttached(broker.Contents())
    {
      ghost var n := FinishStep(broker.cfg, world, broker.Contents(), broker.clock.last, closed, tasks, k);
      assert ValidConfig(broker.cfg);
      hide RunsTo;
      hide Between;
      hide InProcessBroker.Valid;
      QuiescentObject(broker.cfg, n, broker.Contents(), broker.clock.last, closed, tasks);
      hide NonePending;
      hide NoneAttached;
      Adopt(n);
    }

    /** Called by the worker thread when it starts, with its new cursor if it has one. If the request has
        ended meanwhile the cursor is cancelled and the thread gets an error; without a cursor there is
        nothing to register. */
    method MarkStarted(id: RequestId, cursor: Option<CursorId>) returns (started: bool, ghost at: int)
      requires Coupled() && id in world.tasks && Idle(world, Thread(id))
      requires cursor.Some? ==> world.tasks[id].phase == Registering(cursor.value)
      modifies this`world, broker.records, broker.clock
      ensures Coupled() && RunsTo(broker.cfg, old(world), world)
      ensures cursor.Some? ==>
                && old(broker.clock.last) <= at <= broker.clock.last
                && var effect := Apply(broker.cfg, old(broker.Contents()), Call.Register(id, cursor.value, at));
                   broker.Contents() == effect.table && (started <==> effect.answer.OneView?)
      ensures cursor.None? ==> started && world == old(world) && broker.Contents() == old(broker.Contents())
      ensures world.loop == old(world).loop && world.owed == old(world).owed
      ensures cursor.Some? ==>
                world.tasks == old(world).tasks[id := Registered(old(world).tasks[id], cursor.value, started)]
    {
      if cursor.None? {
        RunsNowhere(broker.cfg, world);
        return true, broker.clock.last;
      }
      started, at := Register(id, cursor.value);
    }

    method Register(id: RequestId, cursor: CursorId) returns (attached: bool, ghost at: int)
      requires Coupled() && id in world.tasks && world.tasks[id].phase == Registering(cursor) && Idle(world, Thread(id))
      modifies this`world, broker.records, broker.clock
      ensures Coupled() && RunsTo(broker.cfg, old(world), world)
      ensures old(broker.clock.last) <= at <= broker.clock.last
      ensures var effect := Apply(broker.cfg, old(broker.Contents()), Call.Register(id, cursor, at));
              broker.Contents() == effect.table && (attached <==> effect.answer.OneView?)
      ensures world.loop == old(world).loop && world.owed == old(world).owed
      ensures var t := old(world).tasks[id];
              world.tasks == old(world).tasks[id := Registered(t, cursor, attached)]
    {
      ghost var cfg, w, table, from, flag := broker.cfg, world, broker.Contents(), broker.clock.last, closed;
      hide RunsTo;
      hide Apply;
      hide Shared;
      hide Idle;
      hide InProcessBroker.Valid;
      hide InProcessBroker.Contents;
      var answer, cancels;
      answer, cancels, at := broker.RegisterCursor(id, cursor);
      assert closed == flag && world == w;
      ghost var effect := Effect(broker.Contents(), answer, cancels);
      ghost var n := RegisterStep(cfg, w, table, from, broker.clock.last, flag, id, cursor, at, effect);
      AdoptShared(n);
      attached := answer.OneView?;
    }

    /** Called by the worker thread once it is done, with the cursor it started with; whatever became of the
        request. */
    method Release(id: RequestId, cursor: Option<CursorId>) returns (ghost at: int)
      requires Coupled() && id in world.tasks && Idle(world, Thread(id))
      requires cursor.Some? ==> world.tasks[id].phase.Releasing? && world.tasks[id].phase.cursor == cursor.value
      modifies this`world, broker.records, broker.clock
      ensures Coupled() && RunsTo(broker.cfg, old(world), world)
      ensures cursor.Some? ==>
                && old(broker.clock.last) <= at <= broker.clock.last
                && broker.Contents() == Apply(broker.cfg, old(broker.Contents()), Call.Release(id, cursor.value, at)).table
      ensures cursor.None? ==> world == old(world) && broker.Contents() == old(broker.Contents())
      ensures world.loop == old(world).loop && world.owed == old(world).owed
      ensures cursor.Some? ==> world.tasks == old(world).tasks[id := Released(old(world).tasks[id], cursor.value)]
    {
      if cursor.None? {
        RunsNowhere(broker.cfg, world);
        return broker.clock.last;
      }
      at := ReleaseCursor(id, cursor.value);
    }

    method ReleaseCursor(id: RequestId, cursor: CursorId) returns (ghost at: int)
      requires Coupled() && id in world.tasks && Idle(world, Thread(id))
      requires world.tasks[id].phase.Releasing? && world.tasks[id].phase.cursor == cursor
      modifies this`world, broker.records, broker.clock
      ensures Coupled() && RunsTo(broker.cfg, old(world), world)
      ensures old(broker.clock.last) <= at <= broker.clock.last
      ensures var effect := Apply(broker.cfg, old(broker.Contents()), Call.Release(id, cursor, at));
              broker.Contents() == effect.table
      ensures world.loop == old(world).loop && world.owed == old(world).owed
      ensures var t := old(world).tasks[id];
              world.tasks == old(world).tasks[id := Released(t, cursor)]
    {
      ghost var cfg, w, table, from, flag := broker.cfg, world, broker.Contents(), broker.clock.last, closed;
      hide RunsTo;
      hide Apply;
      hide Shared;
      hide Idle;
      hide InProcessBroker.Valid;
      hide InProcessBroker.Contents;
      var answer, cancels;
      answer, cancels, at := broker.ReleaseCursor(id, cursor);
      assert closed == flag && world == w;
      ghost var effect := Effect(broker.Contents(), answer, cancels);
      ghost var n := ReleaseStep(cfg, w, table, from, broker.clock.last, flag, id, cursor, at, effect);
      AdoptShared(n);
    }

    /** The first stretch of a run: it goes to wait for its work or its timer. */
    method Start(id: RequestId)
      requires Valid() && id in world.tasks && world.tasks[id].run.Scheduled?
      modifies this`world
      ensures Valid() && RunsTo(broker.cfg, old(world), world)
      ensures broker.Contents() == old(broker.Contents())
      ensures world.tasks == old(world).tasks[id := old(world).tasks[id].(run := Waiting)]
    {
      hide RunsTo;
      hide Between;
      hide InProcessBroker.Valid;
      hide InProcessBroker.Contents;
      ghost var n := StartStep(broker.cfg, world, broker.Contents(), broker.clock.last, closed, tasks, id);
      Adopt(n);
    }

    /** The expiry timer fired while the work was still running. */
    method PollExpiry(id: RequestId) returns (ghost at: int)
      requires Valid() && id in world.tasks && world.tasks[id].run.Waiting? && !world.tasks[id].phase.Finished?
      modifies this`world, broker.records, broker.clock
      ensures Valid() && RunsTo(broker.cfg, old(world), world)
      ensures old(broker.clock.last) <= at <= broker.clock.last
      ensures var effect := Apply(broker.cfg, old(broker.Contents()), Call.Get(id, at));
              broker.Contents() == effect.table
      ensures world.tasks == old(world).tasks[id := old(world).tasks[id].(run := Awaiting)]
    {
      ghost var cfg, w, table, from, flag := broker.cfg, world, broker.Contents(), broker.clock.last, closed;
      ghost var live := tasks;
      hide RunsTo;
      hide Apply;
      hide Between;
      hide InProcessBroker.Valid;
      hide InProcessBroker.Contents;
      var answer, cancels;
      answer, cancels, at := broker.GetRequest(id);
      assert closed == flag && world == w && tasks == live;
      ghost var effect := Effect(broker.Contents(), answer, cancels);
      ghost var n := PollStep(cfg, w, table, from, broker.clock.last, flag, live, id, at, effect);
      Adopt(n);
    }

    /** The stretch after the work has ended, up to the wait for the cancelled timer: a returned source is
        kept for publication, an exception is recorded at once. */
    method WorkEnded(id: RequestId, outcome: Outcome) returns (ghost at: int)
      requires Valid() && id in world.tasks && world.tasks[id].phase == Finished(outcome)
      requires world.tasks[id].run.Waiting? || world.tasks[id].run.Awaiting?
      modifies this`world, this`tasks, broker.records, broker.clock
      ensures Valid() && RunsTo(broker.cfg, old(world), world)
      ensures old(broker.clock.last) <= at <= broker.clock.last
      ensures broker.Contents() ==
              if outcome.Returned? then old(broker.Contents())
              else Apply(broker.cfg, old(broker.Contents()), Call.Fail(id, at)).table
      ensures tasks == if outcome.Returned? then old(tasks) else old(tasks) - {id}
      ensures var run := if outcome.Returned? then Settling(outcome.source) else RunPhase.Ended;
              world.tasks == old(world).tasks[id := old(world).tasks[id].(run := run)]
    {
      ghost var cfg, w := broker.cfg, world;
      hide RunsTo;
      hide Apply;
      hide Between;
      hide InProcessBroker.Valid;
      hide InProcessBroker.Contents;
      at := broker.clock.last;
      Collect(id, outcome);
      if outcome.Raised? {
        ghost var v := world;
        Overwrite(w.tasks, id, Collected(w.tasks[id], outcome), w.tasks[id].(run := RunPhase.Ended));
        at := RecordFailure(id);
        RunsThrough(cfg, w, v, world);
      }
    }

    /** The last stretch, after that wait: the source is published, or the failure recorded when the broker
        refuses it. */
    method Settle(id: RequestId, source: SourceId) returns (published: bool, ghost at: int, ghost last: int)
      requires Valid() && id in world.tasks && world.tasks[id].run == Settling(source)
      modifies this`world, this`tasks, broker.records, broker.clock
      ensures Valid() && RunsTo(broker.cfg, old(world), world) && tasks == old(tasks) - {id}
      ensures world.tasks == old(world).tasks[id := old(world).tasks[id].(run := RunPhase.Ended)]
      ensures old(broker.clock.last) <= at <= last <= broker.clock.last
      ensures var effect := Apply(broker.cfg, old(broker.Contents()), Call.Publish(id, source, at));
              && (published <==> effect.answer.OneView?)
              && broker.Contents() == if published then effect.table else Apply(broker.cfg, effect.table, Call.Fail(id, last)).table
      ensures published ==> Holds(broker.Contents(), id, source)
    {
      hide RunsTo;
      hide Apply;
      hide Between;
      hide Holds;
      hide InProcessBroker.Valid;
      hide InProcessBroker.Contents;
      ghost var cfg, w := broker.cfg, world;
      published, at := PublishResult(id, source);
      last := at;
      if !published {
        ghost var v := world;
        last := RecordFailure(id);
        RunsThrough(cfg, w, v, world);
      }
    }

    method Collect(id: RequestId, outcome: Outcome)
      requires Valid() && id in world.tasks && world.tasks[id].phase == Finished(outcome)
      requires world.tasks[id].run.Waiting? || world.tasks[id].run.Awaiting?
      modifies this`world
      ensures Valid() && RunsTo(broker.cfg, old(world), world)
      ensures broker.Contents() == old(broker.Contents()) && broker.clock.last == old(broker.clock.last)
      ensures world.tasks == old(world).tasks[id := Collected(old(world).tasks[id], outcome)]
    {
      hide RunsTo;
      hide Between;
      hide InProcessBroker.Valid;
      hide InProcessBroker.Contents;
      ghost var n := CollectStep(broker.cfg, world, broker.Contents(), broker.clock.last, closed, tasks, id);
      Adopt(n);
    }

    method PublishResult(id: RequestId, source: SourceId) returns (published: bool, ghost at: int)
      requires Valid() && id in world.tasks && world.tasks[id].run == Settling(source)
      modifies this`world, this`tasks, broker.records, broker.clock
      ensures Valid() && RunsTo(broker.cfg, old(world), world)
      ensures old(broker.clock.last) <= at <= broker.clock.last
      ensures var effect := Apply(broker.cfg, old(broker.Contents()), Call.Publish(id, source, at));
              broker.Contents() == effect.table && (published <==> effect.answer.OneView?)
      ensures tasks == if published then old(tasks) - {id} else old(tasks)
      ensures published ==> Holds(broker.Contents(), id, source)
      ensures world.tasks == old(world).tasks[id := old(world).tasks[id].(run := if published then RunPhase.Ended else Failing)]
    {
      ghost var cfg, w, table, from, flag := broker.cfg, world, broker.Contents(), broker.clock.last, closed;
      ghost var live := tasks;
      hide RunsTo;
      hide Apply;
      hide Between;
      hide InProcessBroker.Valid;
      hide InProcessBroker.Contents;
      var answer, cancels;
      answer, cancels, at := broker.Publish(id, source);
      assert closed == flag && world == w && tasks == live;
      ghost var effect := Effect(broker.Contents(), answer, cancels);
      ghost var n := PublishStep(cfg, w, table, from, broker.clock.last, flag, live, id, source, at, effect);
      published := answer.OneView?;
      hide Holds;
      if published {
        Retire(id, n);
      } else {
        Adopt(n);
      }
    }

    method RecordFailure(id: RequestId) returns (ghost at: int)
      requires Valid() && id in world.tasks && world.tasks[id].run.Failing?
      modifies this`world, this`tasks, broker.records, broker.clock
      ensures Valid() && RunsTo(broker.cfg, old(world), world) && tasks == old(tasks) - {id}
      ensures old(broker.clock.last) <= at <= broker.clock.last
      ensures var effect := Apply(broker.cfg, old(broker.Contents()), Call.Fail(id, at));
              broker.Contents() == effect.table
      ensures world.tasks == old(world).tasks[id := old(world).tasks[id].(run := RunPhase.Ended)]
    {
      ghost var cfg, w, table, from, flag := broker.cfg, world, broker.Contents(), broker.clock.last, closed;
      ghost var live := tasks;
      hide RunsTo;
      hide Apply;
      hide Between;
      hide InProcessBroker.Valid;
      hide InProcessBroker.Contents;
      var answer, cancels;
      answer, cancels, at := broker.Fail(id);
      assert closed == flag && world == w && tasks == live;
      ghost var effect := Effect(broker.Contents(), answer, cancels);
      ghost var n := FailStep(cfg, w, table, from, broker.clock.last, flag, live, id, at, effect);
      assert Between(broker.cfg, n, broker.Contents(), broker.clock.last, closed, tasks - {id});
      Retire(id, n);
    }
  }

  lemma MakesSubmission(cfg: Config, w: World, a: Action, from: int, to: int, effect: Effect)
    requires a.Submit? && |a.readings| == |w.machine.table| && SomeFresh(w.machine.table, a.tokens)
    requires Monotone(from, a.readings + [a.now], to)
    requires effect == Apply(cfg, w.machine.table, Call.Submit(a.ttl, a.readings, a.now, a.tokens))
    requires forall t :: t in a.tokens ==> t !in w.machine.issued
    ensures Submission(cfg, w, a, from, to, effect)
  {
    hide SomeFresh;
    hide Monotone;
    hide Apply;
  }

  lemma Widened(from: int, readings: seq<int>, to: int, later: int)
    requires Monotone(from, readings, to) && to <= later
    ensures Monotone(from, readings, later)
  {
  }

  /** What the broker answers to a submission, from the table as it was. */
  lemma SubmissionAnswered(cfg: Config, table: Table, ttl: int, readings: seq<int>, now: int, tokens: seq<RequestId>)
    requires |readings| == |table| && SomeFresh(table, tokens)
    ensures var answer := Apply(cfg, table, Call.Submit(ttl, readings, now, tokens)).answer;
            && (answer.OneView? <==> ttl > 0 && BrokerAnswers.HasPlace(cfg, table, readings))
            && (answer.OneView? ==> answer.view.expiresAt == now + if ttl <= cfg.maximumTtl then ttl else cfg.maximumTtl)
            && (ttl <= 0 ==> answer == BadValue)
  {
    hide Apply;
    hide BrokerAnswers.HasPlace;
    hide BrokerAnswers.FirstUnused;
    BrokerAnswers.AcceptedIff(cfg, table, Call.Submit(ttl, readings, now, tokens));
  }

  /** A returned close, as the broker object shows it. */
  lemma QuiescentObject(cfg: Config, w: World, table: Table, now: int, closed: bool, tasks: set<RequestId>)
    requires ValidConfig(cfg) && Between(cfg, w, table, now, closed, tasks) && w.returned
    ensures closed && tasks == {}
    ensures NonePending(table) && NoneAttached(table)
  {
    QuiescentAfterClose(cfg, w);
    ReachableIsDistinct(cfg, w);
    forall i | 0 <= i < |table| ensures table[i].status != Pending {
      LookupAt(table, i);
      assert !PendingRecord(Lookup(table, table[i].id));
    }
    hide Reachable;
    hide Lookup;
  }
}
