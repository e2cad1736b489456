/** What every reachable state of the interleaved runtime satisfies. */
module RuntimeInvariant {
  import opened Wrappers
  import opened BrokerModel
  import opened BrokerProofs
  import opened BrokerTouch
  import R = BrokerRuns
  import opened Execution
  import opened Runtime

  // ----- the invariant -----

  /** The cursor's cancellation has been queued or issued. */
  ghost predicate Due(w: World, cursor: CursorId) {
    (exists i :: 0 <= i < |w.owed| && w.owed[i].cursor == cursor) || cursor in w.cancelled
  }

  /** The worker thread of `id` itself owes the cursor's cancellation, or it has been issued. */
  ghost predicate OwedBy(w: World, id: RequestId, cursor: CursorId) {
    Debt(Thread(id), cursor) in w.owed || cursor in w.cancelled
  }

  /** A coroutine and its worker thread agree. */
  predicate Paired(t: Task) {
    && (t.run.Scheduling? || t.run.Scheduled? ==> t.phase.Unstarted?)
    && (t.run.Settling? ==> t.phase == Finished(Returned(t.run.source)))
    && (t.run.Failing? ==> t.phase.Finished?)
    && (t.run.Ended? ==> t.phase.Finished? || t.phase.Unstarted?)
  }

  /** A task and its broker record agree. */
  ghost predicate Matches(w: World, id: RequestId, t: Task, record: Option<Record>) {
    && (PendingRecord(record) ==> !t.run.Ended?)
    && (record.Some? && record.value.status.Complete? ==>
          t.run.Ended? && record.value.source.Some? && t.phase == Finished(Returned(record.value.source.value)))
    && (record.Some? && record.value.cursor.Some? ==> Armed(t.phase) == record.value.cursor)
    && (Armed(t.phase).Some? ==> AttachedTo(record, Armed(t.phase).value) || Due(w, Armed(t.phase).value))
    && (t.phase.ClosingCursor? && CursorRefused in t.log ==> OwedBy(w, id, t.phase.cursor))
  }

  ghost predicate TaskOk(w: World, id: RequestId)
    requires id in w.tasks
  {
    var t := w.tasks[id];
    && Paired(t)
    && Accounts(t.log, t.phase)
    && Matches(w, id, t, Lookup(w.machine.table, id))
    && (HoldsLock(t.phase) <==> w.lock == Some(id))
    && (t.run.Scheduling? <==> w.loop == LoopState.Submitting(id))
    && (Owned(t.phase).Some? ==> Owned(t.phase).value in w.cursors)
    && (t.phase.Registering? ==> w.registered[t.phase.cursor] == 0)
  }

  function Cursors(owed: seq<Debt>): (cursors: seq<CursorId>)
    ensures |cursors| == |owed|
  {
    seq(|owed|, i requires 0 <= i < |owed| => owed[i].cursor)
  }

  ghost predicate Conserved(w: World) {
    && Attached(w.machine.table) + multiset(Cursors(w.owed)) + w.cancelled + w.letGo == w.registered
    && (forall c :: c in w.registered ==> w.registered[c] == 1 && c in w.cursors)
  }

  /** A worker thread owes only between a broker operation of its own and closing its cursor. */
  ghost predicate DebtsOk(w: World) {
    forall i :: 0 <= i < |w.owed| && w.owed[i].actor.Thread? ==>
      w.owed[i].actor.id in w.tasks && w.tasks[w.owed[i].actor.id].phase.ClosingCursor?
  }

  ghost predicate ShutdownOk(w: World) {
    && (w.loop.Closing? || w.waiting != [] || w.returned ==> w.closed)
    && (w.loop.Submitting? ==> !w.closed && w.loop.id in w.tasks)
    && (forall i, id :: 0 <= i < |w.waiting| && id in w.tasks && !w.tasks[id].run.Ended? ==> id in w.waiting[i])
    && (w.returned ==> forall id :: id in w.tasks ==> w.tasks[id].run.Ended?)
  }

  ghost predicate Inv(cfg: Config, w: World) {
    && R.WellKept(cfg, w.machine)
    && (forall id :: id in w.tasks <==> id in w.machine.issued)
    && (w.lock.Some? ==> w.lock.value in w.tasks)
    && (forall id :: id in w.tasks ==> TaskOk(w, id))
    && Conserved(w)
    && DebtsOk(w)
    && ShutdownOk(w)
  }

  // ----- the broker half of a step -----

  /** The call an enabled action makes, as a valid step of the broker run. */
  lemma CallKeeps(cfg: Config, w: World, actor: Actor, call: Call)
    requires ValidConfig(cfg) && Inv(cfg, w) && R.Enabled(cfg, w.machine, call)
    ensures R.WellKept(cfg, AfterCall(cfg, w, actor, call).machine)
  {
    hide Apply;
    R.StepKeeps(cfg, w.machine, call);
  }

  lemma CursorsAppend(owed: seq<Debt>, actor: Actor, cancels: seq<CursorId>)
    ensures Cursors(owed + Debts(actor, cancels)) == Cursors(owed) + cancels
  {
  }

  lemma CursorsRemove(owed: seq<Debt>, i: nat)
    requires i < |owed|
    ensures multiset(Cursors(owed[..i] + owed[i + 1..])) + multiset{owed[i].cursor} == multiset(Cursors(owed))
  {
    var cs := Cursors(owed);
    assert cs == cs[..i] + [cs[i]] + cs[i + 1..];
    assert Cursors(owed[..i] + owed[i + 1..]) == cs[..i] + cs[i + 1..];
  }

  /** The broker operation moves cursors around but loses none. */
  lemma CallConserves(cfg: Config, w: World, actor: Actor, call: Call)
    requires Inv(cfg, w) && R.Enabled(cfg, w.machine, call)
    ensures var b := AfterCall(cfg, w, actor, call);
            Attached(b.machine.table) + multiset(Cursors(b.owed)) + b.cancelled + b.letGo == b.registered
  {
    hide Attached;
    hide Apply;
    hide LetGo;
    var effect := Apply(cfg, w.machine.table, call);
    CursorsConserved(cfg, w.machine.table, call);
    CursorsAppend(w.owed, actor, effect.cancels);
    Shuffle(Attached(w.machine.table), multiset(Cursors(w.owed)), w.cancelled, w.letGo, Arriving(call),
            Attached(effect.table), multiset(effect.cancels), LetGo(w.machine.table, call));
  }

  lemma Shuffle<T>(a: multiset<T>, owed: multiset<T>, done: multiset<T>, gone: multiset<T>, arriving: multiset<T>,
                   a': multiset<T>, due: multiset<T>, let: multiset<T>)
    requires a + arriving == a' + due + let
    ensures a' + (owed + due) + done + (gone + let) == a + owed + done + gone + arriving
  {
    assert a' + (owed + due) + done + (gone + let) == (a' + due + let) + owed + done + gone;
  }

  lemma DueGrows(w: World, actor: Actor, cancels: seq<CursorId>, cursor: CursorId, v: World)
    requires v.owed == w.owed + Debts(actor, cancels) && v.cancelled == w.cancelled
    ensures Due(w, cursor) || cursor in cancels ==> Due(v, cursor)
  {
    if exists i :: 0 <= i < |w.owed| && w.owed[i].cursor == cursor {
      var i :| 0 <= i < |w.owed| && w.owed[i].cursor == cursor;
      assert v.owed[i].cursor == cursor;
    } else if cursor in cancels {
      var i :| 0 <= i < |cancels| && cancels[i] == cursor;
      assert v.owed[|w.owed| + i].cursor == cursor;
    }
  }

  lemma OwedByGrows(w: World, actor: Actor, cancels: seq<CursorId>, id: RequestId, cursor: CursorId, v: World)
    requires v.owed == w.owed + Debts(actor, cancels) && v.cancelled == w.cancelled
    ensures OwedBy(w, id, cursor) || (actor == Thread(id) && cursor in cancels) ==> OwedBy(v, id, cursor)
  {
    if actor == Thread(id) && cursor in cancels {
      var i :| 0 <= i < |cancels| && cancels[i] == cursor;
      assert v.owed[|w.owed| + i] == Debt(Thread(id), cursor);
    }
  }

  lemma DueDelivered(w: World, i: nat, v: World, cursor: CursorId)
    requires i < |w.owed| && v.owed == w.owed[..i] + w.owed[i + 1..]
    requires v.cancelled == w.cancelled + multiset{w.owed[i].cursor}
    ensures Due(w, cursor) ==> Due(v, cursor)
  {
    if exists j :: 0 <= j < |w.owed| && w.owed[j].cursor == cursor {
      var j :| 0 <= j < |w.owed| && w.owed[j].cursor == cursor;
      if j != i {
        assert v.owed[if j < i then j else j - 1].cursor == cursor;
      }
    }
  }

  // ----- one task through one step -----

  /** Broker operations that do not advance the task of `id`. */
  predicate Harmless(call: Call, id: RequestId) {
    !((call.Register? || call.Release? || call.Publish?) && call.id == id)
  }

  /** A broker operation on behalf of anyone else leaves a task and its record in agreement: an
      attached cursor stays attached or becomes due. */
  lemma TouchMatches(w: World, v: World, t: Task, id: RequestId, actor: Actor, call: Call, answer: Answer, cancels: seq<CursorId>,
                     before: Option<Record>, after: Option<Record>)
    requires Matches(w, id, t, before) && Touched(id, before, after, call, answer, cancels) && Harmless(call, id)
    requires before.Some? ==> Shaped(before.value)
    requires v.owed == w.owed + Debts(actor, cancels) && v.cancelled == w.cancelled
    ensures Matches(v, id, t, after)
  {
    if Armed(t.phase).Some? {
      DueGrows(w, actor, cancels, Armed(t.phase).value, v);
    }
    if t.phase.ClosingCursor? {
      OwedByGrows(w, actor, cancels, id, t.phase.cursor, v);
    }
    hide OwedBy;
    hide Due;
  }

  lemma HalfTouches(cfg: Config, w: World, a: Action, id: RequestId)
    requires ValidConfig(cfg) && Inv(cfg, w) && Enabled(cfg, w, a) && id in w.tasks
    requires BrokerCall(w, a).Some?
    ensures var call := BrokerCall(w, a).value;
            var effect := Apply(cfg, w.machine.table, call);
            var v := Half(cfg, w, a);
            && Touched(id, Lookup(w.machine.table, id), Lookup(v.machine.table, id), call, effect.answer, effect.cancels)
            && v.machine.table == effect.table && v.owed == w.owed + Debts(ActorOf(a), effect.cancels)
            && v.cancelled == w.cancelled
            && (Lookup(w.machine.table, id).Some? ==> Shaped(Lookup(w.machine.table, id).value))
  {
    var call := BrokerCall(w, a).value;
    R.OrderIsDistinct(w.machine.table, w.machine.issued);
    assert id in w.machine.issued;
    assert Issued(cfg, w.machine.table, call) != Some(id);
    LookupIff(w.machine.table, id);
    hide Apply;
    ApplyTouches(cfg, w.machine.table, call, id);
  }

  lemma HalfMatches(cfg: Config, w: World, a: Action, id: RequestId)
    requires ValidConfig(cfg) && Inv(cfg, w) && Enabled(cfg, w, a) && id in w.tasks
    requires BrokerCall(w, a).Some? ==> Harmless(BrokerCall(w, a).value, id)
    ensures Matches(Half(cfg, w, a), id, w.tasks[id], Lookup(Half(cfg, w, a).machine.table, id))
  {
    assert TaskOk(w, id);
    if BrokerCall(w, a).Some? {
      var call := BrokerCall(w, a).value;
      var v := Half(cfg, w, a);
      HalfTouches(cfg, w, a, id);
      hide Inv;
      hide Enabled;
      hide Apply;
      hide Touched;
      hide Lookup;
      var effect := Apply(cfg, w.machine.table, call);
      TouchMatches(w, v, w.tasks[id], id, ActorOf(a), call, effect.answer, effect.cancels,
                   Lookup(w.machine.table, id), Lookup(v.machine.table, id));
    }
  }

  lemma CreatedIsNew(cfg: Config, w: World, a: Action)
    requires Inv(cfg, w) && Enabled(cfg, w, a) && Created(cfg, w, a).Some?
    ensures Created(cfg, w, a).value !in w.tasks && Created(cfg, w, a).value !in w.machine.issued
  {
    hide Apply;
  }

  lemma DueCarries(cfg: Config, w: World, a: Action, cursor: CursorId)
    requires Enabled(cfg, w, a)
    ensures Due(Half(cfg, w, a), cursor) ==> Due(Next(cfg, w, a), cursor)
  {
    if a.Deliver? {
      DueDelivered(w, a.i, Next(cfg, w, a), cursor);
    }
    hide AfterCall;
  }

  lemma OwedByCarries(cfg: Config, w: World, a: Action, id: RequestId, cursor: CursorId)
    requires Enabled(cfg, w, a)
    ensures OwedBy(Half(cfg, w, a), id, cursor) ==> OwedBy(Next(cfg, w, a), id, cursor)
  {
    EnabledIsDefined(cfg, w, a);
    NextBags(cfg, w, a);
    hide Enabled;
    hide Next;
    hide Half;
    if a.Deliver? {
      DebtSurvives(w.owed, a.i, Debt(Thread(id), cursor));
    }
  }

  lemma DebtSurvives(owed: seq<Debt>, i: nat, debt: Debt)
    requires i < |owed|
    ensures debt in owed ==> debt in owed[..i] + owed[i + 1..] || debt == owed[i]
  {
  }

  lemma MatchesCarries(cfg: Config, w: World, a: Action, id: RequestId, t: Task, record: Option<Record>)
    requires Enabled(cfg, w, a) && Matches(Half(cfg, w, a), id, t, record)
    ensures Matches(Next(cfg, w, a), id, t, record)
  {
    if Armed(t.phase).Some? { DueCarries(cfg, w, a, Armed(t.phase).value); }
    if t.phase.ClosingCursor? { DueCarries(cfg, w, a, t.phase.cursor); OwedByCarries(cfg, w, a, id, t.phase.cursor); }
    hide Enabled;
    hide Half;
    hide Due;
    hide OwedBy;
    hide Next;
  }

  // ----- a task that is not the subject of the step -----

  lemma OtherTaskStays(cfg: Config, w: World, a: Action, id: RequestId)
    requires Inv(cfg, w) && Enabled(cfg, w, a) && id in w.tasks && Subject(w, a) != Some(id)
    ensures id in Next(cfg, w, a).tasks && Next(cfg, w, a).tasks[id] == w.tasks[id]
  {
    EnabledIsDefined(cfg, w, a);
    if Created(cfg, w, a).Some? { CreatedIsNew(cfg, w, a); }
    TasksAre(cfg, w, a);
    OtherEntryStays(cfg, w, a, id);
    hide *;
  }

  lemma OtherEntryStays(cfg: Config, w: World, a: Action, id: RequestId)
    requires Defined(w, a) && id in w.tasks && Subject(w, a) != Some(id) && Created(cfg, w, a) != Some(id)
    ensures id in TasksAfter(cfg, w, a) && TasksAfter(cfg, w, a)[id] == w.tasks[id]
  {
    hide Moved;
    hide AnswerOf;
    hide Created;
    hide BrokerCall;
    hide Fits;
    hide Applicable;
  }

  lemma TasksAre(cfg: Config, w: World, a: Action)
    requires Defined(w, a)
    ensures Next(cfg, w, a).tasks == TasksAfter(cfg, w, a)
  {
    hide Half;
    hide TasksAfter;
  }

  /** A call that names a request comes from that request's own task, or from close or outside. */
  lemma HarmlessToOthers(cfg: Config, w: World, a: Action, id: RequestId)
    requires Enabled(cfg, w, a) && id in w.tasks && Subject(w, a) != Some(id) && BrokerCall(w, a).Some?
    ensures Harmless(BrokerCall(w, a).value, id)
  {
  }

  lemma OtherTaskKept(cfg: Config, w: World, a: Action, id: RequestId)
    requires ValidConfig(cfg) && Inv(cfg, w) && Enabled(cfg, w, a) && id in w.tasks && Subject(w, a) != Some(id)
    ensures id in Next(cfg, w, a).tasks && TaskOk(Next(cfg, w, a), id)
  {
    var v, n, t := Half(cfg, w, a), Next(cfg, w, a), w.tasks[id];
    assert TaskOk(w, id);
    if BrokerCall(w, a).Some? { HarmlessToOthers(cfg, w, a, id); }
    HalfMatches(cfg, w, a, id);
    MatchesCarries(cfg, w, a, id, t, Lookup(v.machine.table, id));
    OtherTaskStays(cfg, w, a, id);
    OtherLock(cfg, w, a, id);
    OtherLoop(cfg, w, a, id);
    if t.phase.Registering? {
      OtherRegistering(cfg, w, a, id);
    }
    NextMachine(cfg, w, a);
    hide Inv;
    hide Enabled;
    hide Next;
    hide Half;
    hide Matches;
  }

  lemma NextMachine(cfg: Config, w: World, a: Action)
    requires Defined(w, a)
    ensures Next(cfg, w, a).machine == Half(cfg, w, a).machine
    ensures w.cursors <= Next(cfg, w, a).cursors
  {
    hide Half;
    hide TasksAfter;
  }

  lemma NextShared(cfg: Config, w: World, a: Action)
    requires Defined(w, a)
    ensures Next(cfg, w, a).lock == LockAfter(w, a)
    ensures Next(cfg, w, a).loop == LoopAfter(cfg, w, a)
  {
    hide Half;
    hide TasksAfter;
    hide LockAfter;
    hide LoopAfter;
    hide WaitingAfter;
  }

  lemma OtherLock(cfg: Config, w: World, a: Action, id: RequestId)
    requires Inv(cfg, w) && Enabled(cfg, w, a) && id in w.tasks && Subject(w, a) != Some(id)
    ensures HoldsLock(w.tasks[id].phase) <==> Next(cfg, w, a).lock == Some(id)
  {
    TaskNow(cfg, w, id);
    EnabledIsDefined(cfg, w, a);
    if a.Advance? { TaskNow(cfg, w, a.id); }
    assert Next(cfg, w, a).lock == LockAfter(w, a);
    assert a.Advance? && w.tasks[a.id].phase.Locking? && a.reply.Ok? ==> w.lock.None?;
    hide Inv;
    hide Enabled;
    hide Next;
    hide Accounts;
    hide Matches;
  }

  lemma OtherLoop(cfg: Config, w: World, a: Action, id: RequestId)
    requires Inv(cfg, w) && Enabled(cfg, w, a) && id in w.tasks && Subject(w, a) != Some(id)
    ensures w.tasks[id].run.Scheduling? <==> Next(cfg, w, a).loop == LoopState.Submitting(id)
  {
    hide *;
    TaskNow(cfg, w, id);
    EnabledIsDefined(cfg, w, a);
    if Created(cfg, w, a).Some? { CreatedIsNew(cfg, w, a); }
    TaskKnowsLoop(w, id);
    LoopElsewhere(cfg, w, a, id);
    NextLoop(cfg, w, a);
  }

  lemma TaskKnowsLoop(w: World, id: RequestId)
    requires id in w.tasks && TaskOk(w, id)
    ensures w.tasks[id].run.Scheduling? <==> w.loop == LoopState.Submitting(id)
  {
    hide Accounts;
    hide Matches;
  }

  lemma NextLoop(cfg: Config, w: World, a: Action)
    requires Defined(w, a)
    ensures Next(cfg, w, a).loop == LoopAfter(cfg, w, a)
  {
    hide Half;
    hide TasksAfter;
    hide LoopAfter;
  }

  /** Who is being submitted changes only by a submission and by its own next step. */
  lemma LoopElsewhere(cfg: Config, w: World, a: Action, id: RequestId)
    requires Enabled(cfg, w, a) && Defined(w, a) && Subject(w, a) != Some(id)
    requires Created(cfg, w, a) != Some(id)
    ensures LoopAfter(cfg, w, a) == LoopState.Submitting(id) <==> w.loop == LoopState.Submitting(id)
  {
    hide Created;
    hide AnswerOf;
    hide BrokerCall;
    hide R.Enabled;
    hide TaskGuard;
    hide Idle;
  }

  lemma OtherRegistering(cfg: Config, w: World, a: Action, id: RequestId)
    requires Inv(cfg, w) && Enabled(cfg, w, a) && id in w.tasks && Subject(w, a) != Some(id)
    requires w.tasks[id].phase.Registering?
    ensures Next(cfg, w, a).registered[w.tasks[id].phase.cursor] == 0
  {
    TaskNow(cfg, w, id);
    EnabledIsDefined(cfg, w, a);
    if a.Advance? { TaskNow(cfg, w, a.id); }
    hide Inv;
    hide Enabled;
    hide Next;
    hide Accounts;
    hide Matches;
    NextRegistered(cfg, w, a);
  }

  lemma TaskNow(cfg: Config, w: World, id: RequestId)
    requires Inv(cfg, w) && id in w.tasks
    ensures TaskOk(w, id)
  {
  }

  lemma EnabledIsDefined(cfg: Config, w: World, a: Action)
    requires Enabled(cfg, w, a)
    ensures Defined(w, a)
    ensures Subject(w, a).Some? ==> Subject(w, a).value in w.tasks && TaskGuard(w.tasks[Subject(w, a).value], a)
  {
  }

  /** Only a worker about to register brings a cursor in. */
  lemma NextRegistered(cfg: Config, w: World, a: Action)
    requires Enabled(cfg, w, a)
    ensures Next(cfg, w, a).registered == w.registered +
              if a.Advance? && w.tasks[a.id].phase.Registering? then multiset{w.tasks[a.id].phase.cursor} else multiset{}
  {
    hide Apply;
    hide LetGo;
    hide TasksAfter;
    hide LoopAfter;
  }

  lemma NewTaskOk(cfg: Config, w: World, a: Action)
    requires ValidConfig(cfg) && Inv(cfg, w) && Enabled(cfg, w, a) && Created(cfg, w, a).Some?
    ensures var id := Created(cfg, w, a).value;
            id in Next(cfg, w, a).tasks && TaskOk(Next(cfg, w, a), id)
  {
    hide Apply;
    hide R.Enabled;
    hide Touched;
    hide Next;
    hide Accounts;
    hide Lookup;
    var id := Created(cfg, w, a).value;
    EnabledIsDefined(cfg, w, a);
    CreatedStands(cfg, w, a);
    CreatedIsNew(cfg, w, a);
    NextMachine(cfg, w, a);
    NextShared(cfg, w, a);
    NewTaskEntry(cfg, w, a);
    FreshAccounts();
    LockIsOthers(cfg, w, id);
    NewMatches(Next(cfg, w, a), id, Lookup(Half(cfg, w, a).machine.table, id));
    hide Inv;
    hide Enabled;
    hide Half;
    hide Created;
    hide LoopAfter;
    hide LockAfter;
    hide Matches;
  }

  lemma NewMatches(n: World, id: RequestId, record: Option<Record>)
    requires PendingRecord(record) && record.value.cursor.None?
    ensures Matches(n, id, Task(Scheduling, Unstarted, []), record)
  {
  }

  /** What the broker holds for a request just created. */
  lemma CreatedStands(cfg: Config, w: World, a: Action)
    requires Inv(cfg, w) && Enabled(cfg, w, a) && Created(cfg, w, a).Some?
    ensures var record := Lookup(Half(cfg, w, a).machine.table, Created(cfg, w, a).value);
            PendingRecord(record) && record.value.cursor.None? && a.Submit? && Subject(w, a).None?
  {
    hide Apply;
    hide R.Enabled;
    R.OrderIsDistinct(w.machine.table, w.machine.issued);
    IssuedIsPending(cfg, w.machine.table, BrokerCall(w, a).value);
    hide R.WellKept;
    hide Lookup;
  }

  lemma NewTaskEntry(cfg: Config, w: World, a: Action)
    requires Defined(w, a) && Created(cfg, w, a).Some? && a.Submit?
    ensures var id := Created(cfg, w, a).value;
            && id in Next(cfg, w, a).tasks && Next(cfg, w, a).tasks[id] == Task(Scheduling, Unstarted, [])
            && LoopAfter(cfg, w, a) == LoopState.Submitting(id) && LockAfter(w, a) == w.lock
  {
    hide Half;
  }

  lemma FreshAccounts()
    ensures Accounts([], Unstarted)
  {
    PathBalances(Unstarted);
  }

  lemma LockIsOthers(cfg: Config, w: World, id: RequestId)
    requires Inv(cfg, w) && id !in w.tasks
    ensures w.lock != Some(id)
  {
  }

  // ----- the subject of the step -----

  lemma SubjectTask(cfg: Config, w: World, a: Action, id: RequestId)
    requires Defined(w, a) && Subject(w, a) == Some(id)
    ensures id in Next(cfg, w, a).tasks && Next(cfg, w, a).tasks[id] == Moved(w.tasks[id], a, AnswerOf(cfg, w, a))
  {
    hide Half;
    hide Moved;
  }

  lemma SubjectFacts(cfg: Config, w: World, a: Action, id: RequestId)
    requires Inv(cfg, w) && Enabled(cfg, w, a) && Subject(w, a) == Some(id)
    ensures Defined(w, a) && id in w.tasks && TaskOk(w, id) && TaskGuard(w.tasks[id], a)
    ensures a.Advance? || a.Spawn? ==> a.id == id
  {
  }

  lemma StepLock(phase: Phase, reply: Reply)
    requires Fits(phase, reply)
    ensures HoldsLock(Step(phase, reply).phase)
            == if phase.Locking? then reply.Ok? else if phase.Unlocking? then false else HoldsLock(phase)
  {
  }

  lemma SubjectLock(cfg: Config, w: World, a: Action, id: RequestId)
    requires Inv(cfg, w) && Enabled(cfg, w, a) && Subject(w, a) == Some(id)
    ensures HoldsLock(Moved(w.tasks[id], a, AnswerOf(cfg, w, a)).phase) <==> LockAfter(w, a) == Some(id)
  {
    SubjectFacts(cfg, w, a, id);
    var t := w.tasks[id];
    assert HoldsLock(t.phase) <==> w.lock == Some(id);
    if a.Advance? {
      StepLock(t.phase, a.reply);
    }
    hide Inv;
    hide Enabled;
    hide TaskOk;
    hide AnswerOf;
    hide Step;
  }

  lemma SubjectLoop(cfg: Config, w: World, a: Action, id: RequestId)
    requires Inv(cfg, w) && Enabled(cfg, w, a) && Subject(w, a) == Some(id)
    ensures Moved(w.tasks[id], a, AnswerOf(cfg, w, a)).run.Scheduling? <==> LoopAfter(cfg, w, a) == LoopState.Submitting(id)
  {
    SubjectFacts(cfg, w, a, id);
    assert w.tasks[id].run.Scheduling? <==> w.loop == LoopState.Submitting(id);
    hide Inv;
    hide TaskOk;
    hide AnswerOf;
    hide Step;
  }

  lemma MovedPaired(t: Task, a: Action, answer: Option<Answer>)
    requires Paired(t) && TaskGuard(t, a)
    ensures Paired(Moved(t, a, answer))
  {
  }

  lemma MovedAccounts(t: Task, a: Action, answer: Option<Answer>)
    requires Accounts(t.log, t.phase) && TaskGuard(t, a)
    ensures Accounts(Moved(t, a, answer).log, Moved(t, a, answer).phase)
  {
    if a.Advance? {
      hide Accounts;
      StepAccounts(t.log, t.phase, a.reply);
    } else if a.Spawn? {
      assert t.log == [];
      PathBalances(Locking);
    } else {
      hide Accounts;
    }
  }

  lemma MovedOwned(t: Task, a: Action, answer: Option<Answer>)
    requires TaskGuard(t, a)
    ensures var moved := Moved(t, a, answer);
            && (Owned(moved.phase).Some? ==>
                  || Owned(moved.phase) == Owned(t.phase)
                  || (a.Advance? && a.reply.Cursor? && t.phase.OpeningCursor? && Owned(moved.phase) == Some(a.reply.cursor)))
            && (moved.phase.Registering? ==>
                  moved.phase == t.phase || (a.Advance? && t.phase.OpeningCursor? && a.reply == Reply.Cursor(moved.phase.cursor)))
            && (moved.phase == t.phase && t.phase.Registering? ==> !a.Advance?)
  {
  }

  lemma SubjectCursor(cfg: Config, w: World, a: Action, id: RequestId)
    requires Inv(cfg, w) && Enabled(cfg, w, a) && Subject(w, a) == Some(id)
    ensures var t := Moved(w.tasks[id], a, AnswerOf(cfg, w, a));
            && (Owned(t.phase).Some? ==> Owned(t.phase).value in Next(cfg, w, a).cursors)
            && (t.phase.Registering? ==> Next(cfg, w, a).registered[t.phase.cursor] == 0)
  {
    SubjectFacts(cfg, w, a, id);
    NextRegistered(cfg, w, a);
    NextMachine(cfg, w, a);
    MovedOwned(w.tasks[id], a, AnswerOf(cfg, w, a));
    if a.Advance? && a.reply.Cursor? {
      assert a.reply.cursor in Next(cfg, w, a).cursors;
      assert w.tasks[id].phase.OpeningCursor? ==> a.reply.cursor !in w.registered;
    }
    hide Inv;
    hide Enabled;
    hide Next;
    hide AnswerOf;
    hide Moved;
    hide Accounts;
    hide Matches;
  }

  // The subject and its broker record, one kind of move at a time.

  /** A move of the coroutine alone. */
  lemma RunMoveMatches(v: World, id: RequestId, t: Task, run: RunPhase, record: Option<Record>)
    requires Matches(v, id, t, record) && !t.run.Ended?
    requires run.Ended? ==> !PendingRecord(record)
    ensures Matches(v, id, t.(run := run), record)
  {
    hide Due;
  }

  /** A move of the worker thread alone that keeps or never had an armed cursor. */
  lemma PhaseMoveMatches(v: World, id: RequestId, t: Task, phase: Phase, log: seq<Event>, record: Option<Record>)
    requires Matches(v, id, t, record) && !t.phase.Finished? && Armed(phase) == Armed(t.phase)
    requires phase.ClosingCursor? ==> CursorRefused !in log
    ensures Matches(v, id, t.(phase := phase, log := log), record)
  {
    hide Due;
  }

  lemma RegisterMoveMatches(w: World, v: World, t: Task, id: RequestId, actor: Actor, call: Call, answer: Answer,
                            cancels: seq<CursorId>, before: Option<Record>, after: Option<Record>, log: seq<Event>)
    requires Matches(w, id, t, before) && Touched(id, before, after, call, answer, cancels)
    requires actor == Thread(id) && t.phase.Registering? && call.Register? && call.id == id && call.cursor == t.phase.cursor
    requires v.owed == w.owed + Debts(actor, cancels) && v.cancelled == w.cancelled
    ensures answer.OneView? ==> Matches(v, id, t.(phase := Executing(call.cursor), log := log), after)
    ensures !answer.OneView? ==> Matches(v, id, t.(phase := ClosingCursor(call.cursor, Raised), log := log), after)
  {
    OwedByGrows(w, actor, cancels, id, call.cursor, v);
    hide OwedBy;
    hide Due;
  }

  lemma ReleaseMoveMatches(w: World, v: World, t: Task, id: RequestId, call: Call, answer: Answer,
                           cancels: seq<CursorId>, before: Option<Record>, after: Option<Record>, log: seq<Event>)
    requires Matches(w, id, t, before) && Touched(id, before, after, call, answer, cancels)
    requires t.phase.Releasing? && call.Release? && call.id == id && call.cursor == t.phase.cursor
    requires CursorRefused !in log
    ensures Matches(v, id, t.(phase := ClosingCursor(call.cursor, t.phase.outcome), log := log), after)
  {
    hide Due;
  }

  lemma PublishMoveMatches(w: World, v: World, t: Task, id: RequestId, call: Call, answer: Answer,
                           cancels: seq<CursorId>, before: Option<Record>, after: Option<Record>)
    requires Matches(w, id, t, before) && Touched(id, before, after, call, answer, cancels)
    requires t.run.Settling? && t.phase == Finished(Returned(t.run.source))
    requires call.Publish? && call.id == id && call.source == t.run.source
    ensures answer.OneView? ==> Matches(v, id, t.(run := RunPhase.Ended), after)
    ensures !answer.OneView? ==> Matches(v, id, t.(run := Failing), after)
  {
    hide Due;
  }

  lemma PublishMatches(cfg: Config, w: World, a: Action, id: RequestId)
    requires ValidConfig(cfg) && Inv(cfg, w) && Enabled(cfg, w, a) && Subject(w, a) == Some(id) && a.PublishResult?
    ensures Matches(Half(cfg, w, a), id, Moved(w.tasks[id], a, AnswerOf(cfg, w, a)), Lookup(Half(cfg, w, a).machine.table, id))
  {
    SubjectFacts(cfg, w, a, id);
    HalfTouches(cfg, w, a, id);
    var t, v := w.tasks[id], Half(cfg, w, a);
    var call := BrokerCall(w, a).value;
    hide Inv;
    hide Enabled;
    hide Apply;
    hide Matches;
    hide Touched;
    hide Lookup;
    hide Accounts;
    var effect := Apply(cfg, w.machine.table, call);
    PublishMoveMatches(w, v, t, id, call, effect.answer, effect.cancels, Lookup(w.machine.table, id), Lookup(v.machine.table, id));
    hide Half;
  }

  lemma CoroutineMatches(cfg: Config, w: World, a: Action, id: RequestId)
    requires ValidConfig(cfg) && Inv(cfg, w) && Enabled(cfg, w, a) && Subject(w, a) == Some(id)
    requires !a.Advance? && !a.Spawn? && !a.PublishResult?
    ensures Matches(Half(cfg, w, a), id, Moved(w.tasks[id], a, AnswerOf(cfg, w, a)), Lookup(Half(cfg, w, a).machine.table, id))
  {
    SubjectFacts(cfg, w, a, id);
    if BrokerCall(w, a).Some? { CoroutineHarmless(cfg, w, a, id); }
    HalfMatches(cfg, w, a, id);
    EndsNotPending(cfg, w, a, id);
    var t, v := w.tasks[id], Half(cfg, w, a);
    MovedRun(t, a, AnswerOf(cfg, w, a));
    hide Inv;
    hide Enabled;
    hide Matches;
    hide Half;
    hide Lookup;
    hide Moved;
    hide AnswerOf;
    hide Accounts;
    RunMoveMatches(v, id, t, Moved(t, a, AnswerOf(cfg, w, a)).run, Lookup(v.machine.table, id));
  }

  lemma CoroutineHarmless(cfg: Config, w: World, a: Action, id: RequestId)
    requires Enabled(cfg, w, a) && Subject(w, a) == Some(id) && !a.Advance? && !a.PublishResult?
    requires BrokerCall(w, a).Some?
    ensures Harmless(BrokerCall(w, a).value, id)
  {
  }

  lemma MovedRun(t: Task, a: Action, answer: Option<Answer>)
    requires TaskGuard(t, a) && !a.Advance? && !a.Spawn?
    ensures Moved(t, a, answer) == t.(run := Moved(t, a, answer).run)
    ensures Moved(t, a, answer).run.Ended? ==> t.run.Ended? || a.AbandonTask? || a.RecordFailure? || a.PublishResult?
    ensures a.CreateTask? || a.AbandonTask? || a.StartRun? || a.TimerFires? || a.Poll? || a.Collect? || a.RecordFailure? ==>
              !t.run.Ended?
  {
  }

  /** After its own failure is recorded a request is no longer PENDING. */
  lemma EndsNotPending(cfg: Config, w: World, a: Action, id: RequestId)
    requires ValidConfig(cfg) && Inv(cfg, w) && Enabled(cfg, w, a) && Subject(w, a) == Some(id)
    ensures a.AbandonTask? || a.RecordFailure? ==> !PendingRecord(Lookup(Half(cfg, w, a).machine.table, id))
  {
    hide Apply;
    hide Half;
    hide Inv;
    hide Lookup;
    if a.AbandonTask? || a.RecordFailure? {
      FailureCall(cfg, w, a, id);
      SubjectInTasks(cfg, w, a, id);
      hide Enabled;
      HalfTouches(cfg, w, a, id);
    }
  }

  lemma FailureCall(cfg: Config, w: World, a: Action, id: RequestId)
    requires Enabled(cfg, w, a) && Subject(w, a) == Some(id) && (a.AbandonTask? || a.RecordFailure?)
    ensures BrokerCall(w, a).Some? && BrokerCall(w, a).value.Fail? && BrokerCall(w, a).value.id == id
  {
    hide R.Enabled;
  }

  lemma SubjectInTasks(cfg: Config, w: World, a: Action, id: RequestId)
    requires Enabled(cfg, w, a) && Subject(w, a) == Some(id)
    ensures id in w.tasks
  {
    hide R.Enabled;
  }

  lemma WorkerMatches(cfg: Config, w: World, a: Action, id: RequestId)
    requires ValidConfig(cfg) && Inv(cfg, w) && Enabled(cfg, w, a) && Subject(w, a) == Some(id) && (a.Advance? || a.Spawn?)
    ensures Matches(Half(cfg, w, a), id, Moved(w.tasks[id], a, AnswerOf(cfg, w, a)), Lookup(Half(cfg, w, a).machine.table, id))
  {
    SubjectFacts(cfg, w, a, id);
    var t, v := w.tasks[id], Half(cfg, w, a);
    if a.Advance? && (t.phase.Registering? || t.phase.Releasing?) {
      HalfTouches(cfg, w, a, id);
      var call := BrokerCall(w, a).value;
      RefusedOnlyAtRegistration(t, a.reply);
      hide Inv;
      hide Accounts;
      hide Apply;
      hide Matches;
      hide Touched;
      hide Lookup;
      var effect := Apply(cfg, w.machine.table, call);
      var before, after, log := Lookup(w.machine.table, id), Lookup(v.machine.table, id), t.log + [Step(t.phase, a.reply).event];
      if t.phase.Registering? {
        RegisterMoveMatches(w, v, t, id, ActorOf(a), call, effect.answer, effect.cancels, before, after, log);
      } else {
        ReleaseMoveMatches(w, v, t, id, call, effect.answer, effect.cancels, before, after, log);
      }
    } else {
      if a.Advance? {
        RefusedOnlyAtRegistration(t, a.reply);
      }
      HalfMatches(cfg, w, a, id);
      var moved := Moved(t, a, AnswerOf(cfg, w, a));
      MovedArmed(t, a, AnswerOf(cfg, w, a));
      hide Inv;
      hide Enabled;
      hide Half;
      hide Accounts;
      hide Matches;
      hide Lookup;
      hide Moved;
      PhaseMoveMatches(v, id, t, moved.phase, moved.log, Lookup(v.machine.table, id));
    }
  }

  lemma MovedArmed(t: Task, a: Action, answer: Option<Answer>)
    requires TaskGuard(t, a) && (a.Advance? || a.Spawn?)
    requires !t.phase.Registering? && !t.phase.Releasing?
    ensures var moved := Moved(t, a, answer);
            && Armed(moved.phase) == Armed(t.phase) && !t.phase.Finished? && !moved.phase.ClosingCursor?
            && moved == t.(phase := moved.phase, log := moved.log)
  {
  }

  lemma RefusedOnlyAtRegistration(t: Task, reply: Reply)
    requires Accounts(t.log, t.phase) && Fits(t.phase, reply)
    ensures Armed(t.phase).Some? ==> CursorRefused !in t.log + [Step(t.phase, reply).event]
  {
  }

  lemma SubjectKept(cfg: Config, w: World, a: Action, id: RequestId)
    requires ValidConfig(cfg) && Inv(cfg, w) && Enabled(cfg, w, a) && Subject(w, a) == Some(id)
    ensures id in Next(cfg, w, a).tasks && TaskOk(Next(cfg, w, a), id)
  {
    SubjectFacts(cfg, w, a, id);
    NextShared(cfg, w, a);
    hide Inv;
    hide Enabled;
    hide Matches;
    hide Accounts;
    hide Paired;
    hide Half;
    hide Moved;
    hide AnswerOf;
    hide TaskGuard;
    hide Next;
    hide LoopAfter;
    hide LockAfter;
    hide Lookup;
    if a.Advance? || a.Spawn? {
      WorkerMatches(cfg, w, a, id);
    } else if a.PublishResult? {
      PublishMatches(cfg, w, a, id);
    } else {
      CoroutineMatches(cfg, w, a, id);
    }
    var t := w.tasks[id];
    var moved := Moved(t, a, AnswerOf(cfg, w, a));
    MatchesCarries(cfg, w, a, id, moved, Lookup(Half(cfg, w, a).machine.table, id));
    NextMachine(cfg, w, a);
    SubjectTask(cfg, w, a, id);
    SubjectLock(cfg, w, a, id);
    SubjectLoop(cfg, w, a, id);
    MovedPaired(t, a, AnswerOf(cfg, w, a));
    MovedAccounts(t, a, AnswerOf(cfg, w, a));
    SubjectCursor(cfg, w, a, id);
  }

  // ----- the remaining conjuncts -----

  lemma MachineKept(cfg: Config, w: World, a: Action)
    requires ValidConfig(cfg) && Inv(cfg, w) && Enabled(cfg, w, a)
    ensures R.WellKept(cfg, Next(cfg, w, a).machine)
  {
    NextMachine(cfg, w, a);
    if BrokerCall(w, a).Some? {
      CallKeeps(cfg, w, ActorOf(a), BrokerCall(w, a).value);
    }
    hide Next;
    hide AfterCall;
    hide R.WellKept;
  }

  /** Exactly the issued identifiers have tasks. */
  lemma IssuedKept(cfg: Config, w: World, a: Action, id: RequestId)
    requires Inv(cfg, w) && Enabled(cfg, w, a)
    ensures id in Next(cfg, w, a).tasks <==> id in Next(cfg, w, a).machine.issued
  {
    NextMachine(cfg, w, a);
    NextIssued(cfg, w, a);
    hide Half;
    hide Moved;
    hide R.WellKept;
  }

  lemma NextIssued(cfg: Config, w: World, a: Action)
    requires Enabled(cfg, w, a)
    ensures Half(cfg, w, a).machine.issued ==
            if Created(cfg, w, a).Some? then w.machine.issued + [Created(cfg, w, a).value] else w.machine.issued
    ensures Created(cfg, w, a).Some? ==> Subject(w, a).None?
  {
    hide Apply;
  }

  lemma LockInTasks(cfg: Config, w: World, a: Action)
    requires Inv(cfg, w) && Enabled(cfg, w, a)
    ensures Next(cfg, w, a).lock.Some? ==> Next(cfg, w, a).lock.value in Next(cfg, w, a).tasks
  {
    hide Half;
    hide Moved;
    hide R.WellKept;
    hide LoopAfter;
  }

  lemma NewOwnsNothing(cfg: Config, w: World, a: Action, id: RequestId)
    requires Defined(w, a) && id in Next(cfg, w, a).tasks && id !in w.tasks
    ensures Created(cfg, w, a) == Some(id) && Next(cfg, w, a).tasks[id] == Task(Scheduling, Unstarted, [])
  {
    hide Half;
    hide Moved;
  }

  lemma ConservedKept(cfg: Config, w: World, a: Action)
    requires ValidConfig(cfg) && Inv(cfg, w) && Enabled(cfg, w, a)
    ensures Conserved(Next(cfg, w, a))
  {
    EnabledIsDefined(cfg, w, a);
    hide Inv;
    hide Enabled;
    hide Next;
    hide Attached;
    hide Cursors;
    BagKept(cfg, w, a);
    RegisteredKept(cfg, w, a);
  }

  lemma RegisteredKept(cfg: Config, w: World, a: Action)
    requires ValidConfig(cfg) && Inv(cfg, w) && Enabled(cfg, w, a)
    ensures var n := Next(cfg, w, a);
            forall c :: c in n.registered ==> n.registered[c] == 1 && c in n.cursors
  {
    EnabledIsDefined(cfg, w, a);
    ConservedNow(cfg, w);
    hide Inv;
    hide Enabled;
    hide Next;
    hide TaskOk;
    hide Attached;
    hide Cursors;
    NextRegistered(cfg, w, a);
    NextMachine(cfg, w, a);
    if a.Advance? && w.tasks[a.id].phase.Registering? {
      RegisteringIsNew(cfg, w, a.id);
      RegisteredOnce(w, Next(cfg, w, a), w.tasks[a.id].phase.cursor);
    }
  }

  lemma ConservedNow(cfg: Config, w: World)
    requires Inv(cfg, w)
    ensures Conserved(w)
  {
  }

  lemma RegisteringIsNew(cfg: Config, w: World, id: RequestId)
    requires Inv(cfg, w) && id in w.tasks && w.tasks[id].phase.Registering?
    ensures w.registered[w.tasks[id].phase.cursor] == 0 && w.tasks[id].phase.cursor in w.cursors
  {
    assert TaskOk(w, id);
    assert Owned(w.tasks[id].phase).Some?;
  }

  lemma RegisteredOnce(w: World, n: World, cursor: CursorId)
    requires Conserved(w) && w.registered[cursor] == 0 && cursor in w.cursors && w.cursors <= n.cursors
    requires n.registered == w.registered + multiset{cursor}
    ensures forall c :: c in n.registered ==> n.registered[c] == 1 && c in n.cursors
  {
    hide Attached;
    hide Cursors;
  }

  lemma BagKept(cfg: Config, w: World, a: Action)
    requires ValidConfig(cfg) && Inv(cfg, w) && Enabled(cfg, w, a)
    ensures var n := Next(cfg, w, a);
            Attached(n.machine.table) + multiset(Cursors(n.owed)) + n.cancelled + n.letGo == n.registered
  {
    EnabledIsDefined(cfg, w, a);
    NextBags(cfg, w, a);
    ConservedNow(cfg, w);
    HalfConserves(cfg, w, a);
    hide Attached;
    hide Cursors;
    hide Next;
    hide Half;
    hide Inv;
    hide Enabled;
    if a.Deliver? {
      CursorsRemove(w.owed, a.i);
      var h, n := Half(cfg, w, a), Next(cfg, w, a);
      var rest, one := multiset(Cursors(n.owed)), multiset{w.owed[a.i].cursor};
      assert Attached(h.machine.table) + rest + (h.cancelled + one) + h.letGo
          == Attached(h.machine.table) + (rest + one) + h.cancelled + h.letGo;
    }
  }

  lemma HalfConserves(cfg: Config, w: World, a: Action)
    requires ValidConfig(cfg) && Inv(cfg, w) && Enabled(cfg, w, a)
    ensures var h := Half(cfg, w, a);
            Attached(h.machine.table) + multiset(Cursors(h.owed)) + h.cancelled + h.letGo == h.registered
  {
    EnabledIsDefined(cfg, w, a);
    if BrokerCall(w, a).Some? {
      CallConserves(cfg, w, ActorOf(a), BrokerCall(w, a).value);
    }
    ConservedNow(cfg, w);
    hide Attached;
    hide Cursors;
    hide AfterCall;
    hide Inv;
    hide Enabled;
  }

  lemma NextBags(cfg: Config, w: World, a: Action)
    requires Defined(w, a)
    ensures var h, n := Half(cfg, w, a), Next(cfg, w, a);
            && n.machine == h.machine && n.letGo == h.letGo && n.registered == h.registered
            && (a.Deliver? ==>
                  && h == w && n.owed == w.owed[..a.i] + w.owed[a.i + 1..]
                  && n.cancelled == w.cancelled + multiset{w.owed[a.i].cursor})
            && (!a.Deliver? ==> n.owed == h.owed && n.cancelled == h.cancelled)
  {
    hide AfterCall;
    hide TasksAfter;
    hide LoopAfter;
    hide LockAfter;
    hide WaitingAfter;
  }

  /** A worker thread pays its debts before its next move, so it owes only while at close-cursor. */
  lemma DebtsKept(cfg: Config, w: World, a: Action, i: nat)
    requires ValidConfig(cfg) && Inv(cfg, w) && Enabled(cfg, w, a)
    requires i < |Next(cfg, w, a).owed| && Next(cfg, w, a).owed[i].actor.Thread?
    ensures var n := Next(cfg, w, a);
            var id := n.owed[i].actor.id;
            id in n.tasks && n.tasks[id].phase.ClosingCursor?
  {
    EnabledIsDefined(cfg, w, a);
    hide Inv;
    hide Enabled;
    hide Next;
    var n := Next(cfg, w, a);
    var debt := n.owed[i];
    var id := debt.actor.id;
    OwedAfter(cfg, w, a, i);
    hide Moved;
    hide Fits;
    hide Step;
    if debt in w.owed {
      var j :| 0 <= j < |w.owed| && w.owed[j] == debt;
      DebtorStays(cfg, w, a, id, j);
    } else {
      SubjectTask(cfg, w, a, id);
      NewDebtorCloses(w.tasks[id], a, AnswerOf(cfg, w, a));
    }
  }

  /** A refused registration and a release both lead to the closing of the cursor. */
  lemma NewDebtorCloses(t: Task, a: Action, answer: Option<Answer>)
    requires a.Advance? && Fits(t.phase, a.reply)
    requires t.phase.Releasing? || (t.phase.Registering? && !a.reply.Ok?)
    ensures Moved(t, a, answer).phase.ClosingCursor?
  {
  }

  lemma OwedAfter(cfg: Config, w: World, a: Action, i: nat)
    requires Enabled(cfg, w, a) && i < |Next(cfg, w, a).owed| && Next(cfg, w, a).owed[i].actor.Thread?
    ensures var debt := Next(cfg, w, a).owed[i];
            debt in w.owed
            || (a.Advance? && debt.actor == Thread(a.id) && Subject(w, a) == Some(a.id)
                && (w.tasks[a.id].phase.Registering? ==> !a.reply.Ok?)
                && (w.tasks[a.id].phase.Registering? || w.tasks[a.id].phase.Releasing?))
  {
    EnabledIsDefined(cfg, w, a);
    NextBags(cfg, w, a);
    hide Next;
    hide Apply;
    hide R.Enabled;
    var debt := Next(cfg, w, a).owed[i];
    if debt !in w.owed {
      assert BrokerCall(w, a).Some? && debt.actor == ActorOf(a);
      if a.Advance? && w.tasks[a.id].phase.Registering? && a.reply.Ok? {
        AcceptedRegistrationOwesNothing(cfg, w.machine.table, BrokerCall(w, a).value);
      }
    }
  }

  lemma DebtorStays(cfg: Config, w: World, a: Action, id: RequestId, j: nat)
    requires ValidConfig(cfg) && Inv(cfg, w) && Enabled(cfg, w, a)
    requires j < |w.owed| && w.owed[j].actor == Thread(id)
    ensures id in Next(cfg, w, a).tasks && Next(cfg, w, a).tasks[id].phase.ClosingCursor?
  {
    EnabledIsDefined(cfg, w, a);
    DebtorNow(cfg, w, j);
    BusyDebtor(cfg, w, a, id, j);
    hide Inv;
    hide Enabled;
    hide Next;
    if Subject(w, a) == Some(id) {
      SubjectTask(cfg, w, a, id);
      MovedRunOnly(w.tasks[id], a, AnswerOf(cfg, w, a));
    } else {
      OtherTaskStays(cfg, w, a, id);
    }
  }

  lemma DebtorNow(cfg: Config, w: World, j: nat)
    requires Inv(cfg, w) && j < |w.owed| && w.owed[j].actor.Thread?
    ensures w.owed[j].actor.id in w.tasks && w.tasks[w.owed[j].actor.id].phase.ClosingCursor?
  {
    assert DebtsOk(w);
  }

  /** A thread that owes a cancellation makes no other move. */
  lemma BusyDebtor(cfg: Config, w: World, a: Action, id: RequestId, j: nat)
    requires Enabled(cfg, w, a) && j < |w.owed| && w.owed[j].actor == Thread(id)
    ensures !(a.Advance? && a.id == id) && !(a.Spawn? && a.id == id)
  {
  }

  lemma MovedRunOnly(t: Task, a: Action, answer: Option<Answer>)
    requires !a.Advance? && !a.Spawn?
    ensures Moved(t, a, answer).phase == t.phase
  {
  }

  /** Runs never restart: an ended coroutine stays ended, and only a submission adds one. */
  lemma EndedStays(cfg: Config, w: World, a: Action, id: RequestId)
    requires ValidConfig(cfg) && Inv(cfg, w) && Enabled(cfg, w, a) && id in Next(cfg, w, a).tasks
    requires !Next(cfg, w, a).tasks[id].run.Ended?
    ensures id in w.tasks ==> !w.tasks[id].run.Ended?
    ensures id !in w.tasks ==> Created(cfg, w, a) == Some(id)
  {
    EnabledIsDefined(cfg, w, a);
    hide Inv;
    hide Enabled;
    hide Next;
    hide TaskOk;
    hide Moved;
    hide TaskGuard;
    hide AnswerOf;
    if Subject(w, a) == Some(id) {
      SubjectFacts(cfg, w, a, id);
      SubjectTask(cfg, w, a, id);
      MovedNotEnded(w.tasks[id], a, AnswerOf(cfg, w, a));
    } else if id in w.tasks {
      OtherTaskStays(cfg, w, a, id);
    } else {
      NewOwnsNothing(cfg, w, a, id);
    }
  }

  lemma MovedNotEnded(t: Task, a: Action, answer: Option<Answer>)
    requires TaskGuard(t, a)
    ensures t.run.Ended? ==> Moved(t, a, answer).run.Ended?
  {
  }

  lemma ClosedCreatesNothing(cfg: Config, w: World, a: Action)
    requires Defined(w, a) && w.closed
    ensures Created(cfg, w, a).None?
  {
  }

  lemma NextFlags(cfg: Config, w: World, a: Action)
    requires Enabled(cfg, w, a)
    ensures var n := Next(cfg, w, a);
            && n.closed == (w.closed || a.BeginClose?)
            && n.returned == (w.returned || a.FinishClose?)
            && n.waiting == WaitingAfter(w, a)
            && n.loop == LoopAfter(cfg, w, a)
            && (n.loop.Closing? ==> w.loop.Closing? || a.BeginClose?)
            && (n.loop.Submitting? ==> w.loop == n.loop || Created(cfg, w, a) == Some(n.loop.id))
  {
    hide Half;
    hide TasksAfter;
  }

  lemma WaitersKept(cfg: Config, w: World, a: Action, i: nat, id: RequestId)
    requires ValidConfig(cfg) && Inv(cfg, w) && Enabled(cfg, w, a)
    requires i < |WaitingAfter(w, a)| && id in Next(cfg, w, a).tasks && !Next(cfg, w, a).tasks[id].run.Ended?
    ensures id in WaitingAfter(w, a)[i]
  {
    hide Inv;
    hide Enabled;
    hide Next;
    EnabledIsDefined(cfg, w, a);
    EndedStays(cfg, w, a, id);
    ShutdownSays(cfg, w);
    AwaitingCloses(cfg, w, a);
    if a.AwaitTasks? || w.waiting != [] {
      ClosedCreatesNothing(cfg, w, a);
    }
  }

  lemma ShutdownSays(cfg: Config, w: World)
    requires Inv(cfg, w)
    ensures ShutdownOk(w)
  {
  }

  lemma AwaitingCloses(cfg: Config, w: World, a: Action)
    requires Enabled(cfg, w, a)
    ensures a.AwaitTasks? ==> w.loop.Closing?
    ensures a.FinishClose? ==> a.i < |w.waiting| && forall id :: id in w.waiting[a.i] && id in w.tasks ==> w.tasks[id].run.Ended?
  {
    hide R.Enabled;
  }

  lemma ReturnedQuiet(cfg: Config, w: World, a: Action, id: RequestId)
    requires ValidConfig(cfg) && Inv(cfg, w) && Enabled(cfg, w, a)
    requires w.returned || a.FinishClose?
    requires id in Next(cfg, w, a).tasks
    ensures Next(cfg, w, a).tasks[id].run.Ended?
  {
    hide Inv;
    hide Enabled;
    hide Next;
    EnabledIsDefined(cfg, w, a);
    ShutdownSays(cfg, w);
    AwaitingCloses(cfg, w, a);
    if !Next(cfg, w, a).tasks[id].run.Ended? {
      EndedStays(cfg, w, a, id);
      ClosedCreatesNothing(cfg, w, a);
    }
  }

  lemma ShutdownKept(cfg: Config, w: World, a: Action)
    requires ValidConfig(cfg) && Inv(cfg, w) && Enabled(cfg, w, a)
    ensures ShutdownOk(Next(cfg, w, a))
  {
    var n := Next(cfg, w, a);
    NextFlags(cfg, w, a);
    forall i, id | 0 <= i < |n.waiting| && id in n.tasks && !n.tasks[id].run.Ended?
      ensures id in n.waiting[i]
    {
      WaitersKept(cfg, w, a, i, id);
    }
    if n.returned {
      forall id | id in n.tasks ensures n.tasks[id].run.Ended? {
        ReturnedQuiet(cfg, w, a, id);
      }
    }
    if n.loop.Submitting? { SubmittingKept(cfg, w, a); }
    assert ShutdownOk(w);
    hide Next;
    hide LoopAfter;
    hide R.WellKept;
  }

  lemma SubmittingKept(cfg: Config, w: World, a: Action)
    requires ValidConfig(cfg) && Inv(cfg, w) && Enabled(cfg, w, a) && Next(cfg, w, a).loop.Submitting?
    ensures !Next(cfg, w, a).closed && Next(cfg, w, a).loop.id in Next(cfg, w, a).tasks
  {
    NextFlags(cfg, w, a);
    if Created(cfg, w, a).Some? {
      NewTaskOk(cfg, w, a);
    } else {
      assert w.loop.id in w.tasks;
    }
    hide Half;
    hide R.WellKept;
    hide TaskOk;
  }

  // ----- every reachable state -----

  lemma StepKeepsTasks(cfg: Config, w: World, a: Action, id: RequestId)
    requires ValidConfig(cfg) && Inv(cfg, w) && Enabled(cfg, w, a) && id in Next(cfg, w, a).tasks
    ensures TaskOk(Next(cfg, w, a), id)
  {
    if Subject(w, a) == Some(id) {
      SubjectKept(cfg, w, a, id);
    } else if id in w.tasks {
      OtherTaskKept(cfg, w, a, id);
    } else {
      NewOwnsNothing(cfg, w, a, id);
      NewTaskOk(cfg, w, a);
    }
    hide Next;
    hide TaskOk;
    hide Inv;
  }

  /** Any enabled step of any thread keeps the invariant. */
  lemma StepKeeps(cfg: Config, w: World, a: Action)
    requires ValidConfig(cfg) && Inv(cfg, w) && Enabled(cfg, w, a)
    ensures Inv(cfg, Next(cfg, w, a))
  {
    EnabledIsDefined(cfg, w, a);
    hide Enabled;
    hide Next;
    hide TaskOk;
    hide R.WellKept;
    hide Conserved;
    hide ShutdownOk;
    hide DebtsOk;
    MachineKept(cfg, w, a);
    ConservedKept(cfg, w, a);
    ShutdownKept(cfg, w, a);
    LockInTasks(cfg, w, a);
    AllIssuedKept(cfg, w, a);
    AllTasksKept(cfg, w, a);
    DebtsOkKept(cfg, w, a);
  }

  lemma AllIssuedKept(cfg: Config, w: World, a: Action)
    requires ValidConfig(cfg) && Inv(cfg, w) && Enabled(cfg, w, a)
    ensures forall id :: id in Next(cfg, w, a).tasks <==> id in Next(cfg, w, a).machine.issued
  {
    EnabledIsDefined(cfg, w, a);
    hide Inv;
    hide Enabled;
    hide Next;
    forall id
      ensures id in Next(cfg, w, a).tasks <==> id in Next(cfg, w, a).machine.issued
    {
      IssuedKept(cfg, w, a, id);
    }
  }

  lemma AllTasksKept(cfg: Config, w: World, a: Action)
    requires ValidConfig(cfg) && Inv(cfg, w) && Enabled(cfg, w, a)
    ensures forall id :: id in Next(cfg, w, a).tasks ==> TaskOk(Next(cfg, w, a), id)
  {
    EnabledIsDefined(cfg, w, a);
    hide Inv;
    hide Enabled;
    hide Next;
    hide TaskOk;
    forall id | id in Next(cfg, w, a).tasks
      ensures TaskOk(Next(cfg, w, a), id)
    {
      StepKeepsTasks(cfg, w, a, id);
    }
  }

  lemma DebtsOkKept(cfg: Config, w: World, a: Action)
    requires ValidConfig(cfg) && Inv(cfg, w) && Enabled(cfg, w, a)
    ensures DebtsOk(Next(cfg, w, a))
  {
    EnabledIsDefined(cfg, w, a);
    hide Inv;
    hide Enabled;
    hide Next;
    var n := Next(cfg, w, a);
    forall i | 0 <= i < |n.owed| && n.owed[i].actor.Thread?
      ensures n.owed[i].actor.id in n.tasks && n.tasks[n.owed[i].actor.id].phase.ClosingCursor?
    {
      DebtsKept(cfg, w, a, i);
    }
  }

  lemma StartOk(cfg: Config)
    requires ValidConfig(cfg)
    ensures Inv(cfg, START)
  {
    R.EmptyKept(cfg);
    assert Cursors([]) == [];
  }

  lemma {:induction false} RunKeeps(cfg: Config, w: World, actions: seq<Action>)
    requires ValidConfig(cfg) && Inv(cfg, w) && EnabledAll(cfg, w, actions)
    ensures Inv(cfg, Run(cfg, w, actions))
    decreases |actions|
  {
    hide Inv;
    hide Enabled;
    hide Next;
    if actions != [] {
      EnabledIsDefined(cfg, w, actions[0]);
      StepKeeps(cfg, w, actions[0]);
      RunKeeps(cfg, Next(cfg, w, actions[0]), actions[1..]);
    }
  }

  lemma ReachableOk(cfg: Config, w: World)
    requires ValidConfig(cfg) && Reachable(cfg, w)
    ensures Inv(cfg, w)
  {
    hide Inv;
    var actions :| EnabledAll(cfg, START, actions) && Run(cfg, START, actions) == w;
    StartOk(cfg);
    RunKeeps(cfg, START, actions);
  }
}
