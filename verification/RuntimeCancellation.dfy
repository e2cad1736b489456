/** Driver cancellations against the closing of cursors. A worker closes its cursor with its own
    cancellations issued, but another actor may still owe that cursor's, and then issues it later. */
module RuntimeCancellation {
  import opened Wrappers
  import opened BrokerModel
  import opened BrokerProofs
  import R = BrokerRuns
  import opened Execution
  import opened Runtime
  import opened RuntimeInvariant
  import opened RuntimeRuns
  import opened RuntimeTheorems

  // ----- a worker's cursor has been registered -----

  /** The cursor of a phase that comes after its registration was accepted or refused. */
  function Presented(phase: Phase): Option<CursorId> {
    if phase.Executing? || phase.Fetching? || phase.Releasing? || phase.ClosingCursor? then Some(phase.cursor) else None
  }

  ghost predicate AllPresented(w: World) {
    forall id :: id in w.tasks && Presented(w.tasks[id].phase).Some? ==> Presented(w.tasks[id].phase).value in w.registered
  }

  lemma MovedPresented(t: Task, a: Action, answer: Option<Answer>)
    requires TaskGuard(t, a)
    ensures var moved := Moved(t, a, answer);
            Presented(moved.phase).Some? ==>
              || Presented(moved.phase) == Presented(t.phase)
              || (a.Advance? && t.phase == Registering(Presented(moved.phase).value))
  {
  }

  lemma StepPresented(cfg: Config, w: World, a: Action, id: RequestId)
    requires ValidConfig(cfg) && Inv(cfg, w) && Enabled(cfg, w, a) && AllPresented(w)
    requires id in Next(cfg, w, a).tasks && Presented(Next(cfg, w, a).tasks[id].phase).Some?
    ensures Presented(Next(cfg, w, a).tasks[id].phase).value in Next(cfg, w, a).registered
  {
    hide Inv;
    hide Enabled;
    hide Next;
    hide Moved;
    hide TaskGuard;
    EnabledIsDefined(cfg, w, a);
    NextRegistered(cfg, w, a);
    if Subject(w, a) == Some(id) {
      SubjectFacts(cfg, w, a, id);
      SubjectTask(cfg, w, a, id);
      MovedPresented(w.tasks[id], a, AnswerOf(cfg, w, a));
    } else if id in w.tasks {
      OtherTaskStays(cfg, w, a, id);
    } else {
      NewOwnsNothing(cfg, w, a, id);
    }
  }

  lemma {:induction false} RunPresented(cfg: Config, w: World, actions: seq<Action>)
    requires ValidConfig(cfg) && Inv(cfg, w) && EnabledAll(cfg, w, actions) && AllPresented(w)
    ensures AllPresented(Run(cfg, w, actions))
    decreases |actions|
  {
    hide Inv;
    hide Enabled;
    hide Next;
    hide Presented;
    if actions != [] {
      var a := actions[0];
      EnabledIsDefined(cfg, w, a);
      var n := Next(cfg, w, a);
      StepKeeps(cfg, w, a);
      forall id | id in n.tasks && Presented(n.tasks[id].phase).Some?
        ensures Presented(n.tasks[id].phase).value in n.registered
      {
        StepPresented(cfg, w, a, id);
      }
      RunPresented(cfg, n, actions[1..]);
    }
  }

  lemma ReachablePresented(cfg: Config, w: World)
    requires ValidConfig(cfg) && Reachable(cfg, w)
    ensures AllPresented(w)
  {
    var actions :| EnabledAll(cfg, START, actions) && Run(cfg, START, actions) == w;
    StartOk(cfg);
    hide Inv;
    RunPresented(cfg, START, actions);
  }

  // ----- at the close -----

  lemma {:induction false} AttachedIn(table: Table, cursor: CursorId) returns (k: nat)
    requires cursor in Attached(table)
    ensures k < |table| && table[k].cursor == Some(cursor)
  {
    var n := |table| - 1;
    if table[n].cursor == Some(cursor) {
      k := n;
    } else {
      k := AttachedIn(table[..n], cursor);
    }
  }

  lemma LockOfTask(cfg: Config, w: World, id: RequestId)
    requires Inv(cfg, w) && id in w.tasks
    ensures HoldsLock(w.tasks[id].phase) <==> w.lock == Some(id)
  {
    TaskFacts(cfg, w, id);
  }

  lemma ArmedByRecord(cfg: Config, w: World, k: nat)
    requires Inv(cfg, w) && k < |w.machine.table| && w.machine.table[k].cursor.Some?
    ensures w.machine.table[k].id in w.tasks
    ensures Armed(w.tasks[w.machine.table[k].id].phase) == w.machine.table[k].cursor
  {
    R.OrderIsDistinct(w.machine.table, w.machine.issued);
    LookupAt(w.machine.table, k);
    HasTask(cfg, w, w.machine.table[k].id);
    TaskFacts(cfg, w, w.machine.table[k].id);
  }

  /** The one worker that is closing a cursor: nobody else is armed, so that cursor is not attached. */
  lemma ClosingIsDetached(cfg: Config, w: World, id: RequestId)
    requires Inv(cfg, w) && id in w.tasks && w.tasks[id].phase.ClosingCursor?
    ensures w.tasks[id].phase.cursor !in Attached(w.machine.table)
  {
    hide Inv;
    LockOfTask(cfg, w, id);
    if w.tasks[id].phase.cursor in Attached(w.machine.table) {
      var k := AttachedIn(w.machine.table, w.tasks[id].phase.cursor);
      ArmedByRecord(cfg, w, k);
      LockOfTask(cfg, w, w.machine.table[k].id);
      assert false;
    }
  }

  /** And no worker thread owes anything: it could only be the one that is closing, and that one pays
      first. */
  lemma ClosingPaysFirst(cfg: Config, w: World, id: RequestId, i: nat)
    requires Inv(cfg, w) && id in w.tasks && w.tasks[id].phase.ClosingCursor? && Idle(w, Thread(id)) && i < |w.owed|
    ensures !w.owed[i].actor.Thread?
  {
    hide Inv;
    LockOfTask(cfg, w, id);
    if w.owed[i].actor.Thread? {
      DebtorNow(cfg, w, i);
      LockOfTask(cfg, w, w.owed[i].actor.id);
    }
  }

  // ----- afterwards -----

  /** How often a cursor's cancellation is queued or has been issued. */
  function Requested(w: World, cursor: CursorId): nat {
    multiset(Cursors(w.owed))[cursor] + w.cancelled[cursor]
  }

  /** Queued and issued cancellations, and cursors let go, only ever grow in number. */
  lemma StepOnlyAdds(cfg: Config, w: World, a: Action, cursor: CursorId)
    requires Enabled(cfg, w, a)
    ensures var n := Next(cfg, w, a);
            && Requested(n, cursor) >= Requested(w, cursor) && n.cancelled[cursor] >= w.cancelled[cursor]
            && n.letGo[cursor] >= w.letGo[cursor] && n.registered[cursor] >= w.registered[cursor]
  {
    EnabledIsDefined(cfg, w, a);
    NextBags(cfg, w, a);
    if a.Deliver? {
      CursorsRemove(w.owed, a.i);
    } else {
      HalfOnlyAdds(cfg, w, a, cursor);
    }
    hide Next;
    hide Enabled;
    hide Half;
    hide Cursors;
  }

  lemma HalfOnlyAdds(cfg: Config, w: World, a: Action, cursor: CursorId)
    requires Defined(w, a)
    ensures var h := Half(cfg, w, a);
            && multiset(Cursors(h.owed))[cursor] >= multiset(Cursors(w.owed))[cursor] && h.cancelled == w.cancelled
            && h.letGo[cursor] >= w.letGo[cursor] && h.registered[cursor] >= w.registered[cursor]
  {
    if BrokerCall(w, a).Some? {
      CursorsAppend(w.owed, ActorOf(a), Apply(cfg, w.machine.table, BrokerCall(w, a).value).cancels);
    }
    hide Apply;
    hide LetGo;
    hide Cursors;
  }

  /** One registered cursor, counted over all places it can be in. */
  lemma OnePlace(cfg: Config, w: World, cursor: CursorId)
    requires Inv(cfg, w) && cursor in w.registered
    ensures Attached(w.machine.table)[cursor] + Requested(w, cursor) + w.letGo[cursor] == 1
  {
    ConservedNow(cfg, w);
    hide Inv;
    hide Attached;
    hide Cursors;
    var all := Attached(w.machine.table) + multiset(Cursors(w.owed)) + w.cancelled + w.letGo;
    assert all[cursor] == w.registered[cursor] == 1;
  }

  /** Once its cancellation is requested, or it is neither attached nor requested, that is so for good. */
  lemma {:induction false} RunDecides(cfg: Config, w: World, later: seq<Action>, cursor: CursorId)
    requires ValidConfig(cfg) && Inv(cfg, w) && EnabledAll(cfg, w, later)
    requires cursor in w.registered && Attached(w.machine.table)[cursor] == 0
    ensures Requested(Run(cfg, w, later), cursor) == Requested(w, cursor) <= 1
    ensures Run(cfg, w, later).cancelled[cursor] >= w.cancelled[cursor]
    decreases |later|
  {
    hide Inv;
    hide Enabled;
    hide Next;
    hide Attached;
    hide Requested;
    OnePlace(cfg, w, cursor);
    if later != [] {
      var a := later[0];
      EnabledIsDefined(cfg, w, a);
      StepOnlyAdds(cfg, w, a, cursor);
      StepKeeps(cfg, w, a);
      OnePlace(cfg, Next(cfg, w, a), cursor);
      RunDecides(cfg, Next(cfg, w, a), later[1..], cursor);
    }
  }

  /** Any queued cancellation can be issued. */
  lemma {:induction false} CanIssue(cfg: Config, w: World, k: nat) returns (later: seq<Action>)
    requires k < |w.owed|
    ensures EnabledAll(cfg, w, later) && Run(cfg, w, later).cancelled[w.owed[k].cursor] > w.cancelled[w.owed[k].cursor]
    decreases k
  {
    hide Enabled;
    hide Next;
    var n := Next(cfg, w, Deliver(0));
    FirstDelivered(cfg, w);
    if k == 0 {
      later := [Deliver(0)];
      assert later[1..] == [] && EnabledAll(cfg, n, []) && Run(cfg, n, []) == n;
      assert EnabledAll(cfg, w, later) && Run(cfg, w, later) == n;
    } else {
      var rest := CanIssue(cfg, n, k - 1);
      later := [Deliver(0)] + rest;
      assert later[1..] == rest && later[0] == Deliver(0);
      assert EnabledAll(cfg, w, later) && Run(cfg, w, later) == Run(cfg, n, rest);
    }
  }

  lemma FirstDelivered(cfg: Config, w: World)
    requires w.owed != []
    ensures Enabled(cfg, w, Deliver(0)) && Defined(w, Deliver(0))
    ensures var n := Next(cfg, w, Deliver(0));
            n.owed == w.owed[1..] && n.cancelled == w.cancelled + multiset{w.owed[0].cursor}
  {
    assert w.owed[..0] + w.owed[1..] == w.owed[1..];
  }

  /** Someone other than a worker thread owes the cursor's cancellation. */
  ghost predicate OwedElsewhere(w: World, cursor: CursorId) {
    exists i :: 0 <= i < |w.owed| && w.owed[i].cursor == cursor && !w.owed[i].actor.Thread?
  }

  /** Cancellation after close. When a worker closes its cursor, that cursor is attached to no record and
      no worker thread owes a cancellation. The cursor can be cancelled after the close exactly if the
      event loop or an outside caller owes it at that moment, and then it will have been once every
      cancellation is issued. */
  lemma CancelAfterClose(cfg: Config, w: World, id: RequestId, reply: Reply, now: int)
    requires ValidConfig(cfg) && Reachable(cfg, w) && Enabled(cfg, w, Advance(id, reply, now))
    requires id in w.tasks && w.tasks[id].phase.ClosingCursor?
    ensures Defined(w, Advance(id, reply, now))
    ensures var cursor, n := w.tasks[id].phase.cursor, Next(cfg, w, Advance(id, reply, now));
            && cursor !in Attached(w.machine.table)
            && (forall i :: 0 <= i < |w.owed| ==> !w.owed[i].actor.Thread?)
            && ((exists later :: EnabledAll(cfg, n, later) && Run(cfg, n, later).cancelled[cursor] > n.cancelled[cursor])
                <==> OwedElsewhere(w, cursor))
            && (OwedElsewhere(w, cursor) ==>
                  forall later :: EnabledAll(cfg, n, later) && Run(cfg, n, later).owed == [] ==>
                    cursor in Run(cfg, n, later).cancelled)
  {
    hide Inv;
    hide Reachable;
    var a := Advance(id, reply, now);
    var cursor := w.tasks[id].phase.cursor;
    ReachableOk(cfg, w);
    ReachablePresented(cfg, w);
    assert Presented(w.tasks[id].phase) == Some(cursor);
    EnabledIsDefined(cfg, w, a);
    EnabledIsIdle(cfg, w, a);
    ClosingIsDetached(cfg, w, id);
    forall i | 0 <= i < |w.owed| ensures !w.owed[i].actor.Thread? {
      ClosingPaysFirst(cfg, w, id, i);
    }
    CloseChangesNothingElse(cfg, w, a);
    StepKeeps(cfg, w, a);
    hide Enabled;
    hide Next;
    AfterClose(cfg, w, Next(cfg, w, a), cursor);
  }

  lemma CloseChangesNothingElse(cfg: Config, w: World, a: Action)
    requires Defined(w, a) && a.Advance? && w.tasks[a.id].phase.ClosingCursor?
    ensures var n := Next(cfg, w, a);
            n.machine == w.machine && n.owed == w.owed && n.cancelled == w.cancelled && n.registered == w.registered
  {
    NextBags(cfg, w, a);
  }

  lemma AfterClose(cfg: Config, w: World, n: World, cursor: CursorId)
    requires ValidConfig(cfg) && Inv(cfg, n) && n.machine == w.machine && n.owed == w.owed
    requires cursor in n.registered && cursor !in Attached(n.machine.table)
    requires forall i :: 0 <= i < |w.owed| ==> !w.owed[i].actor.Thread?
    ensures (exists later :: EnabledAll(cfg, n, later) && Run(cfg, n, later).cancelled[cursor] > n.cancelled[cursor])
            <==> OwedElsewhere(w, cursor)
    ensures OwedElsewhere(w, cursor) ==>
              forall later :: EnabledAll(cfg, n, later) && Run(cfg, n, later).owed == [] ==> cursor in Run(cfg, n, later).cancelled
  {
    hide Inv;
    hide Attached;
    hide Requested;
    hide Run;
    hide EnabledAll;
    forall later | EnabledAll(cfg, n, later)
      ensures Requested(Run(cfg, n, later), cursor) == Requested(n, cursor) <= 1
    {
      RunDecides(cfg, n, later, cursor);
    }
    if OwedElsewhere(w, cursor) {
      var i :| 0 <= i < |w.owed| && w.owed[i].cursor == cursor && !w.owed[i].actor.Thread?;
      var later := CanIssue(cfg, n, i);
      QueuedIsRequested(n, i);
      forall later | EnabledAll(cfg, n, later) && Run(cfg, n, later).owed == []
        ensures cursor in Run(cfg, n, later).cancelled
      {
        NothingQueued(Run(cfg, n, later), cursor);
      }
    } else {
      NotQueued(n, cursor);
      forall later | EnabledAll(cfg, n, later)
        ensures Run(cfg, n, later).cancelled[cursor] <= n.cancelled[cursor]
      {
        assert Requested(Run(cfg, n, later), cursor) == n.cancelled[cursor];
        IssuedIsRequested(Run(cfg, n, later), cursor);
      }
    }
  }

  lemma QueuedIsRequested(n: World, i: nat)
    requires i < |n.owed|
    ensures Requested(n, n.owed[i].cursor) >= 1
  {
    assert Cursors(n.owed)[i] == n.owed[i].cursor;
  }

  lemma NotQueued(n: World, cursor: CursorId)
    requires forall i :: 0 <= i < |n.owed| ==> n.owed[i].cursor != cursor
    ensures Requested(n, cursor) == n.cancelled[cursor]
  {
    assert forall c :: c in Cursors(n.owed) ==> c != cursor;
  }

  lemma NothingQueued(n: World, cursor: CursorId)
    requires n.owed == []
    ensures Requested(n, cursor) == n.cancelled[cursor]
  {
    assert Cursors([]) == [];
  }

  lemma IssuedIsRequested(n: World, cursor: CursorId)
    ensures n.cancelled[cursor] <= Requested(n, cursor)
  {
  }
}
