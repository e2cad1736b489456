/** What holds in every reachable state of the runtime, whatever the interleaving. */
module RuntimeTheorems {
  import opened Wrappers
  import opened BrokerModel
  import opened BrokerProofs
  import opened BrokerTouch
  import R = BrokerRuns
  import opened Execution
  import opened Runtime
  import opened RuntimeInvariant

  lemma TaskFacts(cfg: Config, w: World, id: RequestId)
    requires Inv(cfg, w) && id in w.tasks
    ensures TaskOk(w, id)
  {
  }

  /** No cancellation gap. While a worker is between successful registration and release of its
      cursor, its record is PENDING with exactly that cursor attached, or that cursor's cancellation
      has been queued or issued. */
  lemma NoCancellationGap(cfg: Config, w: World, id: RequestId)
    requires ValidConfig(cfg) && Reachable(cfg, w) && id in w.tasks
    requires Armed(w.tasks[id].phase).Some?
    ensures var cursor := Armed(w.tasks[id].phase).value;
            AttachedTo(Lookup(w.machine.table, id), cursor) || Due(w, cursor)
  {
    ReachableOk(cfg, w);
    TaskFacts(cfg, w, id);
  }

  /** A cursor refused at registration is never executed, and its cancellation has been issued
      before the worker closes it. */
  lemma RefusedCursorIsCancelled(cfg: Config, w: World, id: RequestId)
    requires ValidConfig(cfg) && Reachable(cfg, w) && id in w.tasks && CursorRefused in w.tasks[id].log
    ensures Executed !in w.tasks[id].log && ExecuteFailed !in w.tasks[id].log
    ensures w.tasks[id].phase.ClosingCursor? ==>
              forall reply, now :: Enabled(cfg, w, Advance(id, reply, now)) ==> w.tasks[id].phase.cursor in w.cancelled
  {
    hide *;
    ReachableOk(cfg, w);
    TaskFacts(cfg, w, id);
    RefusedIsOwed(w, id);
    if w.tasks[id].phase.ClosingCursor? {
      forall reply, now | Enabled(cfg, w, Advance(id, reply, now))
        ensures w.tasks[id].phase.cursor in w.cancelled
      {
        NothingOwedToAdvance(cfg, w, id, reply, now, w.tasks[id].phase.cursor);
      }
    }
  }

  lemma RefusedIsOwed(w: World, id: RequestId)
    requires id in w.tasks && TaskOk(w, id) && CursorRefused in w.tasks[id].log
    ensures Executed !in w.tasks[id].log && ExecuteFailed !in w.tasks[id].log
    ensures w.tasks[id].phase.ClosingCursor? ==> OwedBy(w, id, w.tasks[id].phase.cursor)
  {
    hide Lookup;
    hide OwedBy;
  }

  lemma NothingOwedToAdvance(cfg: Config, w: World, id: RequestId, reply: Reply, now: int, cursor: CursorId)
    requires Enabled(cfg, w, Advance(id, reply, now)) && OwedBy(w, id, cursor)
    ensures cursor in w.cancelled
  {
    assert Idle(w, Thread(id));
  }

  /** Publication barrier. A COMPLETE record's own worker took the lock, connected, opened and
      registered a cursor, executed, admitted exactly the record's source, attempted the release,
      closed cursor and connection without error and freed the lock, in that order, nothing else. */
  lemma PublicationBarrier(cfg: Config, w: World, id: RequestId)
    requires ValidConfig(cfg) && Reachable(cfg, w)
    requires Lookup(w.machine.table, id).Some? && Lookup(w.machine.table, id).value.status.Complete?
    ensures var source := Lookup(w.machine.table, id).value.source;
            && source.Some? && id in w.tasks
            && w.tasks[id].run.Ended? && w.tasks[id].phase == Finished(Returned(source.value))
            && w.tasks[id].log == [LockTaken, Connected, CursorOpened, CursorRegistered, Executed, Admitted(source.value),
                                   ReleaseAttempted, CursorClosed, ConnectionClosed, LockFreed]
  {
    ReachableOk(cfg, w);
    HasTask(cfg, w, id);
    TaskFacts(cfg, w, id);
    hide Inv;
    hide Reachable;
    hide Lookup;
    hide Accounts;
    FullPath(w.tasks[id].log, Lookup(w.machine.table, id).value.source.value);
  }

  lemma FullPath(log: seq<Event>, source: SourceId)
    requires Accounts(log, Finished(Returned(source)))
    ensures log == [LockTaken, Connected, CursorOpened, CursorRegistered, Executed, Admitted(source),
                    ReleaseAttempted, CursorClosed, ConnectionClosed, LockFreed]
  {
    hide Balanced;
  }

  lemma HasTask(cfg: Config, w: World, id: RequestId)
    requires Inv(cfg, w) && Lookup(w.machine.table, id).Some?
    ensures id in w.tasks
  {
    var k := Find(w.machine.table, id);
    assert w.machine.table[k].id in w.machine.issued;
  }

  /** Every way through a run leaves its record ended or evicted, its worker thread done, and every
      resource the worker opened closed again. */
  lemma EndedRunsAreClean(cfg: Config, w: World, id: RequestId)
    requires ValidConfig(cfg) && Reachable(cfg, w) && id in w.tasks && w.tasks[id].run.Ended?
    ensures !PendingRecord(Lookup(w.machine.table, id))
    ensures var log := w.tasks[id].log;
            && (LockTaken in log ==> LockFreed in log)
            && (Connected in log ==> ConnectionClosed in log || ConnectionCloseFailed in log)
            && (CursorOpened in log ==> CursorClosed in log || CursorCloseFailed in log)
            && (CursorRegistered in log ==> ReleaseAttempted in log)
  {
    ReachableOk(cfg, w);
    TaskFacts(cfg, w, id);
    hide Inv;
    hide Due;
    hide Lookup;
    hide OnPath;
  }

  /** Mutual exclusion: at most one connection is open, and the lock is free exactly when no worker
      is inside the execution. */
  lemma OneExecutionAtATime(cfg: Config, w: World)
    requires ValidConfig(cfg) && Reachable(cfg, w)
    ensures forall id, other ::
              id in w.tasks && other in w.tasks && HoldsLock(w.tasks[id].phase) && HoldsLock(w.tasks[other].phase)
              ==> id == other
    ensures forall id :: id in w.tasks && ConnectionOpen(w.tasks[id].phase) ==> w.lock == Some(id)
    ensures w.lock.None? <==> forall id :: id in w.tasks ==> !HoldsLock(w.tasks[id].phase)
  {
    ReachableOk(cfg, w);
    forall id | id in w.tasks
      ensures HoldsLock(w.tasks[id].phase) <==> w.lock == Some(id)
    {
      TaskFacts(cfg, w, id);
    }
    assert w.lock.Some? ==> w.lock.value in w.tasks;
    hide Inv;
    hide HoldsLock;
    hide Reachable;
    ConnectionNeedsLock(w);
  }

  lemma ConnectionNeedsLock(w: World)
    ensures forall id :: id in w.tasks && ConnectionOpen(w.tasks[id].phase) ==> HoldsLock(w.tasks[id].phase)
  {
  }

  /** Exactly when an accepted request is turned away for the lock: another worker is inside its execution
      when this one asks. It then ends without having opened anything. */
  lemma LockRefusedIff(cfg: Config, w: World, id: RequestId, reply: Reply, now: int)
    requires ValidConfig(cfg) && Reachable(cfg, w) && Enabled(cfg, w, Advance(id, reply, now))
    requires id in w.tasks && w.tasks[id].phase.Locking?
    ensures reply.Failed? <==> exists other :: other in w.tasks && other != id && HoldsLock(w.tasks[other].phase)
    ensures Defined(w, Advance(id, reply, now))
    ensures var t := Next(cfg, w, Advance(id, reply, now)).tasks;
            id in t && (reply.Failed? ==> t[id].phase == Finished(Raised) && t[id].log == [LockBusy])
  {
    var a := Advance(id, reply, now);
    hide Reachable;
    hide Inv;
    OneExecutionAtATime(cfg, w);
    ReachableOk(cfg, w);
    TaskFacts(cfg, w, id);
    EnabledIsDefined(cfg, w, a);
    LockDecides(cfg, w, a);
    SubjectTask(cfg, w, a, id);
    hide Enabled;
    hide Next;
    hide Balanced;
  }

  lemma LockDecides(cfg: Config, w: World, a: Action)
    requires Enabled(cfg, w, a) && a.Advance? && a.id in w.tasks && w.tasks[a.id].phase.Locking?
    ensures (a.reply.Ok? <==> w.lock.None?) && (a.reply.Ok? || a.reply.Failed?)
  {
    hide R.Enabled;
  }

  /** Every cursor ever registered is in exactly one place: attached to a pending record, queued for
      cancellation, cancelled once, or let go; so none is cancelled twice and none that was let go
      is ever cancelled. */
  lemma EachCursorInOnePlace(cfg: Config, w: World, cursor: CursorId)
    requires ValidConfig(cfg) && Reachable(cfg, w)
    ensures Attached(w.machine.table)[cursor] + multiset(Cursors(w.owed))[cursor] + w.cancelled[cursor] + w.letGo[cursor]
            == w.registered[cursor] <= 1
    ensures w.cancelled[cursor] <= 1
    ensures cursor in w.letGo ==> cursor !in w.cancelled && cursor !in Cursors(w.owed) && cursor !in Attached(w.machine.table)
  {
    ReachableOk(cfg, w);
    assert Conserved(w);
    hide Inv;
    hide Attached;
    hide Cursors;
    hide Reachable;
    var all := Attached(w.machine.table) + multiset(Cursors(w.owed)) + w.cancelled + w.letGo;
    assert all[cursor] == w.registered[cursor];
    assert cursor in w.registered ==> w.registered[cursor] == 1;
  }

  /** The executor releases before it publishes: publication never finds a cursor to drop. */
  lemma PublicationDropsNothing(cfg: Config, w: World, id: RequestId, now: int)
    requires ValidConfig(cfg) && Reachable(cfg, w) && Enabled(cfg, w, PublishResult(id, now))
    ensures Lookup(w.machine.table, id).Some? ==> Lookup(w.machine.table, id).value.cursor == None
    ensures Next(cfg, w, PublishResult(id, now)).letGo == w.letGo
  {
    hide *;
    var a := PublishResult(id, now);
    ReachableOk(cfg, w);
    PublishesOwn(w, id, now);
    SubjectFacts(cfg, w, a, id);
    SettlingHoldsNoCursor(w, id);
    NothingLetGo(w.machine.table, BrokerCall(w, a).value);
    LetGoByCall(cfg, w, a);
  }

  lemma PublishesOwn(w: World, id: RequestId, now: int)
    ensures var a := PublishResult(id, now);
            && Subject(w, a) == Some(id)
            && (id in w.tasks && TaskGuard(w.tasks[id], a) ==>
                  w.tasks[id].run.Settling? && BrokerCall(w, a) == Some(Publish(id, w.tasks[id].run.source, now)))
  {
  }

  lemma SettlingHoldsNoCursor(w: World, id: RequestId)
    requires id in w.tasks && TaskOk(w, id) && w.tasks[id].run.Settling?
    ensures Lookup(w.machine.table, id).Some? ==> Lookup(w.machine.table, id).value.cursor == None
  {
    hide Lookup;
    hide Accounts;
    hide OwedBy;
    hide Due;
    hide AttachedTo;
    assert Armed(w.tasks[id].phase).None?;
  }

  lemma LetGoByCall(cfg: Config, w: World, a: Action)
    requires Defined(w, a) && BrokerCall(w, a).Some?
    ensures Next(cfg, w, a).letGo == w.letGo + LetGo(w.machine.table, BrokerCall(w, a).value)
  {
    hide Apply;
    hide LetGo;
    hide BrokerCall;
    hide TasksAfter;
    hide LoopAfter;
    hide LockAfter;
    hide WaitingAfter;
  }

  lemma NothingLetGo(table: Table, call: Call)
    requires call.Publish? && (Lookup(table, call.id).Some? ==> Lookup(table, call.id).value.cursor == None)
    ensures LetGo(table, call) == multiset{}
  {
  }

  /** Once some close() has returned: every run has ended, no record is PENDING, no cursor is
      attached, no connection is open and the lock is free; and a later submission changes nothing. */
  lemma QuiescentAfterClose(cfg: Config, w: World)
    requires ValidConfig(cfg) && Reachable(cfg, w) && w.returned
    ensures forall id :: id in w.tasks ==>
              w.tasks[id].run.Ended? && !ConnectionOpen(w.tasks[id].phase) && !HoldsLock(w.tasks[id].phase)
    ensures forall id :: !PendingRecord(Lookup(w.machine.table, id))
    ensures forall i :: 0 <= i < |w.machine.table| ==> w.machine.table[i].cursor == None
    ensures w.lock == None
    ensures w.closed && forall ttl, readings, now, tokens :: Next(cfg, w, Action.Submit(ttl, readings, now, tokens)) == w
  {
    ReachableOk(cfg, w);
    hide Reachable;
    assert ShutdownOk(w);
    forall id | id in w.tasks
      ensures w.tasks[id].run.Ended? && !ConnectionOpen(w.tasks[id].phase) && !HoldsLock(w.tasks[id].phase)
    {
      TaskFacts(cfg, w, id);
    }
    NobodyLeft(cfg, w);
    if w.lock.Some? { LockNeedsHolder(cfg, w); }
    RefusedWhenClosed(cfg, w);
    hide Inv;
    hide Next;
    hide Lookup;
  }

  lemma NobodyLeft(cfg: Config, w: World)
    requires Inv(cfg, w) && forall id :: id in w.tasks ==> w.tasks[id].run.Ended?
    ensures forall id :: !PendingRecord(Lookup(w.machine.table, id))
    ensures forall i :: 0 <= i < |w.machine.table| ==> w.machine.table[i].cursor == None
  {
    forall id
      ensures !PendingRecord(Lookup(w.machine.table, id))
    {
      if Lookup(w.machine.table, id).Some? {
        HasTask(cfg, w, id);
        TaskFacts(cfg, w, id);
      }
    }
    R.OrderIsDistinct(w.machine.table, w.machine.issued);
    forall i | 0 <= i < |w.machine.table|
      ensures w.machine.table[i].cursor == None
    {
      LookupAt(w.machine.table, i);
      assert Shaped(w.machine.table[i]);
    }
  }

  lemma LockNeedsHolder(cfg: Config, w: World)
    requires Inv(cfg, w) && w.lock.Some?
    ensures w.lock.value in w.tasks && HoldsLock(w.tasks[w.lock.value].phase)
  {
    TaskFacts(cfg, w, w.lock.value);
  }

  /** After close() has begun, a submission is refused before it reaches the broker. */
  lemma RefusedWhenClosed(cfg: Config, w: World)
    requires w.closed
    ensures forall ttl, readings, now, tokens :: Next(cfg, w, Action.Submit(ttl, readings, now, tokens)) == w
  {
  }

  /** When close() returns, every cancellation still outstanding belongs to a caller outside the
      executor: the event loop and the worker threads have issued all of theirs. */
  lemma CloseHasPaid(cfg: Config, w: World, i: nat)
    requires ValidConfig(cfg) && Reachable(cfg, w) && Enabled(cfg, w, FinishClose(i))
    ensures forall j :: 0 <= j < |w.owed| ==> w.owed[j].actor == Outside
  {
    hide Inv;
    hide Enabled;
    hide Reachable;
    ReachableOk(cfg, w);
    FinishFacts(cfg, w, i);
    forall j | 0 <= j < |w.owed|
      ensures w.owed[j].actor == Outside
    {
      if w.owed[j].actor.Thread? {
        ThreadDebtor(cfg, w, j);
      }
    }
  }

  lemma FinishFacts(cfg: Config, w: World, i: nat)
    requires Inv(cfg, w) && Enabled(cfg, w, FinishClose(i))
    ensures Idle(w, EventLoop) && forall id :: id in w.tasks ==> w.tasks[id].run.Ended?
  {
    ShutdownNow(cfg, w);
    FinishGuard(cfg, w, i);
    hide Inv;
    hide Enabled;
    hide Idle;
  }

  lemma ShutdownNow(cfg: Config, w: World)
    requires Inv(cfg, w)
    ensures ShutdownOk(w)
  {
  }

  lemma FinishGuard(cfg: Config, w: World, i: nat)
    requires Enabled(cfg, w, FinishClose(i))
    ensures Idle(w, EventLoop) && i < |w.waiting|
    ensures forall id :: id in w.waiting[i] && id in w.tasks ==> w.tasks[id].run.Ended?
  {
  }

  lemma ThreadDebtor(cfg: Config, w: World, j: nat)
    requires Inv(cfg, w) && j < |w.owed| && w.owed[j].actor.Thread?
    ensures w.owed[j].actor.id in w.tasks && !w.tasks[w.owed[j].actor.id].run.Ended?
  {
    assert DebtsOk(w);
    TaskFacts(cfg, w, w.owed[j].actor.id);
  }
}
