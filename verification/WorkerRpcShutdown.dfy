/** When a failed client leaves a load unsettled, over whole runs: never with a worker that reports
    itself destroyed only when it was asked to stop, and for arbitrary messages in exactly one case. */
module WorkerRpcShutdown {
  import opened Wrappers
  import opened WorkerRpc
  import opened WorkerRpcProofs

  // ----- runs in parts -----

  lemma {:induction false} PrefixEnabled(c: Client, events: seq<Event>, i: nat)
    requires EnabledAll(c, events) && i <= |events|
    ensures EnabledAll(c, events[..i])
    decreases |events|
  {
    hide Next;
    hide Enabled;
    if i > 0 {
      PrefixEnabled(Next(c, events[0]), events[1..], i - 1);
      assert events[..i][1..] == events[1..][..i - 1];
    }
  }

  lemma {:induction false} RunSnoc(c: Client, front: seq<Event>, e: Event)
    requires EnabledAll(c, front + [e])
    ensures EnabledAll(c, front) && Enabled(Run(c, front), e) && Run(c, front + [e]) == Next(Run(c, front), e)
    decreases |front|
  {
    hide Next;
    hide Enabled;
    if front == [] {
      assert [e][1..] == [] && [] + [e] == [e];
    } else {
      assert (front + [e])[0] == front[0] && (front + [e])[1..] == front[1..] + [e];
      RunSnoc(Next(c, front[0]), front[1..], e);
    }
  }

  /** The client just before event `i` of a run. */
  ghost function At(events: seq<Event>, i: nat): Client
    requires EnabledAll(STARTED, events) && i <= |events|
  {
    PrefixEnabled(STARTED, events, i);
    Run(STARTED, events[..i])
  }

  // ----- a worker that stops when asked -----

  predicate AskedToStop(c: Client) {
    DestroyRequest in c.posted || AbortRequest in c.posted
  }

  /** Every "destroyed" answers a destroy or abort request posted before it. */
  ghost predicate Answering(events: seq<Event>)
    requires EnabledAll(STARTED, events)
  {
    forall i :: 0 <= i < |events| && events[i] == OnMessage(Destroyed) ==> AskedToStop(At(events, i))
  }

  predicate ReadyOnceStopped(c: Client) {
    (AskedToStop(c) ==> c.ready) && (c.failed ==> c.ready)
  }

  lemma StepReady(c: Client, e: Event)
    requires ReadyOnceStopped(c) && Enabled(c, e) && (e == OnMessage(Destroyed) ==> AskedToStop(c))
    ensures ReadyOnceStopped(Next(c, e))
  {
    hide Rejections;
    hide FindReply;
    assert c.posted + [] == c.posted;
  }

  lemma {:induction false} AnsweringIsReady(events: seq<Event>)
    requires EnabledAll(STARTED, events) && Answering(events)
    ensures ReadyOnceStopped(Run(STARTED, events))
    decreases |events|
  {
    hide Next;
    hide Enabled;
    if events != [] {
      var front, e := events[..|events| - 1], events[|events| - 1];
      assert events == front + [e];
      RunSnoc(STARTED, front, e);
      forall i | 0 <= i < |front| && front[i] == OnMessage(Destroyed) ensures AskedToStop(At(front, i)) {
        assert front[..i] == events[..i] && At(front, i) == At(events, i);
      }
      AnsweringIsReady(front);
      assert events[..|events| - 1] == front;
      StepReady(Run(STARTED, front), e);
    }
  }

  /** With such a worker no failure leaves a promise unsettled: all are settled at once, or the waiting
      load has been released and is rejected when it goes on. */
  lemma FailureSettlesAll(events: seq<Event>)
    requires EnabledAll(STARTED, events) && Answering(events) && Run(STARTED, events).failed
    ensures var c := Run(STARTED, events);
            if c.waiting.None? then Open(c) == multiset{}
            else Enabled(c, Resume) && Open(Next(c, Resume)) == multiset{}
  {
    AnsweringIsReady(events);
    StartedOk();
    RunKeeps(STARTED, events);
    FailedIsQuiet(Run(STARTED, events), OnError);
    hide *;
  }

  // ----- any worker at all -----

  function LoadCount(events: seq<Event>): nat {
    if events == [] then 0 else LoadCount(events[..|events| - 1]) + if events[|events| - 1].Load? then 1 else 0
  }

  /** A "destroyed" came before readiness, and no "ready" after it. */
  ghost predicate DestroyedUnready(events: seq<Event>)
    requires EnabledAll(STARTED, events)
  {
    exists i :: Fatal(events, i)
  }

  ghost predicate Fatal(events: seq<Event>, i: int)
    requires EnabledAll(STARTED, events)
  {
    && 0 <= i < |events| && events[i] == OnMessage(Destroyed) && !At(events, i).ready
    && forall j :: i < j < |events| ==> events[j] != OnMessage(ReadyMessage)
  }

  lemma DestroyedUnreadySnoc(front: seq<Event>, e: Event)
    requires EnabledAll(STARTED, front + [e]) && EnabledAll(STARTED, front)
    ensures DestroyedUnready(front + [e])
            <==> (DestroyedUnready(front) && e != OnMessage(ReadyMessage))
                 || (e == OnMessage(Destroyed) && !Run(STARTED, front).ready)
  {
    hide Run;
    hide EnabledAll;
    var events := front + [e];
    assert events[..|front|] == front;
    forall i | 0 <= i < |front| ensures At(events, i) == At(front, i) {
      assert events[..i] == front[..i];
    }
    if DestroyedUnready(events) {
      var i :| Fatal(events, i);
      if i < |front| {
        assert events[|front|] == e;
        assert forall j :: i < j < |front| ==> front[j] == events[j];
        assert Fatal(front, i);
      }
    }
    if DestroyedUnready(front) && e != OnMessage(ReadyMessage) {
      var i :| Fatal(front, i);
      assert Fatal(events, i);
    }
    if e == OnMessage(Destroyed) && !Run(STARTED, front).ready {
      assert Fatal(events, |front|);
    }
  }

  /** What a run has done to readiness and to the one load. */
  ghost predicate Traced(c: Client, loads: nat, unready: bool) {
    && (c.failed && !c.ready <==> unready && loads <= 1)
    && (c.loadStarted <==> loads >= 1)
    && (loads >= 2 ==> c.ready)
    && (!c.ready ==> (c.waiting.Some? <==> c.loadStarted))
  }

  lemma StepTraced(c: Client, e: Event, loads: nat, unready: bool)
    requires Traced(c, loads, unready) && Enabled(c, e)
    ensures Traced(Next(c, e), loads + (if e.Load? then 1 else 0),
                   (unready && e != OnMessage(ReadyMessage)) || (e == OnMessage(Destroyed) && !c.ready))
  {
    hide Rejections;
    hide FindReply;
  }

  lemma {:induction false} RunTraced(events: seq<Event>)
    requires EnabledAll(STARTED, events)
    ensures Traced(Run(STARTED, events), LoadCount(events), DestroyedUnready(events))
    decreases |events|
  {
    hide Next;
    hide Enabled;
    hide At;
    if events != [] {
      var front, e := events[..|events| - 1], events[|events| - 1];
      assert events == front + [e];
      RunSnoc(STARTED, front, e);
      RunTraced(front);
      DestroyedUnreadySnoc(front, e);
      StepTraced(Run(STARTED, front), e, LoadCount(front), DestroyedUnready(front));
    }
  }

  /** Failed, with a load that waits for a readiness that has not come. */
  predicate Stranded(c: Client) {
    c.failed && c.waiting.Some? && !c.ready
  }

  /** Exactly when a run strands its load, whatever the worker sends: exactly one load was called for, a
      "destroyed" came before readiness, and no "ready" has come since. */
  lemma StrandedIff(events: seq<Event>)
    requires EnabledAll(STARTED, events)
    ensures Stranded(Run(STARTED, events)) <==> LoadCount(events) == 1 && DestroyedUnready(events)
  {
    RunTraced(events);
    hide Run;
    hide DestroyedUnready;
  }

  /** And a failed run leaves a promise that nothing but a further event could settle exactly when it is
      stranded. */
  lemma UnsettledIffStranded(events: seq<Event>)
    requires EnabledAll(STARTED, events) && Run(STARTED, events).failed
    ensures var c := Run(STARTED, events);
            !Stranded(c) <==> Open(c) == multiset{} || (Enabled(c, Resume) && Open(Next(c, Resume)) == multiset{})
  {
    StartedOk();
    RunKeeps(STARTED, events);
    FailedIsQuiet(Run(STARTED, events), OnError);
    hide Run;
    var c := Run(STARTED, events);
    if c.waiting.Some? {
      assert Open(c)[c.waiting.value.promise] > 0;
    }
  }

  // ----- what is shown -----

  function TimesReady(shown: seq<Shown>): nat {
    if shown == [] then 0 else TimesReady(shown[..|shown| - 1]) + if shown[|shown| - 1].ShownReady? then 1 else 0
  }

  function ReadyMessages(events: seq<Event>): nat {
    if events == [] then 0
    else ReadyMessages(events[..|events| - 1]) + if events[|events| - 1] == OnMessage(ReadyMessage) then 1 else 0
  }

  lemma TimesReadySnoc(shown: seq<Shown>, s: Shown)
    ensures TimesReady(shown + [s]) == TimesReady(shown) + if s.ShownReady? then 1 else 0
  {
    assert (shown + [s])[..|shown|] == shown;
  }

  lemma StepShows(c: Client, e: Event)
    requires Enabled(c, e)
    ensures TimesReady(Next(c, e).shown) == TimesReady(c.shown) + if e == OnMessage(ReadyMessage) then 1 else 0
  {
    TimesReadySnoc(c.shown, ShownReady);
    TimesReadySnoc(c.shown, ShownFailed);
    hide TimesReady;
    hide Rejections;
    hide FindReply;
  }

  /** Readiness is shown once for every "ready" message, also for one that comes after failure. */
  lemma {:induction false} ReadyShownPerMessage(events: seq<Event>)
    requires EnabledAll(STARTED, events)
    ensures TimesReady(Run(STARTED, events).shown) == ReadyMessages(events)
    decreases |events|
  {
    hide Next;
    hide Enabled;
    if events != [] {
      var front, e := events[..|events| - 1], events[|events| - 1];
      assert events == front + [e];
      RunSnoc(STARTED, front, e);
      ReadyShownPerMessage(front);
      StepShows(Run(STARTED, front), e);
    }
  }

  /** So a client that was destroyed can still be shown as ready. */
  lemma ReadyAfterDestroy()
    ensures var events := [Destroy, OnMessage(ReadyMessage)];
            EnabledAll(STARTED, events) && Run(STARTED, events).failed && Run(STARTED, events).shown == [ShownReady]
  {
    var events := [Destroy, OnMessage(ReadyMessage)];
    assert events[1..] == [OnMessage(ReadyMessage)] && events[1..][1..] == [];
    var stopped := Next(STARTED, Destroy);
    assert stopped.failed && stopped.shown == [];
    var shown := Next(stopped, OnMessage(ReadyMessage));
    assert shown.shown == [ShownReady];
    assert EnabledAll(shown, []) && Run(shown, []) == shown;
    assert EnabledAll(stopped, events[1..]) && Run(stopped, events[1..]) == shown;
  }
}
