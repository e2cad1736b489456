/** Runs of the runtime put together: one after the other, and a broker call followed by every
    cancellation it owes. */
module RuntimeRuns {
  import opened Wrappers
  import opened BrokerModel
  import opened BrokerProofs
  import R = BrokerRuns
  import opened Runtime
  import opened RuntimeInvariant

  /** Some run of enabled steps leads from `w` to `v`. */
  ghost predicate RunsTo(cfg: Config, w: World, v: World) {
    exists actions :: EnabledAll(cfg, w, actions) && Run(cfg, w, actions) == v
  }

  lemma {:induction false} RunAppend(cfg: Config, w: World, first: seq<Action>, more: seq<Action>)
    requires EnabledAll(cfg, w, first) && EnabledAll(cfg, Run(cfg, w, first), more)
    ensures EnabledAll(cfg, w, first + more) && Run(cfg, w, first + more) == Run(cfg, Run(cfg, w, first), more)
    decreases |first|
  {
    hide Enabled;
    hide Next;
    if first == [] {
      assert first + more == more;
    } else {
      EnabledIsDefined(cfg, w, first[0]);
      assert (first + more)[0] == first[0] && (first + more)[1..] == first[1..] + more;
      RunAppend(cfg, Next(cfg, w, first[0]), first[1..], more);
    }
  }

  lemma RunsThrough(cfg: Config, w: World, v: World, u: World)
    requires RunsTo(cfg, w, v) && RunsTo(cfg, v, u)
    ensures RunsTo(cfg, w, u)
  {
    hide EnabledAll;
    hide Run;
    var first :| EnabledAll(cfg, w, first) && Run(cfg, w, first) == v;
    var more :| EnabledAll(cfg, v, more) && Run(cfg, v, more) == u;
    RunAppend(cfg, w, first, more);
  }

  lemma RunsNowhere(cfg: Config, w: World)
    ensures RunsTo(cfg, w, w)
  {
    assert EnabledAll(cfg, w, []) && Run(cfg, w, []) == w;
  }

  lemma RunsOne(cfg: Config, w: World, a: Action)
    requires Enabled(cfg, w, a)
    ensures Defined(w, a) && RunsTo(cfg, w, Next(cfg, w, a))
  {
    EnabledIsDefined(cfg, w, a);
    var n := Next(cfg, w, a);
    hide Enabled;
    hide Next;
    assert [a][1..] == [];
    assert EnabledAll(cfg, n, []) && Run(cfg, n, []) == n;
    assert EnabledAll(cfg, w, [a]) && Run(cfg, w, [a]) == n;
  }

  lemma StillReachable(cfg: Config, w: World, v: World)
    requires Reachable(cfg, w) && RunsTo(cfg, w, v)
    ensures Reachable(cfg, v)
  {
    hide EnabledAll;
    hide Run;
    var first :| EnabledAll(cfg, START, first) && Run(cfg, START, first) == w;
    var more :| EnabledAll(cfg, w, more) && Run(cfg, w, more) == v;
    RunAppend(cfg, START, first, more);
  }

  // ----- paying at once -----

  /** The state once debts behind the first `kept` have been paid. */
  function Paid(w: World, kept: nat): World
    requires kept <= |w.owed|
  {
    w.(owed := w.owed[..kept], cancelled := w.cancelled + multiset(Cursors(w.owed[kept..])))
  }

  /** All debts from `kept` on are one actor's, and are next in its turn. */
  predicate Payable(w: World, kept: nat, actor: Actor) {
    && kept <= |w.owed|
    && (forall i :: kept <= i < |w.owed| ==> w.owed[i].actor == actor)
    && (actor.Outside? || forall i :: 0 <= i < kept ==> w.owed[i].actor != actor)
  }

  lemma PayOne(cfg: Config, w: World, kept: nat, actor: Actor)
    requires Payable(w, kept, actor) && kept < |w.owed|
    ensures Enabled(cfg, w, Deliver(kept))
    ensures var n := Next(cfg, w, Deliver(kept));
            Payable(n, kept, actor) && |n.owed| < |w.owed| && Paid(n, kept) == Paid(w, kept)
  {
    hide Next;
    hide Enabled;
    hide Cursors;
    hide Paid;
    DeliverOnly(cfg, w, kept);
    PaidAfterOne(w, kept, Next(cfg, w, Deliver(kept)));
  }

  lemma PaidAfterOne(w: World, kept: nat, n: World)
    requires kept < |w.owed|
    requires n == w.(owed := w.owed[..kept] + w.owed[kept + 1..], cancelled := w.cancelled + multiset{w.owed[kept].cursor})
    ensures Paid(n, kept) == Paid(w, kept)
  {
    hide Cursors;
    assert n.owed[..kept] == w.owed[..kept] && n.owed[kept..] == w.owed[kept + 1..] == w.owed[kept..][1..];
    FirstCursor(w.owed[kept..]);
    Regroup(w.cancelled, multiset{w.owed[kept].cursor}, multiset(Cursors(w.owed[kept + 1..])));
  }

  lemma Regroup<T>(a: multiset<T>, b: multiset<T>, c: multiset<T>)
    ensures (a + b) + c == a + (b + c)
  {
  }

  lemma DeliverOnly(cfg: Config, w: World, kept: nat)
    requires kept < |w.owed|
    requires w.owed[kept].actor.Outside? || forall i :: 0 <= i < kept ==> w.owed[i].actor != w.owed[kept].actor
    ensures Enabled(cfg, w, Deliver(kept)) && Defined(w, Deliver(kept))
    ensures Next(cfg, w, Deliver(kept))
            == w.(owed := w.owed[..kept] + w.owed[kept + 1..], cancelled := w.cancelled + multiset{w.owed[kept].cursor})
  {
  }

  lemma FirstCursor(owed: seq<Debt>)
    requires owed != []
    ensures multiset(Cursors(owed)) == multiset{owed[0].cursor} + multiset(Cursors(owed[1..]))
  {
    assert Cursors(owed) == [owed[0].cursor] + Cursors(owed[1..]);
  }

  lemma {:induction false} PayAll(cfg: Config, w: World, kept: nat, actor: Actor)
    requires Payable(w, kept, actor)
    ensures RunsTo(cfg, w, Paid(w, kept))
    decreases |w.owed|
  {
    if |w.owed| == kept {
      NothingToPay(w);
      RunsNowhere(cfg, w);
    } else {
      PayOne(cfg, w, kept, actor);
      RunsOne(cfg, w, Deliver(kept));
      hide *;
      PayAll(cfg, Next(cfg, w, Deliver(kept)), kept, actor);
      RunsThrough(cfg, w, Next(cfg, w, Deliver(kept)), Paid(w, kept));
    }
  }

  lemma NothingToPay(w: World)
    ensures Paid(w, |w.owed|) == w
  {
    assert w.owed[..|w.owed|] == w.owed && w.owed[|w.owed|..] == [] && Cursors([]) == [];
    assert w.cancelled + multiset(Cursors([])) == w.cancelled;
  }

  /** One step and, straight after it, every cancellation it owes. */
  function NextPaid(cfg: Config, w: World, a: Action): World
    requires Defined(w, a) && !a.Deliver?
  {
    OwedGrows(cfg, w, a);
    Paid(Next(cfg, w, a), |w.owed|)
  }

  lemma OwedGrows(cfg: Config, w: World, a: Action)
    requires Defined(w, a) && !a.Deliver?
    ensures w.owed <= Next(cfg, w, a).owed
    ensures forall i :: |w.owed| <= i < |Next(cfg, w, a).owed| ==> Next(cfg, w, a).owed[i].actor == ActorOf(a)
  {
    hide Apply;
    hide TasksAfter;
    hide LoopAfter;
  }

  lemma PayingIsARun(cfg: Config, w: World, a: Action)
    requires Enabled(cfg, w, a) && !a.Deliver?
    ensures Defined(w, a) && RunsTo(cfg, w, NextPaid(cfg, w, a)) && NextPaid(cfg, w, a).owed == w.owed
  {
    hide Next;
    hide Enabled;
    hide RunsTo;
    hide Payable;
    RunsOne(cfg, w, a);
    NextIsPayable(cfg, w, a);
    PayAll(cfg, Next(cfg, w, a), |w.owed|, ActorOf(a));
    RunsThrough(cfg, w, Next(cfg, w, a), NextPaid(cfg, w, a));
  }

  lemma NextIsPayable(cfg: Config, w: World, a: Action)
    requires Enabled(cfg, w, a) && Defined(w, a) && !a.Deliver?
    ensures |w.owed| <= |Next(cfg, w, a).owed|
    ensures Payable(Next(cfg, w, a), |w.owed|, ActorOf(a)) && Paid(Next(cfg, w, a), |w.owed|).owed == w.owed
  {
    hide Next;
    hide Enabled;
    hide Defined;
    hide Cursors;
    OwedGrows(cfg, w, a);
    EnabledIsIdle(cfg, w, a);
  }

  lemma EnabledIsIdle(cfg: Config, w: World, a: Action)
    requires Enabled(cfg, w, a)
    ensures Idle(w, ActorOf(a))
  {
  }
}
