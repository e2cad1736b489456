/** The broker over whole runs: any sequence of operations whose clock readings never go back and
    whose request tokens never repeat. */
module BrokerRuns {
  import opened Wrappers
  import opened BrokerModel
  import opened BrokerProofs

  /** The record table, the latest clock reading, and every identifier handed out, in order. */
  datatype Machine = Machine(table: Table, clock: int, issued: seq<RequestId>)

  const EMPTY: Machine := Machine([], 0, [])

  function Readings(call: Call): seq<int> {
    match call
    case Submit(_, readings, now, _) => readings + [now]
    case List(readings) => readings
    case _ => [call.now]
  }

  ghost predicate Timely(clock: int, readings: seq<int>) {
    && (forall i :: 0 <= i < |readings| ==> clock <= readings[i])
    && (forall i, j :: 0 <= i <= j < |readings| ==> readings[i] <= readings[j])
  }

  function Latest(clock: int, readings: seq<int>): int {
    if readings == [] then clock else readings[|readings| - 1]
  }

  ghost predicate Enabled(cfg: Config, m: Machine, call: Call) {
    && Applicable(m.table, call)
    && Timely(m.clock, Readings(call))
    && (Issued(cfg, m.table, call).Some? ==> Issued(cfg, m.table, call).value !in m.issued)
  }

  function Next(cfg: Config, m: Machine, call: Call): Machine
    requires Applicable(m.table, call)
  {
    var handedOut := Issued(cfg, m.table, call);
    Machine(Apply(cfg, m.table, call).table,
            Latest(m.clock, Readings(call)),
            if handedOut.Some? then m.issued + [handedOut.value] else m.issued)
  }

  ghost predicate EnabledAll(cfg: Config, m: Machine, calls: seq<Call>)
    decreases |calls|
  {
    calls == [] || (Enabled(cfg, m, calls[0]) && EnabledAll(cfg, Next(cfg, m, calls[0]), calls[1..]))
  }

  ghost function Run(cfg: Config, m: Machine, calls: seq<Call>): Machine
    requires EnabledAll(cfg, m, calls)
    decreases |calls|
  {
    if calls == [] then m else Run(cfg, Next(cfg, m, calls[0]), calls[1..])
  }

  // ----- submission order -----

  function Position(issued: seq<RequestId>, id: RequestId): (k: nat)
    ensures k <= |issued|
    ensures k < |issued| ==> issued[k] == id
    ensures id in issued <==> k < |issued|
  {
    if issued == [] then 0 else if issued[0] == id then 0 else 1 + Position(issued[1..], id)
  }

  lemma {:induction false} PositionSnoc(issued: seq<RequestId>, last: RequestId, id: RequestId)
    ensures id in issued ==> Position(issued + [last], id) == Position(issued, id)
    ensures id !in issued && id == last ==> Position(issued + [last], id) == |issued|
  {
    if issued != [] {
      assert (issued + [last])[1..] == issued[1..] + [last];
      PositionSnoc(issued[1..], last, id);
    }
  }

  /** The table lists issued identifiers in the order they were issued. */
  ghost predicate InOrder(table: Table, issued: seq<RequestId>) {
    && (forall i :: 0 <= i < |table| ==> table[i].id in issued)
    && (forall i, j :: 0 <= i < j < |table| ==> Position(issued, table[i].id) < Position(issued, table[j].id))
  }

  ghost predicate DeadlinesBounded(cfg: Config, m: Machine) {
    forall i :: 0 <= i < |m.table| ==> m.table[i].expiresAt <= m.clock + cfg.maximumTtl
  }

  /** What every reachable broker satisfies. */
  ghost predicate WellKept(cfg: Config, m: Machine) {
    && AllShaped(m.table)
    && WithinCapacity(cfg, m.table)
    && InOrder(m.table, m.issued)
    && DeadlinesBounded(cfg, m)
  }

  lemma OrderIsDistinct(table: Table, issued: seq<RequestId>)
    requires InOrder(table, issued)
    ensures Distinct(table)
  {
    forall i, j | 0 <= i < j < |table| ensures table[i].id != table[j].id {
      assert Position(issued, table[i].id) < Position(issued, table[j].id);
    }
  }

  /** How an operation rearranges the table: same identifiers and deadlines in place, at most one
      record gone, at most one appended. */
  ghost predicate Rearranged(before: Table, after: Table) {
    && |before| == |after|
    && forall i :: 0 <= i < |before| ==> before[i].id == after[i].id && before[i].expiresAt == after[i].expiresAt
  }

  lemma OrderKept(before: Table, after: Table, issued: seq<RequestId>)
    requires InOrder(before, issued) && Rearranged(before, after)
    ensures InOrder(after, issued)
  {
  }

  lemma OrderWithout(table: Table, k: nat, issued: seq<RequestId>)
    requires InOrder(table, issued) && k < |table|
    ensures InOrder(Without(table, k), issued)
  {
    var rest := Without(table, k);
    assert forall i :: 0 <= i < |rest| ==> rest[i] == table[if i < k then i else i + 1];
  }

  lemma OrderSnoc(table: Table, issued: seq<RequestId>, r: Record)
    requires InOrder(table, issued) && r.id !in issued
    ensures InOrder(table + [r], issued + [r.id])
  {
    var longer := table + [r];
    forall i | 0 <= i < |longer|
      ensures Position(issued + [r.id], longer[i].id) == if i < |table| then Position(issued, table[i].id) else |issued|
      ensures longer[i].id in issued + [r.id]
    {
      PositionSnoc(issued, r.id, longer[i].id);
    }
    assert forall i :: 0 <= i < |table| ==> Position(issued, table[i].id) < |issued|;
  }

  lemma SubmitOrder(cfg: Config, m: Machine, call: Call)
    requires WellKept(cfg, m) && call.Submit? && Enabled(cfg, m, call) && cfg.maximumTtl > 0
    ensures InOrder(Next(cfg, m, call).table, Next(cfg, m, call).issued)
    ensures DeadlinesBounded(cfg, Next(cfg, m, call))
  {
    OrderIsDistinct(m.table, m.issued);
    AcceptedTable(cfg, m.table, call);
    ExpiredOrder(cfg, m, call);
    var effect := Apply(cfg, m.table, call);
    var expired := ExpireAll(m.table, call.readings);
    var n := Next(cfg, m, call);
    assert n.table == effect.table && n.clock == call.now;
    if effect.answer.OneView? {
      assert n.issued == m.issued + [effect.answer.view.id] && effect.answer.view.id !in m.issued;
      hide Apply;
      hide Enabled;
      hide WellKept;
      hide Next;
      hide ExpireAll;
      AppendedOrder(cfg, m, expired, effect.table, call.now);
    } else {
      assert n.issued == m.issued;
      hide Apply;
      hide ExpireAll;
    }
  }

  lemma ExpiredOrder(cfg: Config, m: Machine, call: Call)
    requires WellKept(cfg, m) && call.Submit? && Enabled(cfg, m, call)
    ensures Readings(call)[|call.readings|] == call.now >= m.clock
    ensures InOrder(ExpireAll(m.table, call.readings), m.issued)
    ensures forall i :: 0 <= i < |m.table| ==> ExpireAll(m.table, call.readings)[i].expiresAt <= call.now + cfg.maximumTtl
    ensures forall i :: 0 <= i < |m.table| ==> m.table[i].expiresAt <= call.now + cfg.maximumTtl
  {
    var expired := ExpireAll(m.table, call.readings);
    assert Readings(call)[|call.readings|] == call.now;
    hide Applicable;
    hide Issued;
    assert Rearranged(m.table, expired);
    OrderKept(m.table, expired, m.issued);
    hide InOrder;
  }

  lemma AppendedOrder(cfg: Config, m: Machine, expired: Table, after: Table, now: int)
    requires InOrder(expired, m.issued) && |after| > 0 && cfg.maximumTtl > 0
    requires forall i :: 0 <= i < |expired| ==> expired[i].expiresAt <= now + cfg.maximumTtl
    requires after[|after| - 1].id !in m.issued && after[|after| - 1].expiresAt <= now + cfg.maximumTtl
    requires after[..|after| - 1] == expired
             || (OldestTerminal(expired) < |expired| && after[..|after| - 1] == Without(expired, OldestTerminal(expired)))
    ensures InOrder(after, m.issued + [after[|after| - 1].id])
    ensures forall i :: 0 <= i < |after| ==> after[i].expiresAt <= now + cfg.maximumTtl
  {
    hide InOrder;
    hide OldestTerminal;
    var n := |after| - 1;
    if after[..n] != expired {
      OrderWithout(expired, OldestTerminal(expired), m.issued);
    }
    OrderSnoc(after[..n], m.issued, after[n]);
    assert after == after[..n] + [after[n]];
    AppendedDeadlines(expired, after, now + cfg.maximumTtl);
  }

  lemma AppendedDeadlines(expired: Table, after: Table, limit: int)
    requires |after| > 0
    requires forall i :: 0 <= i < |expired| ==> expired[i].expiresAt <= limit
    requires after[|after| - 1].expiresAt <= limit
    requires after[..|after| - 1] == expired
             || (OldestTerminal(expired) < |expired| && after[..|after| - 1] == Without(expired, OldestTerminal(expired)))
    ensures forall i :: 0 <= i < |after| ==> after[i].expiresAt <= limit
  {
    hide OldestTerminal;
    var front := after[..|after| - 1];
    forall i | 0 <= i < |after| - 1 ensures after[i].expiresAt <= limit {
      assert after[i] == front[i];
      if front != expired {
        assert front[i] == expired[if i < OldestTerminal(expired) then i else i + 1];
      }
    }
  }

  /** One operation keeps everything a reachable broker satisfies. */
  lemma StepKeeps(cfg: Config, m: Machine, call: Call)
    requires ValidConfig(cfg) && WellKept(cfg, m) && Enabled(cfg, m, call)
    ensures WellKept(cfg, Next(cfg, m, call)) && m.clock <= Next(cfg, m, call).clock
  {
    hide Apply;
    ApplyShaped(cfg, m.table, call);
    ApplyCapacity(cfg, m.table, call);
    OrderIsDistinct(m.table, m.issued);
    if call.Submit? {
      SubmitOrder(cfg, m, call);
    } else {
      ApplyRearranges(cfg, m.table, call);
      OrderKept(m.table, Apply(cfg, m.table, call).table, m.issued);
    }
    hide *;
  }

  lemma ApplyRearranges(cfg: Config, table: Table, call: Call)
    requires Applicable(table, call) && !call.Submit?
    ensures Rearranged(table, Apply(cfg, table, call).table)
  {
  }

  /** Capacity, record shape, submission order and deadlines hold throughout every run. */
  lemma {:induction false} RunKeeps(cfg: Config, m: Machine, calls: seq<Call>)
    requires ValidConfig(cfg) && WellKept(cfg, m) && EnabledAll(cfg, m, calls)
    ensures WellKept(cfg, Run(cfg, m, calls)) && m.clock <= Run(cfg, m, calls).clock
    decreases |calls|
  {
    hide WellKept;
    hide Next;
    if calls != [] {
      StepKeeps(cfg, m, calls[0]);
      RunKeeps(cfg, Next(cfg, m, calls[0]), calls[1..]);
    }
  }

  lemma EmptyKept(cfg: Config)
    requires ValidConfig(cfg)
    ensures WellKept(cfg, EMPTY)
  {
  }
}
