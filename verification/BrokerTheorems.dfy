/** What callers of the broker may rely on over any run. */
module BrokerTheorems {
  import opened Wrappers
  import opened BrokerModel
  import opened BrokerProofs
  import opened BrokerRuns

  // ----- lifecycle -----

  /** One request before and after: gone stays gone, deadlines are fixed, statuses move forward. */
  predicate Aged(before: Option<Record>, after: Option<Record>) {
    && (before.None? ==> after.None?)
    && (before.Some? && after.Some? ==> Evolved(before.value, after.value))
  }

  lemma RecordAges(before: Record, call: Call, now: int)
    requires !call.Submit? && !call.List?
    ensures Evolved(before, OnRecord(before, call, now).record)
  {
  }

  lemma StepAges(cfg: Config, m: Machine, call: Call, id: RequestId)
    requires ValidConfig(cfg) && WellKept(cfg, m) && Enabled(cfg, m, call) && id in m.issued
    ensures Aged(Lookup(m.table, id), Lookup(Next(cfg, m, call).table, id)) && id in Next(cfg, m, call).issued
  {
    OrderIsDistinct(m.table, m.issued);
    if Target(call) == Some(id) {
      var k := Find(m.table, id);
      if k < |m.table| {
        LookupUpdate(m.table, k, OnRecord(m.table[k], call, call.now).record, id);
        RecordAges(m.table[k], call, call.now);
      }
    } else {
      ApplyLookup(cfg, m.table, call, id);
    }
  }

  /** Over any run, a request's status only moves PENDING to anything or COMPLETE to CANCELLED or
      EXPIRED, its deadline never changes, and once evicted it never reappears. */
  lemma {:induction false} RunAges(cfg: Config, m: Machine, calls: seq<Call>, id: RequestId)
    requires ValidConfig(cfg) && WellKept(cfg, m) && EnabledAll(cfg, m, calls) && id in m.issued
    ensures Aged(Lookup(m.table, id), Lookup(Run(cfg, m, calls).table, id)) && id in Run(cfg, m, calls).issued
    decreases |calls|
  {
    hide Lookup;
    hide Next;
    hide WellKept;
    if calls != [] {
      StepAges(cfg, m, calls[0], id);
      StepKeeps(cfg, m, calls[0]);
      RunAges(cfg, Next(cfg, m, calls[0]), calls[1..], id);
    }
  }

  /** The views an answer shows. */
  function Shown(answer: Answer): seq<View> {
    match answer
    case OneView(view) => [view]
    case Views(views) => views
    case _ => []
  }

  /** Every answer is about the table the operation leaves behind: nothing stale is ever shown. */
  lemma AnswersAreCurrent(cfg: Config, m: Machine, call: Call)
    requires ValidConfig(cfg) && WellKept(cfg, m) && Enabled(cfg, m, call)
    ensures var answer := Apply(cfg, m.table, call).answer;
            var after := Next(cfg, m, call);
            && (forall view :: view in Shown(answer) ==>
                  view.id in after.issued && Lookup(after.table, view.id).Some?
                  && Lookup(after.table, view.id).value.AsView() == view)
            && (answer.Source? ==>
                  && call.Open? && Lookup(after.table, call.id).Some?
                  && Lookup(after.table, call.id).value.status.Complete?
                  && Lookup(after.table, call.id).value.source == Some(answer.source))
  {
    hide Apply;
    var after := Next(cfg, m, call);
    if call.Submit? {
      SubmitAnswer(cfg, m, call);
    } else if call.List? {
      ListAnswer(cfg, m.table, call);
      var views := Apply(cfg, m.table, call).answer.views;
      forall view | view in Shown(Apply(cfg, m.table, call).answer)
        ensures view.id in after.issued && Lookup(after.table, view.id).Some?
                && Lookup(after.table, view.id).value.AsView() == view
      {
        var i :| 0 <= i < |views| && views[i] == view;
        ListedFromTable(cfg, m, call, i);
      }
    } else {
      OneAnswer(cfg, m, call);
    }
  }

  lemma ListAnswer(cfg: Config, table: Table, call: Call)
    requires Applicable(table, call) && call.List?
    ensures var effect := Apply(cfg, table, call);
            && effect.answer.Views? && |effect.answer.views| == |effect.table| == |table|
            && forall i :: 0 <= i < |table| ==> effect.answer.views[i] == effect.table[|table| - 1 - i].AsView()
  {
  }

  lemma OneAnswer(cfg: Config, m: Machine, call: Call)
    requires WellKept(cfg, m) && Enabled(cfg, m, call) && !call.Submit? && !call.List?
    ensures var answer := Apply(cfg, m.table, call).answer;
            var after := Next(cfg, m, call);
            var now := Lookup(after.table, call.id);
            && (answer.OneView? ==>
                  answer.view.id == call.id && call.id in after.issued && now.Some? && now.value.AsView() == answer.view)
            && (answer.Source? ==>
                  call.Open? && now.Some? && now.value.status.Complete? && now.value.source == Some(answer.source))
            && !answer.Views?
  {
    OrderIsDistinct(m.table, m.issued);
    var k := Find(m.table, call.id);
    hide WithinCapacity;
    hide AllShaped;
    hide DeadlinesBounded;
    if k < |m.table| {
      RecordAnswer(m.table[k], call, call.now);
      LookupUpdate(m.table, k, OnRecord(m.table[k], call, call.now).record, call.id);
      assert m.table[k].id in m.issued;
      hide OnRecord;
      hide InOrder;
    }
  }

  lemma RecordAnswer(before: Record, call: Call, now: int)
    requires !call.Submit? && !call.List?
    ensures var effect := OnRecord(before, call, now);
            && effect.record.id == before.id && !effect.answer.Views?
            && (effect.answer.OneView? ==> effect.answer.view == effect.record.AsView())
            && (effect.answer.Source? ==>
                  call.Open? && effect.record.status.Complete? && effect.record.source == Some(effect.answer.source))
  {
  }

  lemma SubmitAnswer(cfg: Config, m: Machine, call: Call)
    requires ValidConfig(cfg) && WellKept(cfg, m) && Enabled(cfg, m, call) && call.Submit?
    ensures var answer := Apply(cfg, m.table, call).answer;
            var after := Next(cfg, m, call);
            && (answer.OneView? || answer == Unavailable || answer == BadValue)
            && (answer.OneView? ==>
                  && answer.view.id in after.issued
                  && Lookup(after.table, answer.view.id).Some?
                  && Lookup(after.table, answer.view.id).value
                     == Record(answer.view.id, Pending, call.now + Min(call.ttl, cfg.maximumTtl), None, None)
                  && Lookup(after.table, answer.view.id).value.AsView() == answer.view)
  {
    OrderIsDistinct(m.table, m.issued);
    var answer := Apply(cfg, m.table, call).answer;
    if call.ttl > 0 {
      hide SubmitEffect;
      SubmitLookup(cfg, m.table, call.ttl, call.readings, call.now, call.tokens, if answer.OneView? then answer.view.id else 0);
    }
  }

  /** list_requests shows the whole table in reverse. */
  lemma ListedFromTable(cfg: Config, m: Machine, call: Call, i: nat)
    requires ValidConfig(cfg) && WellKept(cfg, m) && Enabled(cfg, m, call) && call.List?
    requires i < |m.table|
    ensures var views := Apply(cfg, m.table, call).answer.views;
            var after := Next(cfg, m, call);
            && |views| == |after.table|
            && views[i] == after.table[|after.table| - 1 - i].AsView()
            && views[i].id in after.issued
            && Lookup(after.table, views[i].id) == Some(after.table[|after.table| - 1 - i])
  {
    hide *;
    StepKeeps(cfg, m, call);
    NextTable(cfg, m, call);
    ListAnswer(cfg, m.table, call);
    KeptAt(cfg, Next(cfg, m, call), |m.table| - 1 - i);
  }

  lemma NextTable(cfg: Config, m: Machine, call: Call)
    requires Enabled(cfg, m, call)
    ensures Applicable(m.table, call) && Next(cfg, m, call).table == Apply(cfg, m.table, call).table
  {
    hide Apply;
  }

  lemma KeptAt(cfg: Config, m: Machine, k: nat)
    requires WellKept(cfg, m) && k < |m.table|
    ensures m.table[k].AsView().id == m.table[k].id
    ensures m.table[k].id in m.issued && Lookup(m.table, m.table[k].id) == Some(m.table[k])
  {
    OrderIsDistinct(m.table, m.issued);
    LookupAt(m.table, k);
    hide Lookup;
  }

  /** list_requests is in reverse submission order. */
  lemma ListIsNewestFirst(cfg: Config, m: Machine, call: Call)
    requires ValidConfig(cfg) && WellKept(cfg, m) && Enabled(cfg, m, call) && call.List?
    ensures var views := Apply(cfg, m.table, call).answer.views;
            && |views| == |m.table|
            && (forall id :: HasId(m.table, id) <==> exists i :: 0 <= i < |views| && views[i].id == id)
            && forall i, j :: 0 <= i < j < |views| ==> Position(m.issued, views[i].id) > Position(m.issued, views[j].id)
  {
    var views := Apply(cfg, m.table, call).answer.views;
    ListedIds(cfg, m.table, call);
    hide Apply;
    hide AllShaped;
    hide WithinCapacity;
    hide DeadlinesBounded;
    var n := |m.table|;
    forall id
      ensures HasId(m.table, id) <==> exists i :: 0 <= i < |views| && views[i].id == id
    {
      if HasId(m.table, id) {
        var k :| 0 <= k < n && m.table[k].id == id;
        assert views[n - 1 - k].id == id;
      }
    }
  }

  lemma ListedIds(cfg: Config, table: Table, call: Call)
    requires Applicable(table, call) && call.List?
    ensures var views := Apply(cfg, table, call).answer.views;
            |views| == |table| && forall i :: 0 <= i < |table| ==> views[i].id == table[|table| - 1 - i].id
  {
  }

  predicate Shows(answer: Answer, id: RequestId, status: Status) {
    exists i :: 0 <= i < |Shown(answer)| && Shown(answer)[i].id == id && Shown(answer)[i].status == status
  }

  /** Whatever two answers of one run say about a request, the later status is a legal successor of
      the earlier one. */
  lemma ObservedStatusesMoveForward(cfg: Config, m: Machine, first: Call, between: seq<Call>, last: Call,
                                    id: RequestId, earlier: Status, later: Status)
    requires ValidConfig(cfg) && WellKept(cfg, m)
    requires Enabled(cfg, m, first) && EnabledAll(cfg, Next(cfg, m, first), between)
    requires Enabled(cfg, Run(cfg, Next(cfg, m, first), between), last)
    requires Shows(Apply(cfg, m.table, first).answer, id, earlier)
    requires Shows(Apply(cfg, Run(cfg, Next(cfg, m, first), between).table, last).answer, id, later)
    ensures Moves(earlier, later)
  {
    hide *;
    NextTable(cfg, m, first);
    var m1 := Next(cfg, m, first);
    StepKeeps(cfg, m, first);
    ShownIsCurrent(cfg, m, first, id, earlier);
    var m2 := Run(cfg, m1, between);
    RunAges(cfg, m1, between, id);
    RunKeeps(cfg, m1, between);
    NextTable(cfg, m2, last);
    ShownIsCurrent(cfg, m2, last, id, later);
    StepAges(cfg, m2, last, id);
    AgedTwice(Lookup(m1.table, id), Lookup(m2.table, id), Lookup(Next(cfg, m2, last).table, id));
  }

  lemma ShownIsCurrent(cfg: Config, m: Machine, call: Call, id: RequestId, status: Status)
    requires ValidConfig(cfg) && WellKept(cfg, m) && Enabled(cfg, m, call) && Shows(Apply(cfg, m.table, call).answer, id, status)
    ensures var after := Next(cfg, m, call);
            id in after.issued && Lookup(after.table, id).Some? && Lookup(after.table, id).value.status == status
  {
    AnswersAreCurrent(cfg, m, call);
    hide Apply;
    hide Lookup;
    hide Next;
    hide WellKept;
    hide Enabled;
    var shown := Shown(Apply(cfg, m.table, call).answer);
    var i :| 0 <= i < |shown| && shown[i].id == id && shown[i].status == status;
    assert shown[i] in shown;
  }

  lemma AgedTwice(first: Option<Record>, second: Option<Record>, third: Option<Record>)
    requires Aged(first, second) && Aged(second, third) && first.Some? && third.Some?
    ensures Moves(first.value.status, third.value.status)
  {
  }

  // ----- deadlines -----

  /** The reading an operation made for the record behind a shown view. */
  function ReadingFor(call: Call, i: nat): int
    requires call.List? ==> i < |call.readings|
  {
    if call.List? then call.readings[|call.readings| - 1 - i] else call.now
  }

  /** No answer shows a request as PENDING or COMPLETE, and none hands out a source, at a reading
      at or past the request's deadline. */
  lemma NothingOverdueIsShown(cfg: Config, table: Table, call: Call)
    requires ValidConfig(cfg) && Applicable(table, call)
    ensures var answer := Apply(cfg, table, call).answer;
            forall i :: 0 <= i < |Shown(answer)| && (Shown(answer)[i].status.Pending? || Shown(answer)[i].status.Complete?)
                        ==> ReadingFor(call, i) < Shown(answer)[i].expiresAt
    ensures Apply(cfg, table, call).answer.Source? ==>
              call.now < table[Find(table, call.id)].expiresAt
  {
    match call
    case Submit(ttl, readings, now, tokens) =>
      if ttl > 0 {
        SubmitDeadline(cfg, table, call);
      }
    case List(readings) =>
      hide TakenAll;
    case _ =>
      var k := Find(table, call.id);
      if k < |table| {
        RecordDeadline(table[k], call, call.now);
        hide OnRecord;
      }
  }

  lemma SubmitDeadline(cfg: Config, table: Table, call: Call)
    requires ValidConfig(cfg) && Applicable(table, call) && call.Submit? && call.ttl > 0
    ensures Apply(cfg, table, call).answer.OneView? ==> call.now < Apply(cfg, table, call).answer.view.expiresAt
    ensures Apply(cfg, table, call).answer.OneView? || Apply(cfg, table, call).answer == Unavailable
  {
    hide ExpireAll;
    hide TakenAll;
    hide FirstFresh;
    hide MakeRoom;
    hide AtPendingCapacity;
  }

  lemma RecordDeadline(before: Record, call: Call, now: int)
    requires !call.Submit? && !call.List?
    ensures var answer := OnRecord(before, call, now).answer;
            && !answer.Views?
            && (answer.OneView? && (answer.view.status.Pending? || answer.view.status.Complete?) ==> now < answer.view.expiresAt)
            && (answer.Source? ==> now < before.expiresAt)
  {
  }

  // ----- capacity -----

  /** Only a successful submission into a full table removes a record, and then exactly the oldest
      FAILED, CANCELLED or EXPIRED one: every record listed before it is live, and none that is
      live after expiry disappears. */
  lemma EvictionIsOldestTerminal(cfg: Config, m: Machine, call: Call, id: RequestId)
    requires ValidConfig(cfg) && WellKept(cfg, m) && Enabled(cfg, m, call)
    requires Lookup(m.table, id).Some? && Lookup(Next(cfg, m, call).table, id).None?
    ensures call.Submit? && Apply(cfg, m.table, call).answer.OneView?
    ensures cfg.maximumRequests == Some(|m.table|) && |Next(cfg, m, call).table| == |m.table|
    ensures var expired := ExpireAll(m.table, call.readings);
            var k := Find(m.table, id);
            && !expired[k].Live()
            && (forall j :: 0 <= j < k ==> expired[j].Live())
            && (forall j :: 0 <= j < |m.table| && j != k ==> Lookup(Next(cfg, m, call).table, m.table[j].id) == Some(expired[j]))
  {
    OrderIsDistinct(m.table, m.issued);
    var handedOut := Issued(cfg, m.table, call);
    assert handedOut.Some? ==> !HasId(m.table, handedOut.value);
    assert Next(cfg, m, call).table == Apply(cfg, m.table, call).table;
    hide WellKept;
    hide Apply;
    hide Next;
    TableEviction(cfg, m.table, call, id);
  }

  lemma TableEviction(cfg: Config, table: Table, call: Call, id: RequestId)
    requires Distinct(table) && WithinCapacity(cfg, table) && Applicable(table, call)
    requires Issued(cfg, table, call).Some? ==> !HasId(table, Issued(cfg, table, call).value)
    requires Lookup(table, id).Some? && Lookup(Apply(cfg, table, call).table, id).None?
    ensures call.Submit? && Apply(cfg, table, call).answer.OneView?
    ensures cfg.maximumRequests == Some(|table|) && |Apply(cfg, table, call).table| == |table|
    ensures var expired := ExpireAll(table, call.readings);
            var k := Find(table, id);
            && !expired[k].Live()
            && (forall j :: 0 <= j < k ==> expired[j].Live())
            && (forall j :: 0 <= j < |table| && j != k ==> Lookup(Apply(cfg, table, call).table, table[j].id) == Some(expired[j]))
  {
    VanishedFromFull(cfg, table, call, id);
    var expired := ExpireAll(table, call.readings);
    var k := OldestTerminal(expired);
    var after := Apply(cfg, table, call).table;
    var r := after[|after| - 1];
    FindAt(table, k);
    LookupExpireAll(table, call.readings, id);
    hide Apply;
    hide Lookup;
    hide Without;
    forall j | 0 <= j < |table| && j != k
      ensures Lookup(after, table[j].id) == Some(expired[j])
    {
      assert r.id != table[j].id;
      ExpiredIds(table, call.readings, j);
      Survivor(expired, k, r, j);
    }
  }

  lemma VanishedFromFull(cfg: Config, table: Table, call: Call, id: RequestId)
    requires Distinct(table) && WithinCapacity(cfg, table) && Applicable(table, call)
    requires Issued(cfg, table, call).Some? ==> !HasId(table, Issued(cfg, table, call).value)
    requires Lookup(table, id).Some? && Lookup(Apply(cfg, table, call).table, id).None?
    ensures call.Submit? && Apply(cfg, table, call).answer.OneView?
    ensures cfg.maximumRequests == Some(|table|) && |Apply(cfg, table, call).table| == |table|
    ensures var expired := ExpireAll(table, call.readings);
            var k := OldestTerminal(expired);
            var after := Apply(cfg, table, call).table;
            var r := after[|after| - 1];
            && k < |expired| && table[k].id == id
            && after == Without(expired, k) + [r]
            && !HasId(Without(expired, k), r.id) && !HasId(table, r.id)
  {
    ApplyLookup(cfg, table, call, id);
    assert call.Submit?;
    assert call.ttl > 0;
    AcceptedTable(cfg, table, call);
    var effect := Apply(cfg, table, call);
    hide Apply;
    var expired := ExpireAll(table, call.readings);
    LookupExpireAll(table, call.readings, id);
    hide ExpireAll;
    assert effect.answer.OneView?;
    var n := |effect.table| - 1;
    var room, r := effect.table[..n], effect.table[n];
    assert effect.table == room + [r];
    LookupIff(table, id);
    LookupSnoc(room, r, id) by {
      if room != expired { LookupWithout(expired, OldestTerminal(expired), id); }
    }
    hide Lookup;
    assert room != expired;
    LookupWithout(expired, OldestTerminal(expired), id);
    ExpiredIds(table, call.readings, OldestTerminal(expired));
  }

  lemma ExpiredIds(table: Table, readings: seq<int>, k: nat)
    requires |readings| == |table| && k < |table|
    ensures ExpireAll(table, readings)[k].id == table[k].id
  {
  }

  lemma Survivor(expired: Table, k: nat, r: Record, j: nat)
    requires Distinct(expired) && k < |expired| && j < |expired| && j != k
    requires !HasId(Without(expired, k), r.id) && expired[j].id != r.id
    ensures Lookup(Without(expired, k) + [r], expired[j].id) == Some(expired[j])
  {
    LookupAt(expired, j);
    LookupWithout(expired, k, expired[j].id);
    LookupSnoc(Without(expired, k), r, expired[j].id);
  }

  /** The broker never wedges: at any time at least maximum_ttl after the last clock reading, every
      record has expired or ended, so a submission with a positive lifetime is accepted. */
  lemma NeverWedges(cfg: Config, m: Machine, call: Call)
    requires ValidConfig(cfg) && WellKept(cfg, m) && Enabled(cfg, m, call)
    requires call.Submit? && call.ttl > 0
    requires forall i :: 0 <= i < |call.readings| ==> call.readings[i] >= m.clock + cfg.maximumTtl
    ensures Apply(cfg, m.table, call).answer.OneView?
  {
    var expired := ExpireAll(m.table, call.readings);
    NobodyPending(expired);
    assert forall i :: 0 <= i < |expired| ==> !expired[i].Live();
    if cfg.maximumRequests.Some? && |expired| >= cfg.maximumRequests.value {
      assert OldestTerminal(expired) == 0;
    }
  }

  lemma {:induction false} NobodyPending(table: Table)
    requires forall i :: 0 <= i < |table| ==> !table[i].status.Pending?
    ensures PendingCount(table) == 0
  {
    if table != [] {
      NobodyPending(table[..|table| - 1]);
    }
  }

  // ----- cursors over runs -----

  ghost function Registered(calls: seq<Call>): multiset<CursorId> {
    if calls == [] then multiset{} else Arriving(calls[0]) + Registered(calls[1..])
  }

  /** Every driver cancellation issued along a run. */
  ghost function CancelCalls(cfg: Config, m: Machine, calls: seq<Call>): multiset<CursorId>
    requires EnabledAll(cfg, m, calls)
    decreases |calls|
  {
    if calls == [] then multiset{}
    else multiset(Apply(cfg, m.table, calls[0]).cancels) + CancelCalls(cfg, Next(cfg, m, calls[0]), calls[1..])
  }

  /** Every cursor released or dropped at publication along a run. */
  ghost function LetGoAlong(cfg: Config, m: Machine, calls: seq<Call>): multiset<CursorId>
    requires EnabledAll(cfg, m, calls)
    decreases |calls|
  {
    if calls == [] then multiset{}
    else LetGo(m.table, calls[0]) + LetGoAlong(cfg, Next(cfg, m, calls[0]), calls[1..])
  }

  lemma Telescope<T>(a0: multiset<T>, in0: multiset<T>, a1: multiset<T>, c0: multiset<T>, l0: multiset<T>,
                     ins: multiset<T>, a2: multiset<T>, cs: multiset<T>, ls: multiset<T>)
    requires a0 + in0 == a1 + c0 + l0
    requires a1 + ins == a2 + cs + ls
    ensures a0 + (in0 + ins) == a2 + (c0 + cs) + (l0 + ls)
  {
    assert a0 + (in0 + ins) == (a0 + in0) + ins == (a1 + c0 + l0) + ins == (a1 + ins) + c0 + l0
        == (a2 + cs + ls) + c0 + l0;
  }

  lemma {:induction false} RunConservesCursors(cfg: Config, m: Machine, calls: seq<Call>)
    requires ValidConfig(cfg) && WellKept(cfg, m) && EnabledAll(cfg, m, calls)
    ensures Attached(m.table) + Registered(calls)
         == Attached(Run(cfg, m, calls).table) + CancelCalls(cfg, m, calls) + LetGoAlong(cfg, m, calls)
    decreases |calls|
  {
    hide Attached;
    hide LetGo;
    hide Apply;
    if calls != [] {
      var m1 := Next(cfg, m, calls[0]);
      CursorsConserved(cfg, m.table, calls[0]);
      StepKeeps(cfg, m, calls[0]);
      hide WellKept;
      RunConservesCursors(cfg, m1, calls[1..]);
      Telescope(Attached(m.table), Arriving(calls[0]), Attached(m1.table), multiset(Apply(cfg, m.table, calls[0]).cancels),
                LetGo(m.table, calls[0]), Registered(calls[1..]), Attached(Run(cfg, m1, calls[1..]).table),
                CancelCalls(cfg, m1, calls[1..]), LetGoAlong(cfg, m1, calls[1..]));
    }
  }

  /** When every cursor object is registered once, each is, at the end of any run, in exactly one
      place: still attached, cancelled once, or let go; so no cursor is cancelled twice and one that
      was released while attached, or dropped at publication, is never cancelled. */
  lemma EachCursorInOnePlace(cfg: Config, calls: seq<Call>, cursor: CursorId)
    requires ValidConfig(cfg) && EnabledAll(cfg, EMPTY, calls)
    requires Registered(calls)[cursor] <= 1
    ensures Attached(Run(cfg, EMPTY, calls).table)[cursor] + CancelCalls(cfg, EMPTY, calls)[cursor]
            + LetGoAlong(cfg, EMPTY, calls)[cursor] == Registered(calls)[cursor]
    ensures CancelCalls(cfg, EMPTY, calls)[cursor] <= 1
    ensures cursor in LetGoAlong(cfg, EMPTY, calls) ==>
              cursor !in CancelCalls(cfg, EMPTY, calls) && cursor !in Attached(Run(cfg, EMPTY, calls).table)
  {
    EmptyKept(cfg);
    RunConservesCursors(cfg, EMPTY, calls);
    assert Attached(EMPTY.table) == multiset{};
    assert (Attached(EMPTY.table) + Registered(calls))[cursor] == Registered(calls)[cursor];
  }
}
