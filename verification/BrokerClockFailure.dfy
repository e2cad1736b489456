/** A clock that may raise instead of answering. Most exits stay safe; an expiry of the whole table that is
    broken off, and a registration whose own reading fails, each leave cursors that nobody cancels. */
module BrokerClockFailure {
  import opened Wrappers
  import opened BrokerModel
  import opened BrokerProofs
  import opened Broker

  datatype Reading = Told(now: int) | Raised

  function AtReading(r: Record, reading: Reading): Record {
    match reading
    case Told(now) => Expire(r, now)
    case Raised => r
  }

  function TakenAt(r: Record, reading: Reading): seq<CursorId> {
    match reading
    case Told(now) => Taken(r, now)
    case Raised => []
  }

  // ----- the whole table -----

  /** The first record whose reading raises; only live records read the clock. */
  function FirstRaise(table: Table, readings: seq<Reading>): (k: nat)
    requires |readings| == |table|
    ensures k <= |table|
    ensures k < |table| ==> table[k].Live() && readings[k].Raised?
    ensures forall j :: 0 <= j < k ==> !(table[j].Live() && readings[j].Raised?)
  {
    if table == [] then 0
    else if table[0].Live() && readings[0].Raised? then 0
    else 1 + FirstRaise(table[1..], readings[1..])
  }

  /** The first `k` records expired. */
  function Swept(table: Table, readings: seq<Reading>, k: nat): (swept: Table)
    requires |readings| == |table| && k <= |table|
    ensures |swept| == |table|
  {
    seq(|table|, i requires 0 <= i < |table| => if i < k then AtReading(table[i], readings[i]) else table[i])
  }

  function TakenUpTo(table: Table, readings: seq<Reading>, k: nat): seq<CursorId>
    requires |readings| == |table| && k <= |table|
  {
    if k == 0 then [] else TakenUpTo(table, readings, k - 1) + TakenAt(table[k - 1], readings[k - 1])
  }

  /** The cancellations that follow: none, when the list of cursors never came to be. */
  function IssuedAfter(table: Table, readings: seq<Reading>): seq<CursorId>
    requires |readings| == |table|
  {
    if FirstRaise(table, readings) < |table| then [] else TakenUpTo(table, readings, |table|)
  }

  lemma {:induction false} SweepMoves(table: Table, readings: seq<Reading>, k: nat)
    requires |readings| == |table| && k <= |table|
    ensures Attached(Swept(table, readings, k)) + multiset(TakenUpTo(table, readings, k)) == Attached(table)
  {
    hide *;
    if k == 0 {
      SweptNone(table, readings);
    } else {
      var before, r := Swept(table, readings, k - 1), AtReading(table[k - 1], readings[k - 1]);
      SweepMoves(table, readings, k - 1);
      SweptNext(table, readings, k);
      AttachedUpdate(before, k - 1, r);
      KeptOrTakenAt(table[k - 1], readings[k - 1]);
      Exchange(Attached(Swept(table, readings, k)), multiset(CursorOf(table[k - 1])), Attached(before), multiset(CursorOf(r)),
               multiset(TakenUpTo(table, readings, k - 1)), multiset(TakenAt(table[k - 1], readings[k - 1])));
    }
  }

  lemma SweptNone(table: Table, readings: seq<Reading>)
    requires |readings| == |table|
    ensures Swept(table, readings, 0) == table && TakenUpTo(table, readings, 0) == []
  {
  }

  /** What one more record adds to the sweep. */
  lemma SweptNext(table: Table, readings: seq<Reading>, k: nat)
    requires |readings| == |table| && 0 < k <= |table|
    ensures var before, r := Swept(table, readings, k - 1), AtReading(table[k - 1], readings[k - 1]);
            && before[k - 1] == table[k - 1] && r.id == before[k - 1].id && Swept(table, readings, k) == before[k - 1 := r]
    ensures TakenUpTo(table, readings, k) == TakenUpTo(table, readings, k - 1) + TakenAt(table[k - 1], readings[k - 1])
  {
    SameId(table[k - 1], readings[k - 1]);
    hide AtReading;
  }

  lemma SameId(r: Record, reading: Reading)
    ensures AtReading(r, reading).id == r.id
  {
  }

  lemma KeptOrTakenAt(r: Record, reading: Reading)
    ensures multiset(CursorOf(AtReading(r, reading))) + multiset(TakenAt(r, reading)) == multiset(CursorOf(r))
  {
    if reading.Told? {
      KeptOrTaken(r, reading.now);
    }
  }

  lemma Exchange<T>(
      after: multiset<T>, old': multiset<T>, before: multiset<T>, new': multiset<T>, taken: multiset<T>, more: multiset<T>)
    requires after + old' == before + new' && new' + more == old'
    ensures after + (taken + more) == before + taken
  {
    forall x ensures (after + more)[x] == before[x] {
      assert (after + old')[x] == (before + new')[x];
    }
    assert after + more == before;
    assert after + (taken + more) == (after + more) + taken;
  }

  /** The record's reading finds it overdue while it holds a cursor. */
  predicate GivesUp(r: Record, reading: Reading) {
    reading.Told? && Overdue(r, reading.now) && r.cursor.Some?
  }

  /** An overdue cursor was taken out before the reading that raised. */
  ghost predicate TakenThenRaised(table: Table, readings: seq<Reading>)
    requires |readings| == |table|
  {
    var k := FirstRaise(table, readings);
    k < |table| && exists j :: 0 <= j < k && GivesUp(table[j], readings[j])
  }

  lemma GivesUpTakes(r: Record, reading: Reading)
    ensures TakenAt(r, reading) != [] <==> GivesUp(r, reading)
  {
  }

  lemma {:induction false} SomethingTaken(table: Table, readings: seq<Reading>, k: nat)
    requires |readings| == |table| && k <= |table|
    ensures TakenUpTo(table, readings, k) != [] <==> exists j :: 0 <= j < k && GivesUp(table[j], readings[j])
  {
    hide GivesUp;
    hide TakenAt;
    if k > 0 {
      SomethingTaken(table, readings, k - 1);
      GivesUpTakes(table[k - 1], readings[k - 1]);
      var earlier, last := TakenUpTo(table, readings, k - 1), TakenAt(table[k - 1], readings[k - 1]);
      assert earlier + last != [] <==> earlier != [] || last != [];
    }
  }

  /** Exactly when an expiry of the whole table loses cursors: a reading raises after an earlier record gave
      up an overdue one. Otherwise every cursor is attached still or its cancellation is issued. */
  lemma SweepLosesIff(table: Table, readings: seq<Reading>)
    requires |readings| == |table|
    ensures var k := FirstRaise(table, readings);
            Attached(Swept(table, readings, k)) + multiset(IssuedAfter(table, readings)) == Attached(table)
            <==> !TakenThenRaised(table, readings)
  {
    var k := FirstRaise(table, readings);
    SweepMoves(table, readings, k);
    SomethingTaken(table, readings, k);
    hide Attached;
    hide Swept;
    hide TakenUpTo;
    if k < |table| {
      var kept, taken := Attached(Swept(table, readings, k)), TakenUpTo(table, readings, k);
      if taken != [] {
        SomeMore(kept, taken);
      }
    }
  }

  lemma SomeMore<T>(kept: multiset<T>, taken: seq<T>)
    requires taken != []
    ensures kept + multiset(taken) != kept
  {
    assert taken[0] in multiset(taken);
    assert (kept + multiset(taken))[taken[0]] > kept[taken[0]];
  }

  /** A clock that answers every live record expires the table as the rest of the model says. */
  lemma {:induction false} AnsweringClock(table: Table, readings: seq<Reading>, nows: seq<int>)
    requires |readings| == |nows| == |table| && FirstRaise(table, readings) == |table|
    requires forall i :: 0 <= i < |table| && readings[i].Told? ==> readings[i].now == nows[i]
    ensures Swept(table, readings, |table|) == ExpireAll(table, nows)
    ensures IssuedAfter(table, readings) == TakenAll(table, nows)
  {
    TakenAgree(table, readings, nows, |table|);
    assert table[..|table|] == table && nows[..|table|] == nows;
  }

  lemma {:induction false} TakenAgree(table: Table, readings: seq<Reading>, nows: seq<int>, k: nat)
    requires |readings| == |nows| == |table| && k <= |table|
    requires forall i :: 0 <= i < k ==> (readings[i].Told? && readings[i].now == nows[i]) || !table[i].Live()
    ensures TakenUpTo(table, readings, k) == TakenAll(table[..k], nows[..k])
  {
    if k > 0 {
      TakenAgree(table, readings, nows, k - 1);
      TakenAllSnoc(table, k - 1, nows[..k - 1], nows[k - 1]);
      assert nows[..k] == nows[..k - 1] + [nows[k - 1]];
    }
  }

  ghost function Values(records: seq<RequestRecord>): (table: Table)
    reads records
    ensures |table| == |records|
  {
    seq(|records|, i requires 0 <= i < |records| reads records => records[i].Value())
  }

  /** The expiry loop on the record objects themselves. */
  method SweepRecords(records: seq<RequestRecord>, readings: seq<Reading>) returns (issued: seq<CursorId>, raised: bool)
    requires |readings| == |records| && forall i, j :: 0 <= i < j < |records| ==> records[i] != records[j]
    modifies records
    ensures var table := old(Values(records));
            var k := FirstRaise(table, readings);
            && (raised <==> k < |table|) && issued == IssuedAfter(table, readings)
            && Values(records) == Swept(table, readings, k)
  {
    ghost var table := Values(records);
    hide Expire;
    hide Taken;
    hide FirstRaise;
    var expired: seq<CursorId> := [];
    var i := 0;
    while i < |records|
      invariant 0 <= i <= |records| && expired == TakenUpTo(table, readings, i)
      invariant forall j :: 0 <= j < i ==> records[j].Value() == AtReading(table[j], readings[j])
      invariant forall j :: i <= j < |records| ==> records[j].Value() == table[j]
      invariant forall j :: 0 <= j < i ==> !(table[j].Live() && readings[j].Raised?)
    {
      label Before:
      var record := records[i];
      if record.status == Pending || record.status == Complete {
        if readings[i].Raised? {
          FirstIs(table, readings, i);
          return [], true;
        }
        var taken := record.ExpireAt(readings[i].now);
        expired := expired + taken;
        assert forall j :: 0 <= j < |records| && j != i ==> records[j].Value() == old@Before(records[j].Value());
      } else {
        NotLive(table[i], readings[i]);
        assert expired + [] == expired;
      }
      i := i + 1;
    }
    FirstIs(table, readings, |records|);
    return expired, false;
  }

  lemma FirstIs(table: Table, readings: seq<Reading>, k: nat)
    requires |readings| == |table| && k <= |table| && (k < |table| ==> table[k].Live() && readings[k].Raised?)
    requires forall j :: 0 <= j < k ==> !(table[j].Live() && readings[j].Raised?)
    ensures FirstRaise(table, readings) == k
  {
  }

  lemma NotLive(r: Record, reading: Reading)
    requires !r.Live()
    ensures AtReading(r, reading) == r && TakenAt(r, reading) == []
  {
  }

  // ----- one record -----

  /** An operation on one present record; none when the reading raises, and then nothing has changed. */
  function OnReading(before: Record, call: Call, reading: Reading): Option<RecordEffect>
    requires !call.Submit? && !call.List?
  {
    if !before.Live() then Some(OnRecord(before, call, 0))
    else match reading
      case Told(now) => Some(OnRecord(before, call, now))
      case Raised => None
  }

  /** Exactly when such an operation loses a cursor: a registration whose own reading raises neither attaches
      nor cancels the cursor it brings. Whatever was attached before is safe. */
  lemma OneRecordLosesIff(before: Record, call: Call, reading: Reading)
    requires !call.Submit? && !call.List? && Shaped(before)
    ensures var effect := OnReading(before, call, reading);
            var now := if reading.Told? && before.Live() then reading.now else 0;
            var after := if effect.Some? then effect.value.record else before;
            var issued := if effect.Some? then effect.value.cancels else [];
            var released := if effect.Some? then LetGoOf(before, call, now) else multiset{};
            multiset(CursorOf(before)) + Arriving(call) == multiset(CursorOf(after)) + (multiset(issued) + released)
            <==> !(call.Register? && before.Live() && reading.Raised?)
  {
    if OnReading(before, call, reading).Some? {
      RecordConserves(before, call, if reading.Told? && before.Live() then reading.now else 0);
    } else {
      var none: seq<CursorId> := [];
      assert multiset(none) + multiset{} == multiset{};
      if call.Register? {
        assert (multiset(CursorOf(before)) + Arriving(call))[call.cursor] > multiset(CursorOf(before))[call.cursor];
      }
    }
    hide OnRecord;
    hide LetGoOf;
    hide CursorOf;
  }

  /** A submission whose deadline reading raises has expired the table and may have made room, and adds no
      record; every cursor it took out is cancelled all the same. */
  lemma DeadlineLosesNothing(cfg: Config, table: Table, nows: seq<int>)
    requires |nows| == |table| && AllShaped(table) && MakeRoom(cfg, ExpireAll(table, nows)).Some?
    ensures Attached(MakeRoom(cfg, ExpireAll(table, nows)).value) + multiset(TakenAll(table, nows)) == Attached(table)
  {
    AttachedExpireAll(table, nows);
    ExpiredShaped(table, nows);
    RoomConserves(cfg, ExpireAll(table, nows));
  }

  /** It happens: the first record's overdue cursor is out, and the second record's reading raises. */
  lemma CursorLost()
    ensures var table := [Record(1, Pending, 0, None, Some(7)), Record(2, Complete, 9, Some(3), None)];
            var readings := [Told(5), Raised];
            FirstRaise(table, readings) == 1 && IssuedAfter(table, readings) == [] && TakenThenRaised(table, readings)
            && 7 in Attached(table) && 7 !in Attached(Swept(table, readings, 1))
  {
    var table := [Record(1, Pending, 0, None, Some(7)), Record(2, Complete, 9, Some(3), None)];
    var readings := [Told(5), Raised];
    FirstIs(table, readings, 1);
    assert Overdue(table[0], readings[0].now);
    SweepMoves(table, readings, 1);
    assert TakenUpTo(table, readings, 0) == [];
    assert TakenUpTo(table, readings, 1) == [7];
    var swept := Swept(table, readings, 1);
    assert swept[..1] == [swept[0]] && swept[..1][..0] == [];
    assert Attached(swept[..1]) == multiset{} && Attached(swept) == multiset{};
  }
}
