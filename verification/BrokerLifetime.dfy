/** How long a request lives: exactly up to the first look at it that reads its deadline or later, as long
    as nobody changes it. Everything is said of clock readings and deadlines alone. */
module BrokerLifetime {
  import opened Wrappers
  import opened BrokerModel
  import opened BrokerProofs
  import opened BrokerRuns
  import opened BrokerTheorems
  import opened BrokerAvailability

  /** The operation looks at the record of this request, if there is one. */
  predicate LooksAt(call: Call, id: RequestId) {
    if call.Submit? then call.ttl > 0 else call.List? || call.id == id
  }

  /** What the clock reads when it does. */
  function ReadingAt(table: Table, call: Call, id: RequestId): int
    requires Applicable(table, call) && Lookup(table, id).Some?
  {
    if call.Submit? || call.List? then call.readings[Find(table, id)] else call.now
  }

  /** A look that finds the record of this request with its deadline reached. */
  predicate LateLook(table: Table, call: Call, r: Record)
    requires Applicable(table, call) && Lookup(table, r.id).Some?
  {
    LooksAt(call, r.id) && ReadingAt(table, call, r.id) >= r.expiresAt
  }

  /** The operation is one that may change the record it names. */
  predicate Names(call: Call, r: Record) {
    && !call.Submit? && !call.List? && call.id == r.id
    && (call.Cancel? || (r.status == Pending && (call.Register? || call.Release? || call.Publish? || call.Fail?)))
  }

  // ----- one operation -----

  /** A live record is expired by a late look and by nothing else, and is otherwise left as it is by every
      operation that does not name it; only a submission, making room, removes records, and never a live
      one. */
  lemma DeadlineDecides(cfg: Config, m: Machine, call: Call, id: RequestId)
    requires ValidConfig(cfg) && WellKept(cfg, m) && Enabled(cfg, m, call)
    requires Lookup(m.table, id).Some?
    ensures var r, after := Lookup(m.table, id).value, Lookup(Next(cfg, m, call).table, id);
            if r.status in {Pending, Complete} then
              if LateLook(m.table, call, r)
              then after == Some(Record(id, Expired, r.expiresAt, None, None)) || (call.Submit? && after == None)
              else Names(call, r) || after == Some(r)
            else after == Some(r) || (call.Submit? && after == None)
  {
    hide *;
    FoundIsIssued(cfg, m, id);
    NextTable(cfg, m, call);
    NextIssues(cfg, m, call, id);
    if call.Submit? {
      SubmissionDecides(cfg, m.table, call, id);
    } else if call.List? {
      ListingDecides(cfg, m.table, call, id);
    } else {
      NamedDecides(cfg, m.table, call, id);
    }
  }

  lemma FoundIsIssued(cfg: Config, m: Machine, id: RequestId)
    requires WellKept(cfg, m)
    ensures Distinct(m.table)
    ensures Lookup(m.table, id).Some? ==> id in m.issued && Lookup(m.table, id).value.id == id
  {
    OrderIsDistinct(m.table, m.issued);
  }

  lemma NextIssues(cfg: Config, m: Machine, call: Call, id: RequestId)
    requires Enabled(cfg, m, call) && id in m.issued
    ensures Issued(cfg, m.table, call) != Some(id)
  {
    hide Issued;
  }

  /** What expiry at this reading makes of a record. */
  lemma ExpiredWhenLate(r: Record, reading: int)
    ensures Expire(r, reading) ==
            if r.status in {Pending, Complete} && reading >= r.expiresAt then Record(r.id, Expired, r.expiresAt, None, None) else r
  {
  }

  lemma ListingDecides(cfg: Config, table: Table, call: Call, id: RequestId)
    requires Applicable(table, call) && Distinct(table) && call.List? && Lookup(table, id).Some?
    ensures var r, after := Lookup(table, id).value, Lookup(Apply(cfg, table, call).table, id);
            && r.id == id
            && after == Some(if r.status in {Pending, Complete} && LateLook(table, call, r)
                             then Record(id, Expired, r.expiresAt, None, None) else r)
  {
    LookupExpireAll(table, call.readings, id);
    ExpiredWhenLate(Lookup(table, id).value, call.readings[Find(table, id)]);
    hide ExpireAll;
    hide TakenAll;
    hide Expire;
  }

  lemma NamedDecides(cfg: Config, table: Table, call: Call, id: RequestId)
    requires Distinct(table) && !call.Submit? && !call.List? && Lookup(table, id).Some?
    ensures var r, after := Lookup(table, id).value, Lookup(Apply(cfg, table, call).table, id);
            && r.id == id
            && (if r.status in {Pending, Complete} && LateLook(table, call, r)
                then after == Some(Record(id, Expired, r.expiresAt, None, None))
                else Names(call, r) || after == Some(r))
            && (r.status !in {Pending, Complete} ==> after == Some(r))
  {
    var k := Find(table, call.id);
    if k < |table| {
      LookupUpdate(table, k, OnRecord(table[k], call, call.now).record, id);
      if call.id == id {
        RecordDecides(table[k], call, call.now);
      }
    }
    hide OnRecord;
  }

  lemma RecordDecides(r: Record, call: Call, now: int)
    requires !call.Submit? && !call.List? && call.id == r.id
    ensures var after := OnRecord(r, call, now).record;
            && after.id == r.id
            && (if r.status in {Pending, Complete} && now >= r.expiresAt
                then after == Record(r.id, Expired, r.expiresAt, None, None)
                else Names(call, r) || after == r)
            && (r.status !in {Pending, Complete} ==> after == r)
  {
    ExpiredWhenLate(r, now);
  }

  lemma SubmissionDecides(cfg: Config, table: Table, call: Call, id: RequestId)
    requires Applicable(table, call) && Distinct(table) && call.Submit? && Lookup(table, id).Some?
    requires Issued(cfg, table, call) != Some(id)
    ensures var r, after := Lookup(table, id).value, Lookup(Apply(cfg, table, call).table, id);
            && r.id == id
            && var expired := if r.status in {Pending, Complete} && LateLook(table, call, r)
                              then Record(id, Expired, r.expiresAt, None, None) else r;
               after == Some(expired) || (after == None && expired.status !in {Pending, Complete})
  {
    hide *;
    LookupIff(table, id);
    SubmitIs(cfg, table, call);
    SubmissionIs(cfg, table, call.ttl, call.readings, call.now, call.tokens);
    SubmissionLooks(table, call, id);
    if call.ttl > 0 {
      ExpiryOfOne(table, call.readings, id);
      if Apply(cfg, table, call).answer.OneView? {
        RoomSparesLive(cfg, ExpireAll(table, call.readings), id);
        var room := MakeRoom(cfg, ExpireAll(table, call.readings)).value;
        var r := Apply(cfg, table, call).table[|room|];
        LookupSnoc(room, r, id);
        IssuedLast(cfg, table, call, room, r);
      }
    }
  }

  lemma SubmitIs(cfg: Config, table: Table, call: Call)
    requires Applicable(table, call) && call.Submit?
    ensures Apply(cfg, table, call) == SubmitEffect(cfg, table, call.ttl, call.readings, call.now, call.tokens)
    ensures |call.readings| == |table| && SomeFresh(table, call.tokens)
  {
    hide SubmitEffect;
    hide SomeFresh;
  }

  lemma SubmissionLooks(table: Table, call: Call, id: RequestId)
    requires Applicable(table, call) && call.Submit? && Lookup(table, id).Some? && Lookup(table, id).value.id == id
    ensures LateLook(table, call, Lookup(table, id).value) <==>
            call.ttl > 0 && call.readings[Find(table, id)] >= Lookup(table, id).value.expiresAt
  {
    hide Lookup;
  }

  lemma IssuedLast(cfg: Config, table: Table, call: Call, room: Table, r: Record)
    requires Applicable(table, call) && call.Submit? && Apply(cfg, table, call).answer == OneView(r.AsView())
    ensures Issued(cfg, table, call) == Some(r.id)
  {
    hide Apply;
  }

  lemma ExpiryOfOne(table: Table, readings: seq<int>, id: RequestId)
    requires |readings| == |table| && Distinct(table) && Lookup(table, id).Some?
    ensures Distinct(ExpireAll(table, readings)) && Find(table, id) < |table|
    ensures var r := Lookup(table, id).value;
            Lookup(ExpireAll(table, readings), id) ==
            Some(if r.status in {Pending, Complete} && readings[Find(table, id)] >= r.expiresAt
                 then Record(r.id, Expired, r.expiresAt, None, None) else r)
  {
    LookupExpireAll(table, readings, id);
    ExpiredWhenLate(Lookup(table, id).value, readings[Find(table, id)]);
    hide ExpireAll;
    hide Expire;
  }

  /** Making room removes no record but one that has ended. */
  lemma RoomSparesLive(cfg: Config, table: Table, id: RequestId)
    requires Distinct(table) && MakeRoom(cfg, table).Some? && Lookup(table, id).Some?
    ensures var room := MakeRoom(cfg, table).value;
            && Distinct(room)
            && (Lookup(room, id) == Lookup(table, id)
                || (Lookup(room, id) == None && Lookup(table, id).value.status !in {Pending, Complete}))
  {
    if MakeRoom(cfg, table).value != table {
      var k := OldestTerminal(table);
      LookupWithout(table, k, id);
      LookupAt(table, k);
    }
    hide Without;
    hide Lookup;
  }

  // ----- whole runs -----

  /** In the run, call `q` is a late look at the record. */
  ghost predicate LateAt(cfg: Config, m: Machine, calls: seq<Call>, q: nat, r: Record)
    requires ValidConfig(cfg) && WellKept(cfg, m) && EnabledAll(cfg, m, calls) && q < |calls|
  {
    BeforeEnabled(cfg, m, calls, q);
    var table := Before(cfg, m, calls, q).table;
    Lookup(table, r.id).Some? && LateLook(table, calls[q], r)
  }

  /** The same record, alive, all along: no call names it, and no call is a late look at it. */
  lemma {:induction false} AliveThroughRun(cfg: Config, m: Machine, calls: seq<Call>, r: Record)
    requires ValidConfig(cfg) && WellKept(cfg, m) && EnabledAll(cfg, m, calls)
    requires Lookup(m.table, r.id) == Some(r) && r.status in {Pending, Complete}
    requires forall q :: 0 <= q < |calls| ==> !Names(calls[q], r) && !LateAt(cfg, m, calls, q, r)
    ensures Lookup(Run(cfg, m, calls).table, r.id) == Some(r)
    decreases |calls|
  {
    hide *;
    FirstOfRun(cfg, m, calls);
    if calls != [] {
      LateFirst(cfg, m, calls, r);
      assert !Names(calls[0], r) && !LateAt(cfg, m, calls, 0, r);
      DeadlineDecides(cfg, m, calls[0], r.id);
      forall q | 0 <= q < |calls[1..]|
        ensures !Names(calls[1..][q], r) && !LateAt(cfg, Next(cfg, m, calls[0]), calls[1..], q, r)
      {
        LateLater(cfg, m, calls, q, r);
        assert calls[1..][q] == calls[q + 1];
      }
      AliveThroughRun(cfg, Next(cfg, m, calls[0]), calls[1..], r);
    }
  }

  lemma FirstOfRun(cfg: Config, m: Machine, calls: seq<Call>)
    requires ValidConfig(cfg) && WellKept(cfg, m) && EnabledAll(cfg, m, calls)
    ensures calls == [] ==> Run(cfg, m, calls) == m
    ensures calls != [] ==>
              && Enabled(cfg, m, calls[0]) && Applicable(m.table, calls[0])
              && WellKept(cfg, Next(cfg, m, calls[0])) && EnabledAll(cfg, Next(cfg, m, calls[0]), calls[1..])
              && Run(cfg, m, calls) == Run(cfg, Next(cfg, m, calls[0]), calls[1..])
  {
    hide WellKept;
    hide Next;
    if calls != [] {
      StepKeeps(cfg, m, calls[0]);
    }
  }

  lemma LateFirst(cfg: Config, m: Machine, calls: seq<Call>, r: Record)
    requires ValidConfig(cfg) && WellKept(cfg, m) && EnabledAll(cfg, m, calls) && calls != []
    requires Lookup(m.table, r.id).Some?
    ensures Applicable(m.table, calls[0]) && (LateAt(cfg, m, calls, 0, r) <==> LateLook(m.table, calls[0], r))
  {
    hide WellKept;
    hide LateLook;
    hide Lookup;
  }

  lemma LateLater(cfg: Config, m: Machine, calls: seq<Call>, q: nat, r: Record)
    requires ValidConfig(cfg) && WellKept(cfg, m) && EnabledAll(cfg, m, calls) && q + 1 < |calls|
    requires Applicable(m.table, calls[0])
    requires WellKept(cfg, Next(cfg, m, calls[0])) && EnabledAll(cfg, Next(cfg, m, calls[0]), calls[1..])
    ensures LateAt(cfg, m, calls, q + 1, r) <==> LateAt(cfg, Next(cfg, m, calls[0]), calls[1..], q, r)
  {
    hide WellKept;
    hide LateLook;
    hide Lookup;
    hide Next;
    hide EnabledAll;
    assert Before(cfg, m, calls, q + 1) == Before(cfg, Next(cfg, m, calls[0]), calls[1..], q);
    assert calls[1..][q] == calls[q + 1];
  }

  /** A live request that a run has expired was looked at, by some call of that run, at a reading at or past
      its deadline. */
  lemma {:induction false} ExpiredWasLate(cfg: Config, m: Machine, calls: seq<Call>, id: RequestId)
    requires ValidConfig(cfg) && WellKept(cfg, m) && EnabledAll(cfg, m, calls)
    requires Lookup(m.table, id).Some? && Lookup(m.table, id).value.status in {Pending, Complete}
    requires var after := Lookup(Run(cfg, m, calls).table, id);
             after.Some? && after.value.status == Expired
    ensures exists q :: 0 <= q < |calls| && LateAt(cfg, m, calls, q, Lookup(m.table, id).value)
    decreases |calls|
  {
    hide *;
    FirstOfRun(cfg, m, calls);
    LookupIff(m.table, id);
    var r := Lookup(m.table, id).value;
    if calls == [] {
      assert false;
    }
    var next := Next(cfg, m, calls[0]);
    LateFirst(cfg, m, calls, r);
    if LateLook(m.table, calls[0], r) {
      assert LateAt(cfg, m, calls, 0, r);
    } else {
      StillLive(cfg, m, calls, id);
      ExpiredWasLate(cfg, next, calls[1..], id);
      var q :| 0 <= q < |calls[1..]| && LateAt(cfg, next, calls[1..], q, Lookup(next.table, id).value);
      SameDeadline(cfg, next, calls[1..], q, Lookup(next.table, id).value, r);
      LateLater(cfg, m, calls, q, r);
      assert LateAt(cfg, m, calls, q + 1, r);
    }
  }

  lemma SameDeadline(cfg: Config, m: Machine, calls: seq<Call>, q: nat, r: Record, s: Record)
    requires ValidConfig(cfg) && WellKept(cfg, m) && EnabledAll(cfg, m, calls) && q < |calls|
    requires r.id == s.id && r.expiresAt == s.expiresAt
    ensures LateAt(cfg, m, calls, q, r) <==> LateAt(cfg, m, calls, q, s)
  {
    hide WellKept;
    hide Before;
    hide EnabledAll;
    hide Lookup;
    hide ReadingAt;
  }

  /** A record that ends up expired without a late look at the first step was alive after it, with the same
      deadline. */
  lemma StillLive(cfg: Config, m: Machine, calls: seq<Call>, id: RequestId)
    requires ValidConfig(cfg) && WellKept(cfg, m) && EnabledAll(cfg, m, calls) && calls != []
    requires Lookup(m.table, id).Some? && Lookup(m.table, id).value.status in {Pending, Complete}
    requires Applicable(m.table, calls[0]) && !LateLook(m.table, calls[0], Lookup(m.table, id).value)
    requires var after := Lookup(Run(cfg, m, calls).table, id);
             after.Some? && after.value.status == Expired
    ensures var r, next := Lookup(m.table, id).value, Lookup(Next(cfg, m, calls[0]).table, id);
            next.Some? && next.value.status in {Pending, Complete} && next.value.expiresAt == r.expiresAt && next.value.id == id
            && r.id == id
  {
    hide *;
    FirstOfRun(cfg, m, calls);
    FoundIsIssued(cfg, m, id);
    var next := Next(cfg, m, calls[0]);
    StepAges(cfg, m, calls[0], id);
    RunAges(cfg, next, calls[1..], id);
    LookupIff(next.table, id);
    AgedSome(Lookup(next.table, id), Lookup(Run(cfg, m, calls).table, id));
    AgedSome(Lookup(m.table, id), Lookup(next.table, id));
    if Names(calls[0], Lookup(m.table, id).value) {
      NamedNeverExpires(cfg, m, calls[0], id);
    } else {
      DeadlineDecides(cfg, m, calls[0], id);
    }
  }

  lemma AgedSome(before: Option<Record>, after: Option<Record>)
    requires Aged(before, after) && after.Some?
    ensures before.Some? && before.value.expiresAt == after.value.expiresAt && Moves(before.value.status, after.value.status)
    ensures after.value.status == Expired ==> before.value.status in {Pending, Complete, Expired}
  {
  }

  /** Short of the deadline, an operation that names the record does not expire it. */
  lemma NamedNeverExpires(cfg: Config, m: Machine, call: Call, id: RequestId)
    requires WellKept(cfg, m) && Enabled(cfg, m, call) && Lookup(m.table, id).Some?
    requires Lookup(m.table, id).value.status in {Pending, Complete}
    requires Names(call, Lookup(m.table, id).value) && !LateLook(m.table, call, Lookup(m.table, id).value)
    ensures var after := Lookup(Next(cfg, m, call).table, id);
            after.Some? && after.value.status != Expired
  {
    FoundIsIssued(cfg, m, id);
    NextTable(cfg, m, call);
    var k := Find(m.table, id);
    LookupUpdate(m.table, k, OnRecord(m.table[k], call, call.now).record, id);
    NamedRecord(m.table[k], call, call.now);
    hide OnRecord;
    hide WellKept;
    hide Enabled;
    hide Next;
  }

  lemma NamedRecord(r: Record, call: Call, now: int)
    requires Names(call, r) && now < r.expiresAt
    ensures OnRecord(r, call, now).record.id == r.id
    ensures r.status != Expired ==> OnRecord(r, call, now).record.status != Expired
  {
  }

  // ----- a stream's checks -----

  /** No reading of a run is later than a later call's. */
  lemma FirstReadings(cfg: Config, m: Machine, calls: seq<Call>, k: nat)
    requires ValidConfig(cfg) && WellKept(cfg, m) && EnabledAll(cfg, m, calls) && 0 < k < |calls| && calls[k].Open?
    ensures forall i :: 0 <= i < |Readings(calls[0])| ==> Readings(calls[0])[i] <= calls[k].now
  {
    hide *;
    FirstOfRun(cfg, m, calls);
    BeforeEnabled(cfg, Next(cfg, m, calls[0]), calls[1..], k - 1);
    LaterReads(cfg, Before(cfg, Next(cfg, m, calls[0]), calls[1..], k - 1), calls[1..][k - 1]);
    ReadingsAreBehind(cfg, m, calls[0]);
  }

  lemma LaterReads(cfg: Config, m: Machine, call: Call)
    requires Enabled(cfg, m, call) && call.Open?
    ensures m.clock <= call.now
  {
    assert Readings(call)[0] == call.now;
  }

  lemma ReadingsAreBehind(cfg: Config, m: Machine, call: Call)
    requires Enabled(cfg, m, call)
    ensures forall i :: 0 <= i < |Readings(call)| ==> Readings(call)[i] <= Next(cfg, m, call).clock
  {
    hide Readings;
    hide Issued;
    hide Applicable;
    hide Apply;
  }

  lemma EarlyIsNotLate(table: Table, call: Call, r: Record)
    requires Applicable(table, call) && Lookup(table, r.id).Some?
    requires forall i :: 0 <= i < |Readings(call)| ==> Readings(call)[i] < r.expiresAt
    ensures !LateLook(table, call, r)
  {
    var readings := Readings(call);
    if call.Submit? || call.List? {
      assert readings[Find(table, r.id)] == call.readings[Find(table, r.id)];
    } else {
      assert readings[0] == call.now;
    }
  }

  /** A look at a completed request finds its source exactly if nobody has cancelled it and the look reads
      the clock short of its deadline. */
  lemma {:induction false} FoundIff(cfg: Config, m: Machine, calls: seq<Call>, k: nat, r: Record)
    requires ValidConfig(cfg) && WellKept(cfg, m) && EnabledAll(cfg, m, calls) && k < |calls|
    requires Lookup(m.table, r.id) == Some(r) && r.status == Complete && calls[k].Open? && calls[k].id == r.id
    ensures r.source.Some?
    ensures AnswerAt(cfg, m, calls, k) == Source(r.source.value) <==>
            calls[k].now < r.expiresAt && forall q :: 0 <= q < k ==> !(calls[q].Cancel? && calls[q].id == r.id)
    ensures AnswerAt(cfg, m, calls, k).Source? ==> AnswerAt(cfg, m, calls, k) == Source(r.source.value)
    decreases k
  {
    hide *;
    FoundIsIssued(cfg, m, r.id);
    CompleteHasSource(cfg, m, r);
    if AnswerAt(cfg, m, calls, k).Source? {
      AvailableAllAlong(cfg, m, calls, k, r.id, AnswerAt(cfg, m, calls, k).source);
    }
    if calls[k].now < r.expiresAt && forall q :: 0 <= q < k ==> !(calls[q].Cancel? && calls[q].id == r.id) {
      FoundUntilThen(cfg, m, calls, k, r);
    }
  }

  lemma CompleteHasSource(cfg: Config, m: Machine, r: Record)
    requires WellKept(cfg, m) && Lookup(m.table, r.id) == Some(r) && r.status == Complete
    ensures r.source.Some?
  {
    LookupIff(m.table, r.id);
  }

  lemma {:induction false} FoundUntilThen(cfg: Config, m: Machine, calls: seq<Call>, k: nat, r: Record)
    requires ValidConfig(cfg) && WellKept(cfg, m) && EnabledAll(cfg, m, calls) && k < |calls|
    requires Lookup(m.table, r.id) == Some(r) && r.status == Complete && r.source.Some?
    requires calls[k].Open? && calls[k].id == r.id && calls[k].now < r.expiresAt
    requires forall q :: 0 <= q < k ==> !(calls[q].Cancel? && calls[q].id == r.id)
    ensures AnswerAt(cfg, m, calls, k) == Source(r.source.value)
    decreases k
  {
    hide *;
    if k == 0 {
      FoundHere(cfg, m, calls, r);
    } else {
      FirstOfRun(cfg, m, calls);
      FirstReadings(cfg, m, calls, k);
      EarlyIsNotLate(m.table, calls[0], r);
      assert !(calls[0].Cancel? && calls[0].id == r.id);
      OnlyCancelled(calls[0], r);
      DeadlineDecides(cfg, m, calls[0], r.id);
      AnswerLater(cfg, m, calls, k);
      assert forall q :: 0 <= q < k - 1 ==> calls[1..][q] == calls[q + 1];
      FoundUntilThen(cfg, Next(cfg, m, calls[0]), calls[1..], k - 1, r);
    }
  }

  lemma OnlyCancelled(call: Call, r: Record)
    requires r.status == Complete
    ensures Names(call, r) ==> call.Cancel? && call.id == r.id
  {
  }

  lemma AnswerLater(cfg: Config, m: Machine, calls: seq<Call>, k: nat)
    requires ValidConfig(cfg) && WellKept(cfg, m) && EnabledAll(cfg, m, calls) && 0 < k < |calls|
    requires Applicable(m.table, calls[0])
    requires WellKept(cfg, Next(cfg, m, calls[0])) && EnabledAll(cfg, Next(cfg, m, calls[0]), calls[1..])
    ensures AnswerAt(cfg, m, calls, k) == AnswerAt(cfg, Next(cfg, m, calls[0]), calls[1..], k - 1)
  {
    hide WellKept;
    hide Apply;
    hide Next;
    hide EnabledAll;
    assert Before(cfg, m, calls, k) == Before(cfg, Next(cfg, m, calls[0]), calls[1..], k - 1);
    assert calls[1..][k - 1] == calls[k];
  }

  lemma FoundHere(cfg: Config, m: Machine, calls: seq<Call>, r: Record)
    requires ValidConfig(cfg) && WellKept(cfg, m) && EnabledAll(cfg, m, calls) && calls != []
    requires Lookup(m.table, r.id) == Some(r) && r.status == Complete && r.source.Some?
    requires calls[0].Open? && calls[0].id == r.id && calls[0].now < r.expiresAt
    ensures AnswerAt(cfg, m, calls, 0) == Source(r.source.value)
  {
    hide WellKept;
    hide EnabledAll;
    ExpiredWhenLate(r, calls[0].now);
    hide Expire;
  }

  /** A later look reads the clock no earlier. */
  lemma {:induction false} LookReadings(cfg: Config, m: Machine, calls: seq<Call>, j: nat, k: nat)
    requires ValidConfig(cfg) && WellKept(cfg, m) && EnabledAll(cfg, m, calls) && j < k < |calls|
    requires calls[j].Open? && calls[k].Open?
    ensures calls[j].now <= calls[k].now
    decreases j
  {
    hide *;
    FirstOfRun(cfg, m, calls);
    if j == 0 {
      FirstReadings(cfg, m, calls, k);
      assert Readings(calls[0]) == [calls[0].now] by { OneReading(calls[0]); }
      assert [calls[0].now][0] == calls[0].now;
    } else {
      assert calls[1..][j - 1] == calls[j] && calls[1..][k - 1] == calls[k];
      LookReadings(cfg, Next(cfg, m, calls[0]), calls[1..], j - 1, k - 1);
    }
  }

  lemma OneReading(call: Call)
    requires call.Open?
    ensures Readings(call) == [call.now]
  {
  }
}
