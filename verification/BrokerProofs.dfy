/** What every broker operation keeps, and what holds over whole runs of operations. */
module BrokerProofs {
  import opened Wrappers
  import opened BrokerModel

  // ----- one record -----

  /** A source exists exactly while COMPLETE; a cursor only while PENDING. */
  predicate Shaped(r: Record) {
    && (r.source.Some? <==> r.status.Complete?)
    && (r.cursor.Some? ==> r.status.Pending?)
  }

  ghost predicate AllShaped(table: Table) {
    forall i :: 0 <= i < |table| ==> Shaped(table[i])
  }

  ghost predicate Distinct(table: Table) {
    forall i, j :: 0 <= i < j < |table| ==> table[i].id != table[j].id
  }

  /** The legal changes of an observed status. */
  predicate Moves(before: Status, after: Status) {
    || before == after
    || before.Pending?
    || (before.Complete? && (after.Cancelled? || after.Expired?))
  }

  // ----- lookups -----

  lemma {:induction false} FindAt(table: Table, k: nat)
    requires Distinct(table) && k < |table|
    ensures Find(table, table[k].id) == k
  {
    var found := Find(table, table[k].id);
    assert found <= k;
  }

  lemma LookupAt(table: Table, k: nat)
    requires Distinct(table) && k < |table|
    ensures Lookup(table, table[k].id) == Some(table[k])
  {
    FindAt(table, k);
  }

  lemma LookupIff(table: Table, id: RequestId)
    ensures Lookup(table, id).Some? <==> HasId(table, id)
    ensures Lookup(table, id).Some? ==> Lookup(table, id).value.id == id && Lookup(table, id).value in table
  {
  }

  lemma LookupUpdate(table: Table, k: nat, r: Record, id: RequestId)
    requires Distinct(table) && k < |table| && r.id == table[k].id
    ensures Distinct(table[k := r])
    ensures Lookup(table[k := r], id) == if id == r.id then Some(r) else Lookup(table, id)
  {
    var updated := table[k := r];
    var i := Find(table, id);
    if id == r.id {
      FindAt(updated, k);
    } else if i < |table| {
      assert updated[i] == table[i];
      FindAt(updated, i);
    } else {
      assert forall j :: 0 <= j < |table| ==> updated[j].id == table[j].id;
      LookupIff(updated, id);
      LookupIff(table, id);
    }
  }

  lemma LookupExpireAll(table: Table, readings: seq<int>, id: RequestId)
    requires |readings| == |table| && Distinct(table)
    ensures Distinct(ExpireAll(table, readings))
    ensures Lookup(ExpireAll(table, readings), id) ==
            if Find(table, id) < |table| then Some(Expire(table[Find(table, id)], readings[Find(table, id)])) else None
  {
    var expired := ExpireAll(table, readings);
    assert forall i :: 0 <= i < |table| ==> expired[i].id == table[i].id;
    var k := Find(table, id);
    if k < |table| {
      LookupAt(expired, k);
    } else {
      LookupIff(expired, id);
    }
  }

  lemma LookupWithout(table: Table, k: nat, id: RequestId)
    requires Distinct(table) && k < |table|
    ensures Distinct(Without(table, k))
    ensures Lookup(Without(table, k), id) == if id == table[k].id then None else Lookup(table, id)
  {
    var rest := Without(table, k);
    assert forall i :: 0 <= i < |rest| ==> rest[i] == table[if i < k then i else i + 1];
    LookupIff(rest, id);
    LookupIff(table, id);
    var j := Find(table, id);
    if j < |table| && j != k {
      assert rest[if j < k then j else j - 1] == table[j];
      LookupAt(rest, if j < k then j else j - 1);
    } else {
      assert forall i :: 0 <= i < |rest| ==> rest[i].id != id;
    }
  }

  lemma LookupSnoc(table: Table, r: Record, id: RequestId)
    requires Distinct(table) && !HasId(table, r.id)
    ensures Distinct(table + [r])
    ensures Lookup(table + [r], id) == if id == r.id then Some(r) else Lookup(table, id)
  {
    var longer := table + [r];
    LookupIff(table, id);
    LookupIff(longer, id);
    assert longer[|table|] == r;
    if Lookup(longer, id).Some? {
      var i := Find(longer, id);
      if i < |table| { LookupAt(table, i); }
    }
    if Lookup(table, id).Some? {
      var i := Find(table, id);
      assert longer[i] == table[i];
      LookupAt(longer, i);
    }
  }

  // ----- what an operation does to the other records -----

  /** The identifier an operation names, if it names one. */
  function Target(call: Call): Option<RequestId> {
    if call.Submit? || call.List? then None else Some(call.id)
  }

  /** The identifier an operation hands out. */
  function Issued(cfg: Config, table: Table, call: Call): Option<RequestId>
    requires Applicable(table, call)
  {
    var answer := Apply(cfg, table, call).answer;
    if call.Submit? && answer.OneView? then Some(answer.view.id) else None
  }

  /** One record before and after any operation. */
  predicate Evolved(before: Record, after: Record) {
    && before.id == after.id && before.expiresAt == after.expiresAt
    && Moves(before.status, after.status)
  }

  /** A record no operation names either stays as it is, or expires, or, once terminal, is evicted. */
  predicate Undisturbed(before: Option<Record>, after: Option<Record>) {
    || after == before
    || (before.Some? && before.value.Live()
        && after == Some(before.value.(status := Expired, source := None, cursor := None)))
    || (before.Some? && after.None?)
  }

  lemma {:induction false} ApplyLookup(cfg: Config, table: Table, call: Call, id: RequestId)
    requires Applicable(table, call) && Distinct(table)
    ensures Distinct(Apply(cfg, table, call).table)
    ensures Target(call) != Some(id) && Issued(cfg, table, call) != Some(id) ==>
              Undisturbed(Lookup(table, id), Lookup(Apply(cfg, table, call).table, id))
    ensures !call.Submit? ==> (Lookup(table, id).Some? <==> Lookup(Apply(cfg, table, call).table, id).Some?)
  {
    match call
    case Submit(ttl, readings, now, tokens) =>
      if ttl > 0 {
        SubmitLookup(cfg, table, ttl, readings, now, tokens, id);
      }
    case List(readings) =>
      LookupExpireAll(table, readings, id);
    case _ =>
      var k := Find(table, call.id);
      if k < |table| {
        LookupUpdate(table, k, OnRecord(table[k], call, call.now).record, id);
      }
  }

  /** Submission: everyone else is undisturbed, and one PENDING record may be added at the end. */
  lemma SubmitLookup(cfg: Config, table: Table, ttl: int, readings: seq<int>, now: int, tokens: seq<RequestId>, id: RequestId)
    requires |readings| == |table| && SomeFresh(table, tokens) && Distinct(table) && ttl > 0
    ensures var effect := SubmitEffect(cfg, table, ttl, readings, now, tokens);
            && Distinct(effect.table)
            && (effect.answer.OneView? ==>
                  && effect.table != []
                  && effect.table[|effect.table| - 1]
                     == Record(effect.answer.view.id, Pending, now + Min(ttl, cfg.maximumTtl), None, None)
                  && effect.answer.view == effect.table[|effect.table| - 1].AsView()
                  && effect.answer.view.id in tokens)
            && (effect.answer.OneView? && effect.answer.view.id == id ==>
                  Lookup(effect.table, id) == Some(effect.table[|effect.table| - 1]))
            && (effect.answer.OneView? || effect.answer == Unavailable)
            && (!(effect.answer.OneView? && effect.answer.view.id == id) ==>
                  Undisturbed(Lookup(table, id), Lookup(effect.table, id)))
  {
    hide *;
    var expired := ExpireAll(table, readings);
    SubmissionIs(cfg, table, ttl, readings, now, tokens);
    ExpiryDisturbsNobody(table, readings, id);
    if SubmitEffect(cfg, table, ttl, readings, now, tokens).answer.OneView? {
      var room := MakeRoom(cfg, expired).value;
      RoomDisturbsNobody(cfg, expired, id);
      UndisturbedTwice(Lookup(table, id), Lookup(expired, id), Lookup(room, id));
      var r := Record(FirstFresh(room, tokens), Pending, now + Min(ttl, cfg.maximumTtl), None, None);
      LookupSnoc(room, r, id);
      LastIs(room, r);
    }
  }

  lemma ExpiryDisturbsNobody(table: Table, readings: seq<int>, id: RequestId)
    requires |readings| == |table| && Distinct(table)
    ensures Distinct(ExpireAll(table, readings))
    ensures Undisturbed(Lookup(table, id), Lookup(ExpireAll(table, readings), id))
  {
    LookupExpireAll(table, readings, id);
    hide ExpireAll;
    hide Distinct;
    hide Find;
  }

  lemma RoomDisturbsNobody(cfg: Config, table: Table, id: RequestId)
    requires Distinct(table) && MakeRoom(cfg, table).Some?
    ensures Distinct(MakeRoom(cfg, table).value)
    ensures Undisturbed(Lookup(table, id), Lookup(MakeRoom(cfg, table).value, id))
  {
    if MakeRoom(cfg, table).value != table {
      LookupWithout(table, OldestTerminal(table), id);
    }
    hide Lookup;
    hide Without;
    hide Distinct;
  }

  lemma UndisturbedTwice(before: Option<Record>, between: Option<Record>, after: Option<Record>)
    requires Undisturbed(before, between) && Undisturbed(between, after)
    ensures Undisturbed(before, after)
  {
  }

  lemma LastIs(table: Table, r: Record)
    ensures table + [r] != [] && (table + [r])[|table + [r]| - 1] == r && r.AsView().id == r.id
  {
  }

  /** The table an accepted submission leaves: the expired table, less its oldest terminal record
      when it was full, plus the new record under an identifier that is not in use. */
  lemma AcceptedTable(cfg: Config, table: Table, call: Call)
    requires Applicable(table, call) && call.Submit? && Distinct(table)
    ensures var effect := Apply(cfg, table, call);
            effect.answer.OneView? ==>
              && var expired, n := ExpireAll(table, call.readings), |effect.table| - 1;
              && 0 <= n && !HasId(effect.table[..n], effect.table[n].id)
              && effect.table[n] == Record(effect.answer.view.id, Pending, call.now + Min(call.ttl, cfg.maximumTtl), None, None)
              && if cfg.maximumRequests.Some? && |table| >= cfg.maximumRequests.value
                 then OldestTerminal(expired) < |expired| && effect.table[..n] == Without(expired, OldestTerminal(expired))
                 else effect.table[..n] == expired
    ensures var effect := Apply(cfg, table, call);
            !effect.answer.OneView? ==> effect.table == if call.ttl > 0 then ExpireAll(table, call.readings) else table
  {
    var effect := Apply(cfg, table, call);
    if effect.answer.OneView? {
      var expired := ExpireAll(table, call.readings);
      var room := MakeRoom(cfg, expired).value;
      ExpiryKeepsFresh(table, call.readings, call.tokens);
      RoomFresh(cfg, expired, call.tokens);
      var n := |effect.table| - 1;
      assert effect.table[..n] == room;
      FreshAgainst(room, effect.table[n], call.tokens);
    }
  }

  lemma FreshAgainst(room: Table, r: Record, tokens: seq<RequestId>)
    requires SomeFresh(room, tokens) && r.id == FirstFresh(room, tokens)
    ensures !HasId(room, r.id)
  {
  }

  // ----- the shape of records -----

  lemma ApplyShaped(cfg: Config, table: Table, call: Call)
    requires Applicable(table, call) && AllShaped(table)
    ensures AllShaped(Apply(cfg, table, call).table)
  {
    if call.Submit? && call.ttl > 0 {
      var expired := ExpireAll(table, call.readings);
      assert AllShaped(expired);
      if MakeRoom(cfg, expired).Some? && MakeRoom(cfg, expired).value != expired {
        assert AllShaped(Without(expired, OldestTerminal(expired)));
      }
    }
  }

  // ----- cursor conservation -----

  function Attached(table: Table): multiset<CursorId> {
    if table == [] then multiset{}
    else Attached(table[..|table| - 1]) + multiset(CursorOf(table[|table| - 1]))
  }

  lemma SwapSummand<T>(a: multiset<T>, b: multiset<T>, c: multiset<T>, d: multiset<T>, x: multiset<T>)
    requires a + b == c + d
    ensures a + x + b == c + x + d
  {
    assert a + x + b == (a + b) + x;
  }

  lemma Balance<T>(before: multiset<T>, after: multiset<T>, was: multiset<T>, becomes: multiset<T>,
                   arriving: multiset<T>, leaving: multiset<T>)
    requires after + was == before + becomes
    requires was + arriving == becomes + leaving
    ensures before + arriving == after + leaving
  {
    assert (before + arriving) + becomes == (before + becomes) + arriving == (after + was) + arriving
        == after + (was + arriving) == after + (becomes + leaving) == (after + leaving) + becomes;
    assert (before + arriving) + becomes - becomes == before + arriving;
  }

  lemma {:induction false} AttachedUpdate(table: Table, k: nat, r: Record)
    requires k < |table|
    ensures Attached(table[k := r]) + multiset(CursorOf(table[k])) == Attached(table) + multiset(CursorOf(r))
    decreases |table|
  {
    hide CursorOf;
    var n := |table| - 1;
    var updated := table[k := r];
    if k == n {
      assert updated[..n] == table[..n];
    } else {
      assert updated[..n] == table[..n][k := r] && updated[n] == table[n];
      AttachedUpdate(table[..n], k, r);
      SwapSummand(Attached(updated[..n]), multiset(CursorOf(table[k])), Attached(table[..n]), multiset(CursorOf(r)),
                  multiset(CursorOf(table[n])));
    }
  }

  lemma {:induction false} AttachedWithout(table: Table, k: nat)
    requires k < |table|
    ensures Attached(Without(table, k)) + multiset(CursorOf(table[k])) == Attached(table)
    decreases |table|
  {
    var n := |table| - 1;
    if k == n {
      assert Without(table, k) == table[..n];
    } else {
      var rest := Without(table, k);
      assert rest[..n - 1] == Without(table[..n], k) && rest[n - 1] == table[n] && |rest| == n;
      AttachedWithout(table[..n], k);
    }
  }

  lemma {:induction false} AttachedExpireAll(table: Table, readings: seq<int>)
    requires |readings| == |table|
    ensures Attached(ExpireAll(table, readings)) + multiset(TakenAll(table, readings)) == Attached(table)
    decreases |table|
  {
    hide Expire;
    hide Taken;
    hide CursorOf;
    if table != [] {
      var n := |table| - 1;
      var front, times := table[..n], readings[..n];
      var expired := ExpireAll(table, readings);
      assert expired[..n] == ExpireAll(front, times);
      AttachedExpireAll(front, times);
      KeptOrTaken(table[n], readings[n]);
      AddBoth(Attached(expired[..n]), multiset(TakenAll(front, times)), Attached(front),
              multiset(CursorOf(expired[n])), multiset(Taken(table[n], readings[n])), multiset(CursorOf(table[n])));
    }
  }

  lemma KeptOrTaken(r: Record, now: int)
    ensures multiset(CursorOf(Expire(r, now))) + multiset(Taken(r, now)) == multiset(CursorOf(r))
  {
  }

  lemma AddBoth<T>(a: multiset<T>, b: multiset<T>, ab: multiset<T>, c: multiset<T>, d: multiset<T>, cd: multiset<T>)
    requires a + b == ab && c + d == cd
    ensures (a + c) + (b + d) == ab + cd
  {
  }

  /** The cursor an operation brings in. */
  function Arriving(call: Call): multiset<CursorId> {
    if call.Register? then multiset{call.cursor} else multiset{}
  }

  /** The cursor an operation lets go of without cancelling it: an exact release of an attached
      cursor, or whatever was still attached at publication. */
  function LetGo(table: Table, call: Call): multiset<CursorId> {
    if !(call.Release? || call.Publish?) || Find(table, call.id) == |table| then multiset{}
    else LetGoOf(table[Find(table, call.id)], call, call.now)
  }

  function LetGoOf(before: Record, call: Call, now: int): multiset<CursorId> {
    var r := Expire(before, now);
    if !r.status.Pending? then multiset{}
    else if call.Publish? || (call.Release? && r.cursor == Some(call.cursor)) then multiset(CursorOf(r))
    else multiset{}
  }

  /** No operation, on any path, loses or duplicates a cursor: what was attached or arrives is
      afterwards attached, due for cancellation by this very operation, or let go. */
  lemma CursorsConserved(cfg: Config, table: Table, call: Call)
    requires Applicable(table, call) && AllShaped(table)
    ensures var effect := Apply(cfg, table, call);
            Attached(table) + Arriving(call) == Attached(effect.table) + multiset(effect.cancels) + LetGo(table, call)
  {
    hide Attached;
    hide OnRecord;
    hide TakenAll;
    hide SubmitEffect;
    hide LetGoOf;
    hide CursorOf;
    LetGoNothing(table, call);
    match call
    case Submit(ttl, readings, now, tokens) =>
      SubmitConserves(cfg, table, ttl, readings, now, tokens);
    case List(readings) =>
      AttachedExpireAll(table, readings);
    case _ =>
      var k := Find(table, call.id);
      if k < |table| {
        RecordTableConserves(table, k, call);
      }
  }

  /** Only an exact release and a publication let go of a cursor. */
  lemma LetGoNothing(table: Table, call: Call)
    ensures !(call.Release? || call.Publish?) ==> LetGo(table, call) == multiset{}
    ensures !call.Submit? && !call.List? && !(call.Release? || call.Publish?) ==>
              forall r: Record :: LetGoOf(r, call, call.now) == multiset{}
  {
  }

  lemma RecordTableConserves(table: Table, k: nat, call: Call)
    requires k < |table| && !call.Submit? && !call.List? && Shaped(table[k])
    ensures var effect := OnRecord(table[k], call, call.now);
            Attached(table) + Arriving(call)
            == Attached(table[k := effect.record]) + multiset(effect.cancels) + LetGoOf(table[k], call, call.now)
  {
    hide Attached;
    hide OnRecord;
    hide LetGoOf;
    hide CursorOf;
    var effect := OnRecord(table[k], call, call.now);
    var after := Attached(table[k := effect.record]);
    var cancelled, letGo := multiset(effect.cancels), LetGoOf(table[k], call, call.now);
    AttachedUpdate(table, k, effect.record);
    RecordConserves(table[k], call, call.now);
    Balance(Attached(table), after, multiset(CursorOf(table[k])), multiset(CursorOf(effect.record)),
            Arriving(call), cancelled + letGo);
    assert after + (cancelled + letGo) == after + cancelled + letGo;
  }

  lemma RecordConserves(before: Record, call: Call, now: int)
    requires !call.Submit? && !call.List? && Shaped(before)
    ensures var effect := OnRecord(before, call, now);
            multiset(CursorOf(before)) + Arriving(call)
            == multiset(CursorOf(effect.record)) + (multiset(effect.cancels) + LetGoOf(before, call, now))
  {
    var effect := OnRecord(before, call, now);
    var held := multiset(CursorOf(before));
    if Overdue(before, now) {
      OverdueConserves(before, call, now);
    } else {
      CurrentConserves(before, call, now);
    }
  }

  lemma OverdueConserves(before: Record, call: Call, now: int)
    requires !call.Submit? && !call.List? && Overdue(before, now)
    ensures var effect := OnRecord(before, call, now);
            && effect.cancels == CursorOf(before) + (if call.Register? then [call.cursor] else [])
            && effect.record.cursor == None && LetGoOf(before, call, now) == multiset{}
  {
  }

  /** Without expiry: exactly what each operation does with the attached cursor. */
  lemma CurrentCursors(before: Record, call: Call, now: int)
    requires !call.Submit? && !call.List? && Shaped(before) && !Overdue(before, now)
    ensures var effect := OnRecord(before, call, now);
            && (call.Register? && before.status.Pending? && before.cursor.None? ==>
                  effect.record.cursor == Some(call.cursor) && effect.cancels == [])
            && (call.Register? && !(before.status.Pending? && before.cursor.None?) ==>
                  effect.record.cursor == before.cursor && effect.cancels == [call.cursor])
            && (!call.Register? && before.cursor.None? ==> effect.record.cursor == None && effect.cancels == [])
            && ((call.Fail? || call.Cancel?) && before.cursor.Some? ==>
                  effect.record.cursor == None && effect.cancels == [before.cursor.value])
            && (call.Publish? ==> effect.record.cursor == None && effect.cancels == [])
            && (call.Release? ==>
                  effect.cancels == []
                  && effect.record.cursor == if before.cursor == Some(call.cursor) then None else before.cursor)
            && (call.Get? || call.Open? ==> effect.record.cursor == before.cursor && effect.cancels == [])
  {
  }

  lemma CurrentConserves(before: Record, call: Call, now: int)
    requires !call.Submit? && !call.List? && Shaped(before) && !Overdue(before, now)
    ensures var effect := OnRecord(before, call, now);
            multiset(CursorOf(before)) + Arriving(call)
            == multiset(CursorOf(effect.record)) + (multiset(effect.cancels) + LetGoOf(before, call, now))
  {
    CurrentCursors(before, call, now);
    hide OnRecord;
  }

  lemma AttachedSnoc(table: Table, r: Record)
    ensures Attached(table + [r]) == Attached(table) + multiset(CursorOf(r))
  {
    assert (table + [r])[..|table|] == table;
  }

  lemma RoomConserves(cfg: Config, table: Table)
    requires AllShaped(table) && MakeRoom(cfg, table).Some?
    ensures Attached(MakeRoom(cfg, table).value) == Attached(table)
  {
    var k := OldestTerminal(table);
    if MakeRoom(cfg, table).value != table {
      AttachedWithout(table, k);
      assert Shaped(table[k]) && CursorOf(table[k]) == [];
    }
  }

  lemma SubmitConserves(cfg: Config, table: Table, ttl: int, readings: seq<int>, now: int, tokens: seq<RequestId>)
    requires |readings| == |table| && SomeFresh(table, tokens) && AllShaped(table)
    ensures var effect := SubmitEffect(cfg, table, ttl, readings, now, tokens);
            Attached(table) == Attached(effect.table) + multiset(effect.cancels)
  {
    hide Attached;
    hide TakenAll;
    hide MakeRoom;
    hide FirstFresh;
    if ttl > 0 {
      var expired := ExpireAll(table, readings);
      AttachedExpireAll(table, readings);
      ExpiredShaped(table, readings);
      hide ExpireAll;
      if !AtPendingCapacity(cfg, expired) && MakeRoom(cfg, expired).Some? {
        var room := MakeRoom(cfg, expired).value;
        RoomConserves(cfg, expired);
        var after := SubmitEffect(cfg, table, ttl, readings, now, tokens).table;
        var r := after[|after| - 1];
        assert after == room + [r] && CursorOf(r) == [];
        AttachedSnoc(room, r);
      }
    }
  }

  lemma ExpiredShaped(table: Table, readings: seq<int>)
    requires |readings| == |table| && AllShaped(table)
    ensures AllShaped(ExpireAll(table, readings))
  {
  }

  // ----- capacity -----

  lemma {:induction false} PendingUpdate(table: Table, k: nat, r: Record)
    requires k < |table|
    ensures PendingCount(table[k := r]) + (if table[k].status.Pending? then 1 else 0)
         == PendingCount(table) + (if r.status.Pending? then 1 else 0)
    decreases |table|
  {
    var n := |table| - 1;
    var updated := table[k := r];
    if k == n {
      assert updated[..n] == table[..n];
    } else {
      assert updated[..n] == table[..n][k := r] && updated[n] == table[n];
      PendingUpdate(table[..n], k, r);
    }
  }

  lemma {:induction false} PendingExpireAll(table: Table, readings: seq<int>)
    requires |readings| == |table|
    ensures PendingCount(ExpireAll(table, readings)) <= PendingCount(table)
    decreases |table|
  {
    if table != [] {
      var n := |table| - 1;
      var expired := ExpireAll(table, readings);
      assert expired[..n] == ExpireAll(table[..n], readings[..n]);
      PendingExpireAll(table[..n], readings[..n]);
    }
  }

  lemma {:induction false} PendingWithout(table: Table, k: nat)
    requires k < |table|
    ensures PendingCount(Without(table, k)) <= PendingCount(table)
    decreases |table|
  {
    var n := |table| - 1;
    if k == n {
      assert Without(table, k) == table[..n];
    } else {
      var rest := Without(table, k);
      assert rest[..n - 1] == Without(table[..n], k) && rest[n - 1] == table[n] && |rest| == n;
      PendingWithout(table[..n], k);
    }
  }

  predicate WithinCapacity(cfg: Config, table: Table) {
    && (cfg.maximumPending.Some? ==> PendingCount(table) <= cfg.maximumPending.value)
    && (cfg.maximumRequests.Some? ==> |table| <= cfg.maximumRequests.value)
  }

  lemma SubmitCapacity(cfg: Config, table: Table, call: Call)
    requires call.Submit? && Applicable(table, call) && WithinCapacity(cfg, table)
    ensures WithinCapacity(cfg, Apply(cfg, table, call).table)
  {
    hide ExpireAll;
    hide OldestTerminal;
    hide FirstFresh;
    hide TakenAll;
    if call.ttl > 0 {
      var expired := ExpireAll(table, call.readings);
      PendingExpireAll(table, call.readings);
      if !AtPendingCapacity(cfg, expired) && MakeRoom(cfg, expired).Some? {
        var room := MakeRoom(cfg, expired).value;
        if room != expired {
          PendingWithout(expired, OldestTerminal(expired));
        }
        var after := Apply(cfg, table, call).table;
        assert after[..|after| - 1] == room;
      }
    }
  }

  lemma ApplyCapacity(cfg: Config, table: Table, call: Call)
    requires Applicable(table, call) && WithinCapacity(cfg, table)
    ensures WithinCapacity(cfg, Apply(cfg, table, call).table)
  {
    match call
    case Submit(ttl, readings, now, tokens) => {
      SubmitCapacity(cfg, table, call);
      hide *;
    }
    case List(readings) =>
      PendingExpireAll(table, readings);
    case _ =>
      var k := Find(table, call.id);
      if k < |table| {
        PendingUpdate(table, k, OnRecord(table[k], call, call.now).record);
      }
  }
}
