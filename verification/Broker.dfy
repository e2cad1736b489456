/** The in-process broker as the object it is: a table of record objects whose fields are changed
    in place. Each method is shown to be the broker function of BrokerModel, and returns the
    driver cancellations it issues after its locked region. */
module Broker {
  import opened Wrappers
  import opened BrokerModel

  /** A clock that never runs backwards. */
  class Clock {
    var last: int

    constructor (start: int)
      ensures last == start
    {
      last := start;
    }

    method Now() returns (now: int)
      modifies this
      ensures last == now >= old(last)
    {
      var elapsed: int := *;
      if elapsed > 0 {
        last := last + elapsed;
      }
      now := last;
    }
  }

  class RequestRecord {
    const requestId: RequestId
    const expiresAt: int
    var status: Status
    var source: Option<SourceId>
    var cursor: Option<CursorId>

    ghost function Value(): Record
      reads this
    {
      Record(requestId, status, expiresAt, source, cursor)
    }

    constructor (requestId: RequestId, expiresAt: int)
      ensures Value() == Record(requestId, Pending, expiresAt, None, None)
    {
      this.requestId, this.expiresAt := requestId, expiresAt;
      status, source, cursor := Pending, None, None;
    }

    function View(): (view: BrokerModel.View)
      reads this
      ensures view == Value().AsView()
    {
      BrokerModel.View(requestId, status, expiresAt)
    }

    /** Lazy expiry of one record; the cursor it held is handed to the caller. */
    method Expire(clock: Clock) returns (taken: seq<CursorId>, ghost now: int)
      modifies this, clock
      ensures old(clock.last) <= now <= clock.last
      ensures Value() == BrokerModel.Expire(old(Value()), now)
      ensures taken == Taken(old(Value()), now)
    {
      taken, now := [], clock.last;
      if status == Pending || status == Complete {
        var reading := clock.Now();
        now := reading;
        taken := ExpireAt(reading);
      }
    }

    /** The part of expiry that follows the reading of a live record. */
    method ExpireAt(reading: int) returns (taken: seq<CursorId>)
      requires status == Pending || status == Complete
      modifies this
      ensures Value() == BrokerModel.Expire(old(Value()), reading)
      ensures taken == Taken(old(Value()), reading)
    {
      taken := [];
      if reading >= expiresAt {
        taken := if cursor.Some? then [cursor.value] else [];
        status, source, cursor := BrokerModel.Expired, None, None;
      }
    }
  }

  ghost predicate Monotone(from: int, readings: seq<int>, to: int) {
    && from <= to
    && (forall i :: 0 <= i < |readings| ==> from <= readings[i] <= to)
    && (forall i, j :: 0 <= i <= j < |readings| ==> readings[i] <= readings[j])
  }

  lemma SameReadings(start: int, n: nat)
    ensures Monotone(start, seq(n, _ => start) + [start], start)
  {
  }

  lemma OneMore(from: int, readings: seq<int>, last: int, now: int, to: int)
    requires Monotone(from, readings, last) && last <= now <= to
    ensures Monotone(from, readings + [now], to)
  {
  }

  lemma OnAbsent(cfg: Config, table: Table, call: Call)
    requires !call.Submit? && !call.List?
    ensures Find(table, call.id) == |table| ==>
            Apply(cfg, table, call) == Effect(table, Unavailable, if call.Register? then [call.cursor] else [])
  {
  }

  lemma OnPresent(cfg: Config, table: Table, call: Call, now: int)
    requires !call.Submit? && !call.List? && call.now == now && Find(table, call.id) < |table|
    ensures var k := Find(table, call.id);
            var effect := OnRecord(table[k], call, now);
            Apply(cfg, table, call) == Effect(table[k := effect.record], effect.answer, effect.cancels)
  {
  }

  class InProcessBroker {
    const cfg: Config
    const clock: Clock
    var records: seq<RequestRecord>

    ghost predicate Valid()
      reads this, records
    {
      && ValidConfig(cfg)
      && (forall i, j :: 0 <= i < j < |records| ==> records[i] != records[j])
      && (forall i, j :: 0 <= i < j < |records| ==> records[i].requestId != records[j].requestId)
    }

    ghost function Contents(): (table: Table)
      reads this, records
      ensures |table| == |records|
    {
      seq(|records|, i requires 0 <= i < |records| reads this, records => records[i].Value())
    }

    constructor (cfg: Config, clock: Clock)
      requires ValidConfig(cfg)
      ensures Valid() && Contents() == [] && this.cfg == cfg && this.clock == clock
    {
      this.cfg, this.clock := cfg, clock;
      records := [];
    }

    /** The guarded constructor of the source. */
    static method Create(cfg: Config, clock: Clock) returns (broker: InProcessBroker?)
      ensures broker != null <==>
                && cfg.maximumTtl > 0 && (cfg.maximumPending.Some? ==> cfg.maximumPending.value > 0)
                && (cfg.maximumRequests.Some? ==> cfg.maximumRequests.value > 0)
      ensures broker != null ==> fresh(broker) && broker.Valid() && broker.Contents() == [] && broker.cfg == cfg
    {
      if cfg.maximumTtl <= 0 || (cfg.maximumPending.Some? && cfg.maximumPending.value <= 0)
         || (cfg.maximumRequests.Some? && cfg.maximumRequests.value <= 0) {
        return null;
      }
      broker := new InProcessBroker(cfg, clock);
    }

    method IndexOf(requestId: RequestId) returns (k: nat)
      requires Valid()
      ensures k == Find(Contents(), requestId)
    {
      k := 0;
      while k < |records| && records[k].requestId != requestId
        invariant k <= |records|
        invariant forall j :: 0 <= j < k ==> Contents()[j].id != requestId
      {
        k := k + 1;
      }
      FindIs(Contents(), requestId, k);
    }

    /** Entry of a locked region over one present record. */
    method ExpireAt(k: nat) returns (taken: seq<CursorId>, ghost now: int)
      requires Valid() && k < |records|
      modifies records[k], clock
      ensures Valid() && records == old(records)
      ensures old(clock.last) <= now <= clock.last
      ensures Contents() == old(Contents())[k := Expire(old(Contents())[k], now)]
      ensures records[k].Value() == Expire(old(Contents())[k], now)
      ensures taken == Taken(old(Contents())[k], now)
    {
      ghost var before := Contents();
      taken, now := records[k].Expire(clock);
      assert forall j :: 0 <= j < |records| && j != k ==> records[j].Value() == before[j];
    }

    /** Entry of a locked region over the whole table. */
    method ExpireEvery() returns (taken: seq<CursorId>, ghost readings: seq<int>)
      requires Valid()
      modifies records, clock
      ensures Valid() && records == old(records)
      ensures |readings| == |records| && Monotone(old(clock.last), readings, clock.last)
      ensures Contents() == ExpireAll(old(Contents()), readings)
      ensures taken == TakenAll(old(Contents()), readings)
    {
      hide BrokerModel.Expire;
      hide Taken;
      hide TakenAll;
      taken, readings := [], [];
      NothingTaken();

      ghost var before := Contents();
      assert before[..0] == [];
      var i := 0;
      while i < |records|
        invariant 0 <= i <= |records| == |before| && |readings| == i
        invariant records == old(records)
        invariant Monotone(old(clock.last), readings, clock.last)
        invariant forall j :: 0 <= j < i ==> records[j].Value() == Expire(before[j], readings[j])
        invariant forall j :: i <= j < |records| ==> records[j].Value() == before[j]
        invariant taken == TakenAll(before[..i], readings)
      {
        ghost var now;
        var some;
        label Before:
        some, now := records[i].Expire(clock);
        assert forall j :: 0 <= j < |records| && j != i ==> records[j].Value() == old@Before(records[j].Value());
        TakenAllSnoc(before, i, readings, now);
        taken := taken + some;
        readings := readings + [now];
        i := i + 1;
      }
      assert before[..|records|] == before;
    }

    method PendingRecords() returns (n: nat)
      requires Valid()
      ensures n == PendingCount(Contents())
    {
      n := 0;
      var i := 0;
      ghost var table := Contents();
      while i < |records|
        invariant 0 <= i <= |records|
        invariant n == PendingCount(table[..i])
      {
        if records[i].status == Pending {
          n := n + 1;
        }
        i := i + 1;
        assert table[..i][..i - 1] == table[..i - 1];
      }
      assert table[..|records|] == table;
    }

    method MakeRoom() returns (ok: bool)
      requires Valid()
      modifies this`records
      ensures Valid()
      ensures ok == BrokerModel.MakeRoom(cfg, old(Contents())).Some?
      ensures Contents() == if ok then BrokerModel.MakeRoom(cfg, old(Contents())).value else old(Contents())
      ensures forall i :: 0 <= i < |records| ==> records[i] in old(records)
    {
      if cfg.maximumRequests.None? || |records| < cfg.maximumRequests.value {
        return true;
      }
      ghost var table := Contents();
      var k := 0;
      while k < |records|
        invariant 0 <= k <= |records|
        invariant forall j :: 0 <= j < k ==> table[j].Live()
      {
        if records[k].status in {Failed, Cancelled, BrokerModel.Expired} {
          OldestIs(table, k);
          records := records[..k] + records[k + 1..];
          assert Contents() == Without(table, k);
          return true;
        }
        k := k + 1;
      }
      OldestIs(table, k);
      return false;
    }

    method NewRequestId(tokens: seq<RequestId>) returns (id: RequestId)
      requires Valid() && SomeFresh(Contents(), tokens)
      ensures id == FirstFresh(Contents(), tokens)
    {
      hide FirstFresh;
      hide SomeFresh;
      ghost var table := Contents();
      var i := 0;
      TokensAhead(table, tokens, 0);
      assert tokens[0..] == tokens;
      var k := IndexOf(tokens[i]);
      while k < |records|
        invariant 0 <= i < |tokens| && SomeFresh(table, tokens[i..])
        invariant k == Find(table, tokens[i])
        invariant FirstFresh(table, tokens[i..]) == FirstFresh(table, tokens)
        decreases |tokens| - i
      {
        assert table[k].id == tokens[i];
        SkipToken(table, tokens, i);
        i := i + 1;
        TokensAhead(table, tokens, i);
        k := IndexOf(tokens[i]);
      }
      id := tokens[i];
      TakeToken(table, tokens, i);
    }

    method Submit(requestedTtl: int, tokens: seq<RequestId>)
      returns (answer: Answer, cancels: seq<CursorId>, ghost readings: seq<int>, ghost now: int)
      requires Valid() && SomeFresh(Contents(), tokens)
      modifies this`records, records, clock
      ensures Valid() && |readings| == |old(records)| && Monotone(old(clock.last), readings + [now], clock.last)
      ensures Effect(Contents(), answer, cancels)
              == Apply(cfg, old(Contents()), BrokerModel.Submit(requestedTtl, readings, now, tokens))
      ensures forall i :: 0 <= i < |records| ==> records[i] in old(records) || fresh(records[i])
    {
      hide *;
      cancels, now := [], clock.last;
      ghost var start, table := clock.last, Contents();
      readings := seq(|records|, _ => start);
      SameReadings(start, |records|);
      SubmissionIs(cfg, table, requestedTtl, readings, now, tokens);
      if requestedTtl <= 0 {
        return BadValue, cancels, readings, now;
      }
      cancels, readings := ExpireEvery();
      now := clock.last;
      OneMore(start, readings, now, now, now);
      SubmissionIs(cfg, table, requestedTtl, readings, now, tokens);
      if cfg.maximumPending.Some? {
        var pending := PendingRecords();
        if pending >= cfg.maximumPending.value {
          return Unavailable, cancels, readings, now;
        }
      }
      var room := MakeRoom();
      if !room {
        return Unavailable, cancels, readings, now;
      }
      ghost var before := clock.last;
      answer, now := AddPending(requestedTtl, tokens);
      OneMore(start, readings, before, now, clock.last);
      SubmissionIs(cfg, table, requestedTtl, readings, now, tokens);
    }

    /** The tail of submit: a fresh token, a deadline, and the new record at the end of the table. */
    method AddPending(requestedTtl: int, tokens: seq<RequestId>) returns (answer: Answer, ghost now: int)
      requires Valid() && SomeFresh(Contents(), tokens)
      modifies this`records, clock
      ensures Valid() && old(clock.last) <= now <= clock.last
      ensures var r := Record(FirstFresh(old(Contents()), tokens), Pending, now + Min(requestedTtl, cfg.maximumTtl), None, None);
              Contents() == old(Contents()) + [r] && answer == OneView(r.AsView())
      ensures forall i :: 0 <= i < |records| ==> records[i] in old(records) || fresh(records[i])
    {
      ghost var table := Contents();
      var id := NewRequestId(tokens);
      var reading := clock.Now();
      now := reading;
      var record := new RequestRecord(id, reading + Min(requestedTtl, cfg.maximumTtl));
      forall i | 0 <= i < |records| ensures records[i].requestId != id {
        assert table[i].id == records[i].requestId;
      }
      records := records + [record];
      assert Contents() == table + [record.Value()];
      answer := OneView(record.View());
    }

    twostate lemma OneChanged(k: nat)
      requires old(Valid()) && records == old(records) && k < |records|
      requires records[k].requestId == old(records[k].requestId)
      requires forall r <- records :: r != records[k] ==> r.Value() == old(r.Value())
      ensures Valid() && Contents() == old(Contents())[k := records[k].Value()]
    {
      forall i | 0 <= i < |records|
        ensures records[i].requestId == old(records[i].requestId) && (i != k ==> records[i].Value() == old(records[i].Value()))
      {
        assert i != k ==> records[i] != records[k];
      }
    }

    method RegisterCursor(requestId: RequestId, cursor: CursorId)
      returns (answer: Answer, cancels: seq<CursorId>, ghost now: int)
      requires Valid()
      modifies records, clock
      ensures Valid() && records == old(records) && old(clock.last) <= now <= clock.last
      ensures Effect(Contents(), answer, cancels) == Apply(cfg, old(Contents()), Register(requestId, cursor, now))
    {
      hide BrokerModel.Expire;
      hide Taken;
      hide Apply;
      hide Valid;
      hide Contents;
      now := clock.last;
      var k := IndexOf(requestId);
      OnAbsent(cfg, Contents(), Register(requestId, cursor, now));
      if k == |records| {
        return Unavailable, [cursor], now;
      }
      cancels, now := ExpireAt(k);
      OnPresent(cfg, old(Contents()), Register(requestId, cursor, now), now);
      var record := records[k];
      label Expired:
      if record.status == Pending && record.cursor == None {
        record.cursor := Some(cursor);
        OneChanged@Expired(k);
        return OneView(record.View()), cancels, now;
      }
      return Unavailable, cancels + [cursor], now;
    }

    method ReleaseCursor(requestId: RequestId, cursor: CursorId)
      returns (answer: Answer, cancels: seq<CursorId>, ghost now: int)
      requires Valid()
      modifies records, clock
      ensures Valid() && records == old(records) && old(clock.last) <= now <= clock.last
      ensures Effect(Contents(), answer, cancels) == Apply(cfg, old(Contents()), Release(requestId, cursor, now))
    {
      hide BrokerModel.Expire;
      hide Taken;
      hide Apply;
      hide Valid;
      hide Contents;
      now := clock.last;
      var k := IndexOf(requestId);
      OnAbsent(cfg, Contents(), Release(requestId, cursor, now));
      if k == |records| {
        return Unavailable, [], now;
      }
      cancels, now := ExpireAt(k);
      OnPresent(cfg, old(Contents()), Release(requestId, cursor, now), now);
      var record := records[k];
      label Expired:
      if record.status == Pending && record.cursor == Some(cursor) {
        record.cursor := None;
        OneChanged@Expired(k);
      }
      return Nothing, cancels, now;
    }

    method Publish(requestId: RequestId, source: SourceId)
      returns (answer: Answer, cancels: seq<CursorId>, ghost now: int)
      requires Valid()
      modifies records, clock
      ensures Valid() && records == old(records) && old(clock.last) <= now <= clock.last
      ensures Effect(Contents(), answer, cancels) == Apply(cfg, old(Contents()), BrokerModel.Publish(requestId, source, now))
    {
      hide BrokerModel.Expire;
      hide Taken;
      hide Apply;
      hide Valid;
      hide Contents;
      now := clock.last;
      var k := IndexOf(requestId);
      OnAbsent(cfg, Contents(), BrokerModel.Publish(requestId, source, now));
      if k == |records| {
        return Unavailable, [], now;
      }
      cancels, now := ExpireAt(k);
      OnPresent(cfg, old(Contents()), BrokerModel.Publish(requestId, source, now), now);
      var record := records[k];
      label Expired:
      if record.status != Pending {
        return Unavailable, cancels, now;
      }
      record.source := Some(source);
      record.cursor := None;
      record.status := Complete;
      OneChanged@Expired(k);
      return OneView(record.View()), cancels, now;
    }

    method Fail(requestId: RequestId) returns (answer: Answer, cancels: seq<CursorId>, ghost now: int)
      requires Valid()
      modifies records, clock
      ensures Valid() && records == old(records) && old(clock.last) <= now <= clock.last
      ensures Effect(Contents(), answer, cancels) == Apply(cfg, old(Contents()), BrokerModel.Fail(requestId, now))
    {
      hide BrokerModel.Expire;
      hide Taken;
      hide Apply;
      hide Valid;
      hide Contents;
      now := clock.last;
      var k := IndexOf(requestId);
      OnAbsent(cfg, Contents(), BrokerModel.Fail(requestId, now));
      if k == |records| {
        return Unavailable, [], now;
      }
      cancels, now := ExpireAt(k);
      OnPresent(cfg, old(Contents()), BrokerModel.Fail(requestId, now), now);
      var record := records[k];
      if record.status != Pending {
        return Unavailable, cancels, now;
      }
      label Expired:
      var cursor := record.cursor;
      record.cursor := None;
      record.status := Failed;
      OneChanged@Expired(k);
      return OneView(record.View()), cancels + (if cursor.Some? then [cursor.value] else []), now;
    }

    method ListRequests() returns (answer: Answer, cancels: seq<CursorId>, ghost readings: seq<int>)
      requires Valid()
      modifies records, clock
      ensures Valid() && records == old(records)
      ensures |readings| == |records| && Monotone(old(clock.last), readings, clock.last)
      ensures Effect(Contents(), answer, cancels) == Apply(cfg, old(Contents()), List(readings))
    {
      cancels, readings := ExpireEvery();
      var views: seq<BrokerModel.View> := [];
      var i := |records|;
      while i > 0
        invariant 0 <= i <= |records| && |views| == |records| - i
        invariant forall j :: 0 <= j < |views| ==> views[j] == Contents()[|records| - 1 - j].AsView()
      {
        i := i - 1;
        views := views + [records[i].View()];
      }
      assert views == Reversed(ViewsOf(Contents()));
      answer := Views(views);
    }

    method GetRequest(requestId: RequestId) returns (answer: Answer, cancels: seq<CursorId>, ghost now: int)
      requires Valid()
      modifies records, clock
      ensures Valid() && records == old(records) && old(clock.last) <= now <= clock.last
      ensures Effect(Contents(), answer, cancels) == Apply(cfg, old(Contents()), Get(requestId, now))
    {
      now := clock.last;
      var k := IndexOf(requestId);
      if k == |records| {
        return Unavailable, [], now;
      }
      cancels, now := ExpireAt(k);
      answer := OneView(records[k].View());
    }

    method OpenSource(requestId: RequestId) returns (answer: Answer, cancels: seq<CursorId>, ghost now: int)
      requires Valid()
      modifies records, clock
      ensures Valid() && records == old(records) && old(clock.last) <= now <= clock.last
      ensures Effect(Contents(), answer, cancels) == Apply(cfg, old(Contents()), Open(requestId, now))
    {
      now := clock.last;
      var k := IndexOf(requestId);
      if k == |records| {
        return Unavailable, [], now;
      }
      cancels, now := ExpireAt(k);
      var record := records[k];
      assert Contents()[k] == record.Value();
      if record.status != Complete || record.source == None {
        return Unavailable, cancels, now;
      }
      answer := Source(record.source.value);
    }

    method Cancel(requestId: RequestId) returns (answer: Answer, cancels: seq<CursorId>, ghost now: int)
      requires Valid()
      modifies records, clock
      ensures Valid() && records == old(records) && old(clock.last) <= now <= clock.last
      ensures Effect(Contents(), answer, cancels) == Apply(cfg, old(Contents()), BrokerModel.Cancel(requestId, now))
    {
      hide BrokerModel.Expire;
      hide Taken;
      hide Apply;
      hide Valid;
      hide Contents;
      now := clock.last;
      var k := IndexOf(requestId);
      OnAbsent(cfg, Contents(), BrokerModel.Cancel(requestId, now));
      if k == |records| {
        return Unavailable, [], now;
      }
      cancels, now := ExpireAt(k);
      OnPresent(cfg, old(Contents()), BrokerModel.Cancel(requestId, now), now);
      var record := records[k];
      if record.status == Cancelled {
        return OneView(record.View()), cancels, now;
      }
      if record.status == BrokerModel.Expired {
        return Unavailable, cancels, now;
      }
      if record.status == Failed {
        return OneView(record.View()), cancels, now;
      }
      label Expired:
      record.status := Cancelled;
      record.source := None;
      var cursor := record.cursor;
      record.cursor := None;
      OneChanged@Expired(k);
      return OneView(record.View()), cancels + (if cursor.Some? then [cursor.value] else []), now;
    }
  }

  // ----- the searches find what the functions of the model name -----

  lemma FindIs(table: Table, id: RequestId, k: nat)
    requires k <= |table| && (k < |table| ==> table[k].id == id)
    requires forall j :: 0 <= j < k ==> table[j].id != id
    ensures Find(table, id) == k
  {
  }

  lemma OldestIs(table: Table, k: nat)
    requires k <= |table| && (k < |table| ==> !table[k].Live())
    requires forall j :: 0 <= j < k ==> table[j].Live()
    ensures OldestTerminal(table) == k
  {
  }

  lemma NothingTaken()
    ensures TakenAll([], []) == []
  {
  }

  lemma TakenAllSnoc(table: Table, i: nat, readings: seq<int>, now: int)
    requires i < |table| && |readings| == i
    ensures TakenAll(table[..i + 1], readings + [now]) == TakenAll(table[..i], readings) + Taken(table[i], now)
  {
    assert table[..i + 1][..i] == table[..i] && (readings + [now])[..i] == readings;
  }

  lemma TokensAhead(table: Table, tokens: seq<RequestId>, i: nat)
    requires i <= |tokens| && SomeFresh(table, tokens[i..])
    ensures i < |tokens|
  {
  }

  lemma SkipToken(table: Table, tokens: seq<RequestId>, i: nat)
    requires i < |tokens| && SomeFresh(table, tokens[i..]) && HasId(table, tokens[i])
    ensures SomeFresh(table, tokens[i + 1..]) && FirstFresh(table, tokens[i + 1..]) == FirstFresh(table, tokens[i..])
  {
    var ahead := tokens[i..];
    var j :| 0 <= j < |ahead| && !HasId(table, ahead[j]);
    assert ahead[1..] == tokens[i + 1..];
    assert ahead[1..][j - 1] == ahead[j];
  }

  lemma TakeToken(table: Table, tokens: seq<RequestId>, i: nat)
    requires i < |tokens| && SomeFresh(table, tokens[i..]) && Find(table, tokens[i]) == |table|
    ensures FirstFresh(table, tokens[i..]) == tokens[i]
  {
    assert tokens[i..][0] == tokens[i];
  }
}
