/** The request broker as a function of its record table. The table keeps the insertion order of
    the source's dict. Every operation runs under one lock, so it is one step: it maps the table,
    the arguments and the clock readings it makes to a new table, an answer, and the driver
    cancellations it issues once the lock is released. */
module BrokerModel {
  import opened Wrappers

  // Identities of opaque objects: request tokens, driver cursors, admitted sources.
  type RequestId = nat
  type CursorId = nat
  type SourceId = nat

  datatype Status = Pending | Complete | Failed | Cancelled | Expired

  datatype View = View(id: RequestId, status: Status, expiresAt: int)

  datatype Record = Record(
    id: RequestId, status: Status, expiresAt: int, source: Option<SourceId>, cursor: Option<CursorId>)
  {
    function AsView(): View { View(id, status, expiresAt) }
    predicate Live() { status.Pending? || status.Complete? }
  }

  type Table = seq<Record>

  datatype Config = Config(maximumTtl: int, maximumPending: Option<int>, maximumRequests: Option<int>)

  predicate Positive(limit: Option<int>) { limit.Some? ==> limit.value > 0 }

  /** What the broker's constructor accepts. */
  predicate ValidConfig(cfg: Config) {
    cfg.maximumTtl > 0 && Positive(cfg.maximumPending) && Positive(cfg.maximumRequests)
  }

  datatype Answer =
    | OneView(view: View)
    | Views(views: seq<View>)
    | Source(source: SourceId)
    | Nothing
    | Unavailable
    | BadValue

  datatype Effect = Effect(table: Table, answer: Answer, cancels: seq<CursorId>)

  // ----- lazy expiry -----

  predicate Overdue(r: Record, now: int) {
    r.Live() && now >= r.expiresAt
  }

  function Expire(r: Record, now: int): Record {
    if Overdue(r, now) then r.(status := Expired, source := None, cursor := None) else r
  }

  /** The cursor an expiry takes out of a record. */
  function Taken(r: Record, now: int): seq<CursorId> {
    if Overdue(r, now) && r.cursor.Some? then [r.cursor.value] else []
  }

  /** Whole-table expiry; every record makes its own clock reading. */
  function ExpireAll(table: Table, readings: seq<int>): (expired: Table)
    requires |readings| == |table|
    ensures |expired| == |table|
  {
    seq(|table|, i requires 0 <= i < |table| => Expire(table[i], readings[i]))
  }

  function TakenAll(table: Table, readings: seq<int>): seq<CursorId>
    requires |readings| == |table|
  {
    if table == [] then []
    else
      var n := |table| - 1;
      TakenAll(table[..n], readings[..n]) + Taken(table[n], readings[n])
  }

  // ----- looking records up -----

  function Find(table: Table, id: RequestId): (k: nat)
    ensures k <= |table|
    ensures k < |table| ==> table[k].id == id
    ensures forall j :: 0 <= j < k ==> table[j].id != id
  {
    if table == [] then 0
    else if table[0].id == id then 0
    else 1 + Find(table[1..], id)
  }

  function Lookup(table: Table, id: RequestId): Option<Record> {
    var k := Find(table, id);
    if k < |table| then Some(table[k]) else None
  }

  predicate HasId(table: Table, id: RequestId) {
    exists i :: 0 <= i < |table| && table[i].id == id
  }

  // ----- capacity -----

  function PendingCount(table: Table): nat {
    if table == [] then 0
    else PendingCount(table[..|table| - 1]) + if table[|table| - 1].status.Pending? then 1 else 0
  }

  predicate AtPendingCapacity(cfg: Config, table: Table) {
    cfg.maximumPending.Some? && PendingCount(table) >= cfg.maximumPending.value
  }

  function OldestTerminal(table: Table): (k: nat)
    ensures k <= |table|
    ensures k < |table| ==> !table[k].Live()
    ensures forall j :: 0 <= j < k ==> table[j].Live()
  {
    if table == [] then 0
    else if !table[0].Live() then 0
    else 1 + OldestTerminal(table[1..])
  }

  function Without(table: Table, k: nat): Table
    requires k < |table|
  {
    table[..k] + table[k + 1..]
  }

  function MakeRoom(cfg: Config, table: Table): Option<Table> {
    if cfg.maximumRequests.None? || |table| < cfg.maximumRequests.value then Some(table)
    else
      var k := OldestTerminal(table);
      if k < |table| then Some(Without(table, k)) else None
  }

  predicate SomeFresh(table: Table, tokens: seq<RequestId>) {
    exists i :: 0 <= i < |tokens| && !HasId(table, tokens[i])
  }

  /** The token loop: successive random tokens until one is not in the table. */
  function FirstFresh(table: Table, tokens: seq<RequestId>): (id: RequestId)
    requires SomeFresh(table, tokens)
    ensures !HasId(table, id) && id in tokens
  {
    if !HasId(table, tokens[0]) then tokens[0]
    else
      assert SomeFresh(table, tokens[1..]) by {
        var i :| 0 <= i < |tokens| && !HasId(table, tokens[i]);
        assert tokens[i] == tokens[1..][i - 1];
      }
      FirstFresh(table, tokens[1..])
  }

  function Min(a: int, b: int): int { if a <= b then a else b }

  // ----- operations -----

  datatype Call =
    | Submit(ttl: int, readings: seq<int>, now: int, tokens: seq<RequestId>)
    | Register(id: RequestId, cursor: CursorId, now: int)
    | Release(id: RequestId, cursor: CursorId, now: int)
    | Publish(id: RequestId, source: SourceId, now: int)
    | Fail(id: RequestId, now: int)
    | List(readings: seq<int>)
    | Get(id: RequestId, now: int)
    | Open(id: RequestId, now: int)
    | Cancel(id: RequestId, now: int)

  /** One reading per record for whole-table operations, and a token stream that leaves the loop. */
  predicate Applicable(table: Table, call: Call) {
    match call
    case Submit(_, readings, _, tokens) => |readings| == |table| && SomeFresh(table, tokens)
    case List(readings) => |readings| == |table|
    case _ => true
  }

  lemma RoomKeepsFresh(table: Table, k: nat, tokens: seq<RequestId>)
    requires k < |table| && SomeFresh(table, tokens)
    ensures SomeFresh(Without(table, k), tokens)
  {
    var i :| 0 <= i < |tokens| && !HasId(table, tokens[i]);
    forall j | 0 <= j < |Without(table, k)|
      ensures Without(table, k)[j].id != tokens[i]
    {
      assert Without(table, k)[j] == table[if j < k then j else j + 1];
    }
  }

  lemma RoomFresh(cfg: Config, table: Table, tokens: seq<RequestId>)
    requires MakeRoom(cfg, table).Some? && SomeFresh(table, tokens)
    ensures SomeFresh(MakeRoom(cfg, table).value, tokens)
  {
    if MakeRoom(cfg, table).value != table { RoomKeepsFresh(table, OldestTerminal(table), tokens); }
  }

  lemma ExpiryKeepsFresh(table: Table, readings: seq<int>, tokens: seq<RequestId>)
    requires |readings| == |table| && SomeFresh(table, tokens)
    ensures SomeFresh(ExpireAll(table, readings), tokens)
  {
    var i :| 0 <= i < |tokens| && !HasId(table, tokens[i]);
    assert !HasId(ExpireAll(table, readings), tokens[i]);
  }

  function SubmitEffect(cfg: Config, table: Table, ttl: int, readings: seq<int>, now: int, tokens: seq<RequestId>): Effect
    requires |readings| == |table| && SomeFresh(table, tokens)
  {
    if ttl <= 0 then Effect(table, BadValue, [])
    else
      var expired, taken := ExpireAll(table, readings), TakenAll(table, readings);
      if AtPendingCapacity(cfg, expired) then Effect(expired, Unavailable, taken)
      else
        match MakeRoom(cfg, expired)
        case None => Effect(expired, Unavailable, taken)
        case Some(room) =>
          assert SomeFresh(room, tokens) by {
            ExpiryKeepsFresh(table, readings, tokens);
            RoomFresh(cfg, expired, tokens);
          }
          var r := Record(FirstFresh(room, tokens), Pending, now + Min(ttl, cfg.maximumTtl), None, None);
          Effect(room + [r], OneView(r.AsView()), taken)
  }

  datatype RecordEffect = RecordEffect(record: Record, answer: Answer, cancels: seq<CursorId>)

  /** An operation on one present record, after its lazy expiry. */
  function OnRecord(before: Record, call: Call, now: int): RecordEffect
    requires !call.Submit? && !call.List?
  {
    var r, taken := Expire(before, now), Taken(before, now);
    match call
    case Register(_, cursor, _) =>
      if r.status.Pending? && r.cursor.None? then
        RecordEffect(r.(cursor := Some(cursor)), OneView(r.AsView()), taken)
      else RecordEffect(r, Unavailable, taken + [cursor])
    case Release(_, cursor, _) =>
      RecordEffect(if r.status.Pending? && r.cursor == Some(cursor) then r.(cursor := None) else r, Nothing, taken)
    case Publish(_, source, _) =>
      if r.status.Pending? then
        var done := r.(source := Some(source), cursor := None, status := Complete);
        RecordEffect(done, OneView(done.AsView()), taken)
      else RecordEffect(r, Unavailable, taken)
    case Fail(_, _) =>
      if r.status.Pending? then
        var failed := r.(cursor := None, status := Failed);
        RecordEffect(failed, OneView(failed.AsView()), taken + CursorOf(r))
      else RecordEffect(r, Unavailable, taken)
    case Get(_, _) => RecordEffect(r, OneView(r.AsView()), taken)
    case Open(_, _) =>
      if r.status.Complete? && r.source.Some? then RecordEffect(r, Source(r.source.value), taken)
      else RecordEffect(r, Unavailable, taken)
    case Cancel(_, _) =>
      if r.status.Cancelled? || r.status.Failed? then RecordEffect(r, OneView(r.AsView()), taken)
      else if r.status.Expired? then RecordEffect(r, Unavailable, taken)
      else
        var cancelled := r.(status := Cancelled, source := None, cursor := None);
        RecordEffect(cancelled, OneView(cancelled.AsView()), taken + CursorOf(r))
  }

  function CursorOf(r: Record): seq<CursorId> {
    if r.cursor.Some? then [r.cursor.value] else []
  }

  function Reversed<T>(s: seq<T>): (r: seq<T>)
    ensures |r| == |s|
  {
    seq(|s|, i requires 0 <= i < |s| => s[|s| - 1 - i])
  }

  function ViewsOf(table: Table): (views: seq<View>)
    ensures |views| == |table|
  {
    seq(|table|, i requires 0 <= i < |table| => table[i].AsView())
  }

  function Apply(cfg: Config, table: Table, call: Call): Effect
    requires Applicable(table, call)
  {
    match call
    case Submit(ttl, readings, now, tokens) => SubmitEffect(cfg, table, ttl, readings, now, tokens)
    case List(readings) =>
      var expired := ExpireAll(table, readings);
      Effect(expired, Views(Reversed(ViewsOf(expired))), TakenAll(table, readings))
    case _ =>
      var k := Find(table, call.id);
      if k == |table| then Effect(table, Unavailable, if call.Register? then [call.cursor] else [])
      else
        var effect := OnRecord(table[k], call, call.now);
        Effect(table[k := effect.record], effect.answer, effect.cancels)
  }

  /** The outcomes of a submission, in the order in which they are decided. */
  lemma SubmissionIs(cfg: Config, table: Table, ttl: int, readings: seq<int>, now: int, tokens: seq<RequestId>)
    requires |readings| == |table| && SomeFresh(table, tokens)
    ensures Apply(cfg, table, Submit(ttl, readings, now, tokens)) == SubmitEffect(cfg, table, ttl, readings, now, tokens)
    ensures var expired, taken := ExpireAll(table, readings), TakenAll(table, readings);
            var room := MakeRoom(cfg, expired);
            var full := cfg.maximumPending.Some? && PendingCount(expired) >= cfg.maximumPending.value;
            var effect := SubmitEffect(cfg, table, ttl, readings, now, tokens);
            && (ttl <= 0 ==> effect == Effect(table, BadValue, []))
            && (ttl > 0 && (full || room.None?) ==> effect == Effect(expired, Unavailable, taken))
            && (room.Some? ==> SomeFresh(room.value, tokens))
            && (ttl > 0 && !full && room.Some? ==>
                  var r := Record(FirstFresh(room.value, tokens), Pending, now + Min(ttl, cfg.maximumTtl), None, None);
                  effect == Effect(room.value + [r], OneView(r.AsView()), taken))
  {
    hide ExpireAll;
    hide TakenAll;
    hide MakeRoom;
    hide PendingCount;
    hide FirstFresh;
    hide SomeFresh;
    var expired := ExpireAll(table, readings);
    ExpiryKeepsFresh(table, readings, tokens);
    if MakeRoom(cfg, expired).Some? {
      RoomFresh(cfg, expired, tokens);
    }
  }
}
