/** What the broker answers, said of the record, its deadline and the reading alone: when a submission is
    accepted and what it is given, and how every other operation treats a request in each status. */
module BrokerAnswers {
  import opened Wrappers
  import opened BrokerModel
  import opened BrokerProofs
  import opened BrokerRuns
  import opened BrokerTheorems
  import opened BrokerLifetime

  // ----- submission -----

  /** The records that still wait for their result at these readings. */
  ghost function StillPending(table: Table, readings: seq<int>): set<nat>
    requires |readings| == |table|
  {
    set k: nat | k < |table| && table[k].status == Pending && readings[k] < table[k].expiresAt
  }

  /** The request has failed, was cancelled, or has outlived its deadline at this reading. */
  predicate Over(r: Record, reading: int) {
    r.status in {Failed, Cancelled, Expired} || reading >= r.expiresAt
  }

  /** A submission with these readings finds a place, among the pending requests and in the table. */
  ghost predicate HasPlace(cfg: Config, table: Table, readings: seq<int>)
    requires |readings| == |table|
  {
    && (cfg.maximumPending.Some? ==> |StillPending(table, readings)| < cfg.maximumPending.value)
    && (cfg.maximumRequests.Some? && |table| >= cfg.maximumRequests.value ==>
          exists k :: 0 <= k < |table| && Over(table[k], readings[k]))
  }

  /** The first of the tokens that no record in the table carries. */
  ghost predicate FirstUnused(tokens: seq<RequestId>, table: Table, id: RequestId) {
    exists i ::
      && 0 <= i < |tokens| && tokens[i] == id && (forall k :: 0 <= k < |table| ==> table[k].id != id)
      && forall j :: 0 <= j < i ==> exists k :: 0 <= k < |table| && table[k].id == tokens[j]
  }

  /** When a submission is accepted, and what it is given: a pending record at the end of the table, under
      the first unused token, with the requested lifetime or the longest allowed one, whichever is less. */
  lemma AcceptedIff(cfg: Config, table: Table, call: Call)
    requires Applicable(table, call) && call.Submit?
    ensures var answer := Apply(cfg, table, call).answer;
            && (answer.OneView? <==> call.ttl > 0 && HasPlace(cfg, table, call.readings))
            && (!answer.OneView? ==> answer == if call.ttl <= 0 then BadValue else Unavailable)
    ensures var after, answer := Apply(cfg, table, call).table, Apply(cfg, table, call).answer;
            answer.OneView? ==>
              && after != []
              && var n, r := |after| - 1, after[|after| - 1];
                 && r.status == Pending && r.source == None && r.cursor == None
                 && r.expiresAt == call.now + (if call.ttl <= cfg.maximumTtl then call.ttl else cfg.maximumTtl)
                 && FirstUnused(call.tokens, after[..n], r.id)
                 && answer.view == View(r.id, Pending, r.expiresAt)
  {
    hide *;
    SubmitIs(cfg, table, call);
    SubmissionIs(cfg, table, call.ttl, call.readings, call.now, call.tokens);
    PlaceIff(cfg, table, call.readings);
    var expired := ExpireAll(table, call.readings);
    if call.ttl > 0 && HasPlace(cfg, table, call.readings) {
      Unused(MakeRoom(cfg, expired).value, call.tokens);
      Appended(MakeRoom(cfg, expired).value, Apply(cfg, table, call).table[|MakeRoom(cfg, expired).value|]);
      Shorter(call.ttl, cfg.maximumTtl);
    }
  }

  lemma Shorter(a: int, b: int)
    ensures Min(a, b) == if a <= b then a else b
  {
  }

  lemma Appended(table: Table, r: Record)
    ensures |table + [r]| == |table| + 1 && (table + [r])[|table|] == r && (table + [r])[..|table|] == table
    ensures r.AsView() == View(r.id, r.status, r.expiresAt)
  {
  }

  lemma {:induction false} Unused(table: Table, tokens: seq<RequestId>)
    requires SomeFresh(table, tokens)
    ensures FirstUnused(tokens, table, FirstFresh(table, tokens))
  {
    var id := FirstFresh(table, tokens);
    if !HasId(table, tokens[0]) {
      assert tokens[0] == id;
    } else {
      var rest := tokens[1..];
      var i :| 0 <= i < |tokens| && !HasId(table, tokens[i]);
      assert rest[i - 1] == tokens[i];
      Unused(table, rest);
      var k :| && 0 <= k < |rest| && rest[k] == id && (forall n :: 0 <= n < |table| ==> table[n].id != id)
               && forall j :: 0 <= j < k ==> exists n :: 0 <= n < |table| && table[n].id == rest[j];
      Later(tokens, table, id, k);
    }
  }

  lemma Later(tokens: seq<RequestId>, table: Table, id: RequestId, k: nat)
    requires tokens != [] && HasId(table, tokens[0]) && k < |tokens[1..]| && tokens[1..][k] == id
    requires forall n :: 0 <= n < |table| ==> table[n].id != id
    requires forall j :: 0 <= j < k ==> exists n :: 0 <= n < |table| && table[n].id == tokens[1..][j]
    ensures FirstUnused(tokens, table, id)
  {
    assert tokens[k + 1] == id;
    forall j | 0 <= j < k + 1 ensures exists n :: 0 <= n < |table| && table[n].id == tokens[j] {
      if j > 0 {
        assert tokens[j] == tokens[1..][j - 1];
      }
    }
  }

  lemma PlaceIff(cfg: Config, table: Table, readings: seq<int>)
    requires |readings| == |table|
    ensures var expired := ExpireAll(table, readings);
            HasPlace(cfg, table, readings) <==>
            && !(cfg.maximumPending.Some? && PendingCount(expired) >= cfg.maximumPending.value)
            && MakeRoom(cfg, expired).Some?
  {
    var expired := ExpireAll(table, readings);
    CountPending(expired);
    PendingAfter(table, readings);
    OldestExists(expired);
    hide PendingCount;
    hide StillPending;
    forall k | 0 <= k < |table| ensures !expired[k].Live() <==> Over(table[k], readings[k]) {
      ExpiredWhenLate(table[k], readings[k]);
    }
  }

  lemma PendingAfter(table: Table, readings: seq<int>)
    requires |readings| == |table|
    ensures StillPending(table, readings) == PendingAt(ExpireAll(table, readings))
  {
    var expired := ExpireAll(table, readings);
    forall k: nat | k < |table| ensures k in StillPending(table, readings) <==> k in PendingAt(expired) {
      ExpiredWhenLate(table[k], readings[k]);
    }
  }

  ghost function PendingAt(table: Table): set<nat> {
    set k: nat | k < |table| && table[k].status == Pending
  }

  lemma {:induction false} CountPending(table: Table)
    ensures PendingCount(table) == |PendingAt(table)|
  {
    if table != [] {
      var n := |table| - 1;
      var front := table[..n];
      CountPending(front);
      var last: set<nat> := if table[n].status == Pending then {n} else {};
      assert PendingAt(table) == PendingAt(front) + last;
      assert PendingAt(front) !! last;
    } else {
      assert PendingAt(table) == {};
    }
  }

  lemma {:induction false} OldestExists(table: Table)
    ensures OldestTerminal(table) < |table| <==> exists k :: 0 <= k < |table| && !table[k].Live()
  {
    var k := OldestTerminal(table);
    if k < |table| {
      assert !table[k].Live();
    }
  }

  // ----- the other operations -----

  /** The status a look at this reading sees. */
  function Seen(r: Record, reading: int): Status {
    if r.status in {Pending, Complete} && reading >= r.expiresAt then Expired else r.status
  }

  /** How an operation answers about a record in the status it sees, and what it leaves: statuses that have
      ended are kept, a cancelled request stays cancelled however often it is cancelled, a failed one is
      shown as failed, and an expired one is refused. */
  predicate Treated(call: Call, r: Record, reading: int, answer: Answer, after: Record)
    requires !call.Submit? && !call.List?
  {
    var seen := Seen(r, reading);
    var shown := (status: Status) => OneView(View(r.id, status, r.expiresAt));
    && after.id == r.id && after.expiresAt == r.expiresAt
    && match call
       case Get(_, _) => answer == shown(seen) && after.status == seen
       case Open(_, _) =>
         && after.status == seen
         && answer == if seen == Complete && r.source.Some? then Source(r.source.value) else Unavailable
       case Cancel(_, _) =>
         match seen {
           case Pending => answer == shown(Cancelled) && after.status == Cancelled
           case Complete => answer == shown(Cancelled) && after.status == Cancelled
           case Cancelled => answer == shown(Cancelled) && after.status == Cancelled
           case Failed => answer == shown(Failed) && after.status == Failed
           case Expired => answer == Unavailable && after.status == Expired
         }
       case Register(_, _, _) =>
         && after.status == seen
         && answer == if seen == Pending && r.cursor == None then shown(Pending) else Unavailable
       case Release(_, _, _) => answer == Nothing && after.status == seen
       case Publish(_, _, _) =>
         if seen == Pending then answer == shown(Complete) && after.status == Complete
         else answer == Unavailable && after.status == seen
       case Fail(_, _) =>
         if seen == Pending then answer == shown(Failed) && after.status == Failed
         else answer == Unavailable && after.status == seen
  }

  /** Every operation on one request, in any reachable broker: absent requests are refused, and present ones
      treated by their status. */
  lemma NamedAnswers(cfg: Config, m: Machine, call: Call)
    requires WellKept(cfg, m) && Enabled(cfg, m, call) && !call.Submit? && !call.List?
    ensures var before, after := Lookup(m.table, call.id), Lookup(Next(cfg, m, call).table, call.id);
            var answer := Apply(cfg, m.table, call).answer;
            if before.None? then answer == Unavailable && after.None?
            else after.Some? && Treated(call, before.value, call.now, answer, after.value)
  {
    FoundIsIssued(cfg, m, call.id);
    NextTable(cfg, m, call);
    hide WellKept;
    hide Enabled;
    hide Next;
    hide Distinct;
    var k := Find(m.table, call.id);
    if k < |m.table| {
      LookupUpdate(m.table, k, OnRecord(m.table[k], call, call.now).record, call.id);
      TreatedAs(m.table[k], call, call.now);
    }
    hide OnRecord;
    hide Treated;
  }

  lemma TreatedAs(r: Record, call: Call, now: int)
    requires !call.Submit? && !call.List?
    ensures OnRecord(r, call, now).record.id == r.id
    ensures Treated(call, r, now, OnRecord(r, call, now).answer, OnRecord(r, call, now).record)
  {
  }

  /** A listing shows every record with the status its own reading sees, newest first. */
  lemma ListedAnswers(cfg: Config, table: Table, call: Call, i: nat)
    requires Applicable(table, call) && call.List? && i < |table|
    ensures var answer, k := Apply(cfg, table, call).answer, |table| - 1 - i;
            && answer.Views? && |answer.views| == |table|
            && answer.views[i] == View(table[k].id, Seen(table[k], call.readings[k]), table[k].expiresAt)
  {
    ExpiredWhenLate(table[|table| - 1 - i], call.readings[|table| - 1 - i]);
    hide Expire;
    hide TakenAll;
  }
}
