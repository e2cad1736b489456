/** One broker operation seen from one request: what may become of its record, its source and its
    attached cursor. The interleaved runtime is proved against this summary alone. */
module BrokerTouch {
  import opened Wrappers
  import opened BrokerModel
  import opened BrokerProofs

  predicate PendingRecord(r: Option<Record>) {
    r.Some? && r.value.status.Pending?
  }

  predicate AttachedTo(r: Option<Record>, cursor: CursorId) {
    PendingRecord(r) && r.value.cursor == Some(cursor)
  }

  /** Does `call` name this request's cursor for release, or publish this request? */
  predicate LetsGo(call: Call, id: RequestId, cursor: CursorId) {
    || (call.Release? && call.id == id && call.cursor == cursor)
    || (call.Publish? && call.id == id)
  }

  predicate Touched(
      id: RequestId, before: Option<Record>, after: Option<Record>, call: Call, answer: Answer, cancels: seq<CursorId>) {
    && (after.Some? ==> before.Some? && Evolved(before.value, after.value) && Shaped(after.value))
    && (after.Some? && after.value.status.Complete? ==>
          || before.value == after.value
          || (call.Publish? && call.id == id && answer.OneView?
              && PendingRecord(before) && after.value.source == Some(call.source)))
    && (after.Some? && after.value.cursor.Some? ==>
          || before.value.cursor == after.value.cursor
          || (call.Register? && call.id == id && answer.OneView? && after.value.cursor == Some(call.cursor)))
    && (before.Some? && before.value.cursor.Some? ==>
          var cursor := before.value.cursor.value;
          AttachedTo(after, cursor) || cursor in cancels || LetsGo(call, id, cursor))
    && ((call.Fail? || call.Publish? || call.Cancel?) && call.id == id ==> !PendingRecord(after))
    && (call.Release? && call.id == id ==> !AttachedTo(after, call.cursor))
    && (call.Publish? && call.id == id && answer.OneView? ==>
          after.Some? && after.value.status.Complete? && after.value.source == Some(call.source))
    && (call.Register? && call.id == id ==>
          if answer.OneView? then AttachedTo(after, call.cursor) else call.cursor in cancels)
  }

  lemma RecordTouched(before: Record, call: Call, now: int)
    requires !call.Submit? && !call.List? && Shaped(before) && call.id == before.id
    ensures var effect := OnRecord(before, call, now);
            Touched(before.id, Some(before), Some(effect.record), call, effect.answer, effect.cancels)
  {
  }

  lemma {:induction false} TakenIncludes(table: Table, readings: seq<int>, k: nat)
    requires |readings| == |table| && k < |table|
    ensures forall c :: c in Taken(table[k], readings[k]) ==> c in TakenAll(table, readings)
    decreases |table|
  {
    var n := |table| - 1;
    if k < n {
      TakenIncludes(table[..n], readings[..n], k);
    }
  }

  /** Expiry of the whole table, seen from one record. */
  lemma ExpiryTouched(table: Table, readings: seq<int>, id: RequestId, call: Call, answer: Answer)
    requires |readings| == |table| && Distinct(table) && AllShaped(table)
    requires call.Submit? || call.List?
    ensures Touched(id, Lookup(table, id), Lookup(ExpireAll(table, readings), id), call, answer, TakenAll(table, readings))
  {
    LookupExpireAll(table, readings, id);
    var k := Find(table, id);
    hide ExpireAll;
    if k < |table| {
      TakenIncludes(table, readings, k);
    }
    hide TakenAll;
  }

  lemma EvictionTouched(id: RequestId, before: Option<Record>, call: Call, answer: Answer, cancels: seq<CursorId>,
                        expired: Option<Record>)
    requires Touched(id, before, expired, call, answer, cancels) && call.Submit?
    requires expired.Some? ==> !expired.value.Live()
    ensures Touched(id, before, None, call, answer, cancels)
  {
  }

  lemma SubmitTouched(cfg: Config, table: Table, call: Call, id: RequestId)
    requires Applicable(table, call) && Distinct(table) && AllShaped(table) && call.Submit?
    requires Issued(cfg, table, call) != Some(id)
    ensures var effect := Apply(cfg, table, call);
            Touched(id, Lookup(table, id), Lookup(effect.table, id), call, effect.answer, effect.cancels)
  {
    var effect := Apply(cfg, table, call);
    if call.ttl > 0 {
      var expired := ExpireAll(table, call.readings);
      SubmitCancels(cfg, table, call);
      AcceptedTable(cfg, table, call);
      ExpiryTouched(table, call.readings, id, call, effect.answer);
      LookupExpireAll(table, call.readings, id);
      ExpiredShaped(table, call.readings);
      if effect.answer.OneView? {
        var n := |effect.table| - 1;
        var room := effect.table[..n];
        hide Apply;
        assert effect.table == room + [effect.table[n]];
        var k := OldestTerminal(expired);
        if cfg.maximumRequests.Some? && |table| >= cfg.maximumRequests.value {
          LookupWithout(expired, k, id);
          LookupSnoc(room, effect.table[n], id);
          if expired[k].id == id {
            LookupAt(expired, k);
            EvictionTouched(id, Lookup(table, id), call, effect.answer, effect.cancels, Lookup(expired, id));
          }
        } else {
          LookupSnoc(room, effect.table[n], id);
        }
      }
    } else {
      Unchanged(table, id, call, effect.answer);
    }
  }

  lemma Unchanged(table: Table, id: RequestId, call: Call, answer: Answer)
    requires AllShaped(table) && call.Submit?
    ensures Touched(id, Lookup(table, id), Lookup(table, id), call, answer, [])
  {
    LookupIff(table, id);
  }

  lemma SubmitCancels(cfg: Config, table: Table, call: Call)
    requires Applicable(table, call) && call.Submit? && call.ttl > 0
    ensures Apply(cfg, table, call).cancels == TakenAll(table, call.readings)
  {
  }

  /** The summary holds for every operation and every request it does not itself create. */
  lemma ApplyTouches(cfg: Config, table: Table, call: Call, id: RequestId)
    requires Applicable(table, call) && Distinct(table) && AllShaped(table)
    requires Issued(cfg, table, call) != Some(id)
    ensures var effect := Apply(cfg, table, call);
            Touched(id, Lookup(table, id), Lookup(effect.table, id), call, effect.answer, effect.cancels)
  {
    if call.Submit? {
      SubmitTouched(cfg, table, call, id);
    } else if call.List? {
      ExpiryTouched(table, call.readings, id, call, Apply(cfg, table, call).answer);
    } else {
      OneTouched(cfg, table, call, id);
    }
  }

  lemma OneTouched(cfg: Config, table: Table, call: Call, id: RequestId)
    requires Distinct(table) && AllShaped(table) && !call.Submit? && !call.List?
    ensures var effect := Apply(cfg, table, call);
            Touched(id, Lookup(table, id), Lookup(effect.table, id), call, effect.answer, effect.cancels)
  {
    var k := Find(table, call.id);
    LookupIff(table, id);
    if k < |table| {
      LookupUpdate(table, k, OnRecord(table[k], call, call.now).record, id);
      RecordTouched(table[k], call, call.now);
      hide OnRecord;
      if id != call.id {
        OtherUntouched(id, Lookup(table, id), call, Apply(cfg, table, call).answer, Apply(cfg, table, call).cancels);
      }
    } else if id == call.id {
      AbsentTouched(id, call);
    } else {
      OtherUntouched(id, Lookup(table, id), call, Apply(cfg, table, call).answer, Apply(cfg, table, call).cancels);
    }
  }

  lemma OtherUntouched(id: RequestId, record: Option<Record>, call: Call, answer: Answer, cancels: seq<CursorId>)
    requires record.Some? ==> Shaped(record.value)
    requires !call.Submit? && !call.List? && call.id != id
    ensures Touched(id, record, record, call, answer, cancels)
  {
  }

  lemma AbsentTouched(id: RequestId, call: Call)
    requires !call.Submit? && !call.List? && call.id == id
    ensures Touched(id, None, None, call, Unavailable, if call.Register? then [call.cursor] else [])
  {
  }

  /** A newly issued request starts PENDING with nothing attached. */
  lemma IssuedIsPending(cfg: Config, table: Table, call: Call)
    requires Applicable(table, call) && Distinct(table) && Issued(cfg, table, call).Some?
    ensures var id := Issued(cfg, table, call).value;
            var record := Lookup(Apply(cfg, table, call).table, id);
            PendingRecord(record) && record.value.cursor == None && record.value.source == None
  {
    var id := Issued(cfg, table, call).value;
    hide SubmitEffect;
    SubmitLookup(cfg, table, call.ttl, call.readings, call.now, call.tokens, id) by {
      assert call.ttl > 0 by { BadValueOtherwise(cfg, table, call); }
    }
  }

  lemma BadValueOtherwise(cfg: Config, table: Table, call: Call)
    requires Applicable(table, call) && call.Submit? && Apply(cfg, table, call).answer.OneView?
    ensures call.ttl > 0
  {
  }

  /** An accepted registration expires nothing, so it owes no cancellation. */
  lemma AcceptedRegistrationOwesNothing(cfg: Config, table: Table, call: Call)
    requires Applicable(table, call) && call.Register? && Apply(cfg, table, call).answer.OneView?
    ensures Apply(cfg, table, call).cancels == []
  {
  }
}
