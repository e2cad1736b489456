/** What a stream may conclude from one successful look at the broker: nothing that would have made the
    request unavailable can have happened since it started. */
module BrokerAvailability {
  import opened Wrappers
  import opened BrokerModel
  import opened BrokerProofs
  import opened BrokerRuns
  import opened BrokerTheorems

  /** The broker just before call `k` of a run. */
  ghost function Before(cfg: Config, m: Machine, calls: seq<Call>, k: nat): Machine
    requires k <= |calls| && EnabledAll(cfg, m, calls)
    decreases k
  {
    if k == 0 then m else Before(cfg, Next(cfg, m, calls[0]), calls[1..], k - 1)
  }

  lemma {:induction false} BeforeEnabled(cfg: Config, m: Machine, calls: seq<Call>, k: nat)
    requires ValidConfig(cfg) && WellKept(cfg, m) && EnabledAll(cfg, m, calls) && k < |calls|
    ensures Enabled(cfg, Before(cfg, m, calls, k), calls[k]) && WellKept(cfg, Before(cfg, m, calls, k))
    ensures m.clock <= Before(cfg, m, calls, k).clock
    decreases k
  {
    hide WellKept;
    hide Next;
    if k > 0 {
      StepKeeps(cfg, m, calls[0]);
      BeforeEnabled(cfg, Next(cfg, m, calls[0]), calls[1..], k - 1);
    }
  }

  lemma {:induction false} BeforeAges(cfg: Config, m: Machine, calls: seq<Call>, k: nat, id: RequestId)
    requires ValidConfig(cfg) && WellKept(cfg, m) && EnabledAll(cfg, m, calls) && k <= |calls| && id in m.issued
    ensures Aged(Lookup(m.table, id), Lookup(Before(cfg, m, calls, k).table, id))
    ensures id in Before(cfg, m, calls, k).issued
    decreases k
  {
    hide WellKept;
    hide Next;
    hide Lookup;
    if k > 0 {
      StepKeeps(cfg, m, calls[0]);
      StepAges(cfg, m, calls[0], id);
      BeforeAges(cfg, Next(cfg, m, calls[0]), calls[1..], k - 1, id);
    }
  }

  /** The answer call `k` of a run gets. */
  ghost function AnswerAt(cfg: Config, m: Machine, calls: seq<Call>, k: nat): Answer
    requires ValidConfig(cfg) && WellKept(cfg, m) && EnabledAll(cfg, m, calls) && k < |calls|
  {
    BeforeEnabled(cfg, m, calls, k);
    Apply(cfg, Before(cfg, m, calls, k).table, calls[k]).answer
  }

  predicate Lost(record: Option<Record>) {
    record.None? || !record.value.Live()
  }

  /** A completed request is left exactly as it is by one operation, or it is lost to its reader; a
      cancellation always loses it. */
  lemma CompleteOrLost(cfg: Config, m: Machine, call: Call, id: RequestId)
    requires ValidConfig(cfg) && WellKept(cfg, m) && Enabled(cfg, m, call) && id in m.issued
    requires Lookup(m.table, id).Some? && Lookup(m.table, id).value.status.Complete?
    ensures var after := Lookup(Next(cfg, m, call).table, id);
            && (after == Lookup(m.table, id) || Lost(after))
            && (call.Cancel? && call.id == id ==> Lost(after))
  {
    hide *;
    KeptIsDistinct(cfg, m);
    NextTable(cfg, m, call);
    if Target(call) == Some(id) {
      NamedIs(call);
      OwnCompleteOrLost(cfg, m.table, call);
    } else {
      ApplyLookup(cfg, m.table, call, id);
      OthersCompleteOrLost(cfg, m, call, id);
    }
  }

  lemma KeptIsDistinct(cfg: Config, m: Machine)
    requires WellKept(cfg, m)
    ensures Distinct(m.table)
  {
    OrderIsDistinct(m.table, m.issued);
  }

  lemma NamedIs(call: Call)
    requires Target(call).Some?
    ensures !call.Submit? && !call.List? && Target(call) == Some(call.id)
  {
  }

  lemma OwnCompleteOrLost(cfg: Config, table: Table, call: Call)
    requires Distinct(table) && Applicable(table, call) && !call.Submit? && !call.List?
    requires Lookup(table, call.id).Some? && Lookup(table, call.id).value.status.Complete?
    ensures var after := Lookup(Apply(cfg, table, call).table, call.id);
            && (after == Lookup(table, call.id) || Lost(after))
            && (call.Cancel? ==> Lost(after))
  {
    var k := Find(table, call.id);
    LookupUpdate(table, k, OnRecord(table[k], call, call.now).record, call.id);
    RecordCompleteOrLost(table[k], call, call.now);
    hide OnRecord;
    hide Distinct;
  }

  /** A step that does not name an issued request can only expire or evict it. */
  lemma OthersCompleteOrLost(cfg: Config, m: Machine, call: Call, id: RequestId)
    requires Enabled(cfg, m, call) && id in m.issued && Target(call) != Some(id)
    requires Issued(cfg, m.table, call) != Some(id) ==>
               Undisturbed(Lookup(m.table, id), Lookup(Apply(cfg, m.table, call).table, id))
    ensures var after := Lookup(Apply(cfg, m.table, call).table, id);
            && (after == Lookup(m.table, id) || Lost(after))
            && !(call.Cancel? && call.id == id)
  {
    hide Apply;
    hide Lookup;
    hide Issued;
    hide Timely;
  }

  lemma RecordCompleteOrLost(before: Record, call: Call, now: int)
    requires before.status.Complete? && !call.Submit? && !call.List?
    ensures OnRecord(before, call, now).record == before || !OnRecord(before, call, now).record.Live()
    ensures call.Cancel? ==> !OnRecord(before, call, now).record.Live()
  {
  }

  /** A lost request never hands out a source again. */
  lemma LostForGood(cfg: Config, m: Machine, calls: seq<Call>, k: nat, id: RequestId)
    requires ValidConfig(cfg) && WellKept(cfg, m) && EnabledAll(cfg, m, calls) && k < |calls| && id in m.issued
    requires Lost(Lookup(m.table, id)) && calls[k].Open? && calls[k].id == id
    ensures !AnswerAt(cfg, m, calls, k).Source?
  {
    BeforeEnabled(cfg, m, calls, k);
    BeforeAges(cfg, m, calls, k, id);
    AnswersAreCurrent(cfg, Before(cfg, m, calls, k), calls[k]);
    StepAges(cfg, Before(cfg, m, calls, k), calls[k], id);
    hide Apply;
    hide Before;
    hide Next;
    hide Lookup;
    hide WellKept;
  }

  /** When a look at a completed request still finds its source, no cancellation of it came before, no
      clock reading up to then had reached its deadline, and the source is the one it had all along. */
  lemma {:induction false} AvailableAllAlong(cfg: Config, m: Machine, calls: seq<Call>, k: nat, id: RequestId, source: SourceId)
    requires ValidConfig(cfg) && WellKept(cfg, m) && EnabledAll(cfg, m, calls) && k < |calls| && id in m.issued
    requires Lookup(m.table, id).Some? && Lookup(m.table, id).value.status.Complete?
    requires calls[k].Open? && calls[k].id == id && AnswerAt(cfg, m, calls, k) == Source(source)
    ensures Lookup(m.table, id).value.source == Some(source)
    ensures forall q :: 0 <= q < k ==> !(calls[q].Cancel? && calls[q].id == id)
    ensures m.clock <= calls[k].now < Lookup(m.table, id).value.expiresAt
    decreases k
  {
    hide *;
    if k == 0 {
      FoundNow(cfg, m, calls, source);
    } else {
      StillThere(cfg, m, calls, k, id, source);
      AvailableAllAlong(cfg, Next(cfg, m, calls[0]), calls[1..], k - 1, id, source);
      forall q | 0 <= q < k ensures !(calls[q].Cancel? && calls[q].id == id) {
        assert q > 0 ==> calls[q] == calls[1..][q - 1];
      }
    }
  }

  /** One call on the way to a successful look. */
  lemma StillThere(cfg: Config, m: Machine, calls: seq<Call>, k: nat, id: RequestId, source: SourceId)
    requires ValidConfig(cfg) && WellKept(cfg, m) && EnabledAll(cfg, m, calls) && 0 < k < |calls| && id in m.issued
    requires Lookup(m.table, id).Some? && Lookup(m.table, id).value.status.Complete?
    requires calls[k].Open? && calls[k].id == id && AnswerAt(cfg, m, calls, k) == Source(source)
    ensures Applicable(m.table, calls[0])
    ensures var next := Next(cfg, m, calls[0]);
            && WellKept(cfg, next) && EnabledAll(cfg, next, calls[1..]) && id in next.issued && m.clock <= next.clock
            && Lookup(next.table, id) == Lookup(m.table, id)
            && AnswerAt(cfg, next, calls[1..], k - 1) == Source(source)
    ensures !(calls[0].Cancel? && calls[0].id == id)
  {
    FirstStep(cfg, m, calls, k, id);
    hide *;
    if Lost(Lookup(Next(cfg, m, calls[0]).table, id)) {
      LostForGood(cfg, Next(cfg, m, calls[0]), calls[1..], k - 1, id);
    }
  }

  lemma FirstStep(cfg: Config, m: Machine, calls: seq<Call>, k: nat, id: RequestId)
    requires ValidConfig(cfg) && WellKept(cfg, m) && EnabledAll(cfg, m, calls) && 0 < k < |calls| && id in m.issued
    requires Lookup(m.table, id).Some? && Lookup(m.table, id).value.status.Complete?
    ensures Applicable(m.table, calls[0])
    ensures var next := Next(cfg, m, calls[0]);
            && WellKept(cfg, next) && EnabledAll(cfg, next, calls[1..]) && id in next.issued && m.clock <= next.clock
            && AnswerAt(cfg, m, calls, k) == AnswerAt(cfg, next, calls[1..], k - 1)
            && (Lookup(next.table, id) == Lookup(m.table, id) || Lost(Lookup(next.table, id)))
            && (calls[0].Cancel? && calls[0].id == id ==> Lost(Lookup(next.table, id)))
  {
    StepKeeps(cfg, m, calls[0]);
    StepAges(cfg, m, calls[0], id);
    CompleteOrLost(cfg, m, calls[0], id);
    hide WellKept;
    hide Lookup;
    hide Next;
    hide Apply;
    hide Timely;
  }

  lemma FoundNow(cfg: Config, m: Machine, calls: seq<Call>, source: SourceId)
    requires ValidConfig(cfg) && WellKept(cfg, m) && EnabledAll(cfg, m, calls) && calls != [] && calls[0].Open?
    requires AnswerAt(cfg, m, calls, 0) == Source(source)
    ensures var record := Lookup(m.table, calls[0].id);
            record.Some? && record.value.source == Some(source) && m.clock <= calls[0].now < record.value.expiresAt
  {
    assert Readings(calls[0])[0] == calls[0].now;
    hide WellKept;
  }
}
