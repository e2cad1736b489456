/** A result viewed while the runtime goes on: the checks of the stream are calls of the same run that
    produced the result, and they leave no room for a cancellation or a passed deadline. */
module ResultInRun {
  import opened Wrappers
  import opened Wire
  import A = Arrow
  import opened ArrowReplay
  import opened FramedStream
  import opened ResultStream
  import opened ViewerLoad
  import ResultFetch
  import ArrowIngest
  import opened EndToEnd
  import opened ResultProvenance
  import opened BrokerModel
  import R = BrokerRuns
  import V = BrokerAvailability
  import opened Runtime
  import opened RuntimeInvariant

  // ----- the broker's run inside a run of the runtime -----

  /** The runtime just before step `k`. */
  ghost function WorldAt(cfg: Config, w: World, later: seq<Action>, k: nat): World
    requires EnabledAll(cfg, w, later) && k <= |later|
    decreases k
  {
    if k == 0 then w else WorldAt(cfg, Next(cfg, w, later[0]), later[1..], k - 1)
  }

  /** The broker calls of a run, in order. */
  ghost function CallsOf(cfg: Config, w: World, later: seq<Action>): seq<Call>
    requires EnabledAll(cfg, w, later)
    decreases |later|
  {
    if later == [] then []
    else
      (if BrokerCall(w, later[0]).Some? then [BrokerCall(w, later[0]).value] else [])
      + CallsOf(cfg, Next(cfg, w, later[0]), later[1..])
  }

  /** How many of them come before step `k`. */
  ghost function CallsBefore(cfg: Config, w: World, later: seq<Action>, k: nat): nat
    requires EnabledAll(cfg, w, later) && k <= |later|
    decreases k
  {
    if k == 0 then 0
    else
      (if BrokerCall(w, later[0]).Some? then 1 else 0)
      + CallsBefore(cfg, Next(cfg, w, later[0]), later[1..], k - 1)
  }

  lemma MachineStep(cfg: Config, w: World, a: Action)
    requires Enabled(cfg, w, a)
    ensures Defined(w, a)
    ensures BrokerCall(w, a).None? ==> Next(cfg, w, a).machine == w.machine
    ensures BrokerCall(w, a).Some? ==>
              && R.Enabled(cfg, w.machine, BrokerCall(w, a).value)
              && Next(cfg, w, a).machine == R.Next(cfg, w.machine, BrokerCall(w, a).value)
  {
    EnabledIsDefined(cfg, w, a);
    NextMachine(cfg, w, a);
    hide Next;
    hide R.Next;
    hide Apply;
  }

  /** The calls of a run are a run of the broker. */
  lemma {:induction false} CallsAreARun(cfg: Config, w: World, later: seq<Action>)
    requires EnabledAll(cfg, w, later)
    ensures R.EnabledAll(cfg, w.machine, CallsOf(cfg, w, later))
    decreases |later|
  {
    hide Enabled;
    hide Next;
    hide R.Enabled;
    hide R.Next;
    if later != [] {
      MachineStep(cfg, w, later[0]);
      var n := Next(cfg, w, later[0]);
      CallsAreARun(cfg, n, later[1..]);
      var rest := CallsOf(cfg, n, later[1..]);
      if BrokerCall(w, later[0]).Some? {
        assert CallsOf(cfg, w, later)[1..] == rest;
      } else {
        assert CallsOf(cfg, w, later) == rest;
      }
    }
  }

  /** Step `k` of the runtime meets the broker where its own run has got to. */
  lemma {:induction false} CallsInPlace(cfg: Config, w: World, later: seq<Action>, k: nat)
    requires EnabledAll(cfg, w, later) && k <= |later| && R.EnabledAll(cfg, w.machine, CallsOf(cfg, w, later))
    ensures var calls, i := CallsOf(cfg, w, later), CallsBefore(cfg, w, later, k);
            && i <= |calls|
            && WorldAt(cfg, w, later, k).machine == V.Before(cfg, w.machine, calls, i)
            && (k < |later| && BrokerCall(WorldAt(cfg, w, later, k), later[k]).Some? ==>
                  i < |calls| && calls[i] == BrokerCall(WorldAt(cfg, w, later, k), later[k]).value)
    decreases k
  {
    hide Enabled;
    hide Next;
    hide R.Enabled;
    hide R.Next;
    hide CallsOf;
    if later != [] {
      MachineStep(cfg, w, later[0]);
      FirstCall(cfg, w, later);
      if k > 0 {
        CallsInPlace(cfg, Next(cfg, w, later[0]), later[1..], k - 1);
      }
    }
  }

  lemma FirstCall(cfg: Config, w: World, later: seq<Action>)
    requires EnabledAll(cfg, w, later) && later != []
    ensures Defined(w, later[0])
    ensures var calls, rest := CallsOf(cfg, w, later), CallsOf(cfg, Next(cfg, w, later[0]), later[1..]);
            var call := BrokerCall(w, later[0]);
            if call.Some? then calls != [] && calls[0] == call.value && calls[1..] == rest else calls == rest
  {
    EnabledIsDefined(cfg, w, later[0]);
    hide Enabled;
    hide Next;
    var rest := CallsOf(cfg, Next(cfg, w, later[0]), later[1..]);
    assert [] + rest == rest;
    if BrokerCall(w, later[0]).Some? {
      assert ([BrokerCall(w, later[0]).value] + rest)[1..] == rest;
    }
  }

  /** A step that calls the broker moves its run on. */
  lemma {:induction false} CallsCount(cfg: Config, w: World, later: seq<Action>, q: nat, k: nat)
    requires EnabledAll(cfg, w, later) && q < k <= |later|
    requires BrokerCall(WorldAt(cfg, w, later, q), later[q]).Some?
    ensures CallsBefore(cfg, w, later, q) < CallsBefore(cfg, w, later, k)
    decreases q
  {
    hide Enabled;
    hide Next;
    if q > 0 {
      EnabledIsDefined(cfg, w, later[0]);
      CallsCount(cfg, Next(cfg, w, later[0]), later[1..], q - 1, k - 1);
    }
  }

  // ----- the checks of a stream in the run -----

  /** The answers of the checks are those of the steps `at` of the run, each a look at the request. */
  ghost predicate ChecksInRun(cfg: Config, w: World, later: seq<Action>, at: seq<nat>, request: RequestId, checks: Checks)
    requires EnabledAll(cfg, w, later)
  {
    forall i :: 0 <= i < |at| ==>
      && at[i] < |later| && later[at[i]].OutsideCall? && later[at[i]].call.Open? && later[at[i]].call.id == request
      && checks(i) == AnswerTo(cfg, WorldAt(cfg, w, later, at[i]), later[at[i]].call)
  }

  /** The step cancels the request, whoever does it. */
  ghost predicate CancelsRequest(cfg: Config, w: World, later: seq<Action>, q: nat, request: RequestId)
    requires EnabledAll(cfg, w, later) && q < |later|
  {
    var call := BrokerCall(WorldAt(cfg, w, later, q), later[q]);
    call.Some? && call.value.Cancel? && call.value.id == request
  }

  /** A look that finds the source: no step before it cancelled the request, and the deadline was ahead. */
  lemma FoundInRun(cfg: Config, w: World, later: seq<Action>, k: nat, request: RequestId, id: SourceId)
    requires ValidConfig(cfg) && Inv(cfg, w) && EnabledAll(cfg, w, later) && k < |later|
    requires Lookup(w.machine.table, request).Some? && Lookup(w.machine.table, request).value.status.Complete?
    requires later[k].OutsideCall? && later[k].call.Open? && later[k].call.id == request
    requires AnswerTo(cfg, WorldAt(cfg, w, later, k), later[k].call) == Answer.Source(id)
    ensures forall q: nat :: q < k ==> !CancelsRequest(cfg, w, later, q, request)
    ensures later[k].call.now < Lookup(w.machine.table, request).value.expiresAt
  {
    hide *;
    var calls, i := CallsOf(cfg, w, later), CallsBefore(cfg, w, later, k);
    KeptAndIssued(cfg, w, request);
    CallsAreARun(cfg, w, later);
    LookInRun(cfg, w, later, k);
    V.AvailableAllAlong(cfg, w.machine, calls, i, request, id);
    forall q: nat | q < k ensures !CancelsRequest(cfg, w, later, q, request) {
      CancelInRun(cfg, w, later, q, k, request);
    }
  }

  /** A look of the runtime is the call at its place in the broker's run, with the same answer. */
  lemma LookInRun(cfg: Config, w: World, later: seq<Action>, k: nat)
    requires ValidConfig(cfg) && R.WellKept(cfg, w.machine) && EnabledAll(cfg, w, later) && k < |later|
    requires R.EnabledAll(cfg, w.machine, CallsOf(cfg, w, later)) && later[k].OutsideCall? && later[k].call.Open?
    ensures var calls, i := CallsOf(cfg, w, later), CallsBefore(cfg, w, later, k);
            && i < |calls| && calls[i] == later[k].call
            && V.AnswerAt(cfg, w.machine, calls, i) == AnswerTo(cfg, WorldAt(cfg, w, later, k), later[k].call)
  {
    hide CallsOf;
    hide CallsBefore;
    hide EnabledAll;
    hide R.EnabledAll;
    hide R.WellKept;
    hide V.Before;
    hide WorldAt;
    hide Apply;
    CallsInPlace(cfg, w, later, k);
  }

  lemma CancelInRun(cfg: Config, w: World, later: seq<Action>, q: nat, k: nat, request: RequestId)
    requires EnabledAll(cfg, w, later) && q < k <= |later| && R.EnabledAll(cfg, w.machine, CallsOf(cfg, w, later))
    ensures CancelsRequest(cfg, w, later, q, request) ==>
              exists j: nat :: j < CallsBefore(cfg, w, later, k) && j < |CallsOf(cfg, w, later)|
                               && CallsOf(cfg, w, later)[j].Cancel? && CallsOf(cfg, w, later)[j].id == request
  {
    hide CallsOf;
    hide CallsBefore;
    hide EnabledAll;
    hide R.EnabledAll;
    hide V.Before;
    hide WorldAt;
    if CancelsRequest(cfg, w, later, q, request) {
      CallsInPlace(cfg, w, later, q);
      CallsCount(cfg, w, later, q, k);
    }
  }

  lemma KeptAndIssued(cfg: Config, w: World, request: RequestId)
    requires Inv(cfg, w) && Lookup(w.machine.table, request).Some?
    ensures R.WellKept(cfg, w.machine) && request in w.machine.issued
  {
    var k := Find(w.machine.table, request);
    assert w.machine.table[k].id in w.machine.issued;
  }

  /** A COMPLETE request viewed while the run goes on. If the view is acknowledged it shows exactly what the
      request's own worker was handed, nobody cancelled the request before the last check of the stream, and
      that check came before the request's deadline. */
  method ViewInRun(z: A.Serializer, limits: A.Limits, store: Store, ghost driver: Driver, ghost cfg: Config,
                   ghost actions: seq<Action>, ghost later: seq<Action>, ghost at: seq<nat>, ghost request: RequestId,
                   id: SourceId, checks: Checks, deliver: seq<Bytes> -> seq<Bytes>, broken: bool, result: ProvisionalResult)
      returns (stream: Stream, acknowledged: bool)
    requires ValidConfig(cfg) && EnabledAll(cfg, START, actions) && Faithful(z, limits, driver, store, actions)
    requires var record := Lookup(Run(cfg, START, actions).machine.table, request);
             record.Some? && record.value.status.Complete? && record.value.source == Some(id)
    requires EnabledAll(cfg, Run(cfg, START, actions), later)
    requires |at| == |AllChunks(z, store(id))| + 1
    requires ChecksInRun(cfg, Run(cfg, START, actions), later, at, request, checks)
    requires A.ValidLimits(limits) && limits.arrowBytes <= result.parser.maximumResultBytes
    requires forall pieces :: Concat(deliver(pieces)) <= Concat(pieces)
    requires result.parser.Valid() && result.parser.State() == INITIAL && result.sink.Fresh()
    requires Inverts(result.sink.decode, z)
    modifies result.parser, result.sink, result.sink.connection
    ensures var sink, tables := result.sink, ResultFetch.ResultTables(driver(request));
            var before, after := old(sink.connection.tables), sink.connection.tables;
            && (acknowledged ==>
                  && tables != [] && tables[0].Handed?
                  && after == before[sink.publishedTable :=
                                       ArrowIngest.TableData(tables[0].table.schema, ResultFetch.TableBatches(tables))])
            && (!acknowledged ==> after - {sink.pendingTable} == before - {sink.pendingTable})
    ensures var w, last := Run(cfg, START, actions), at[|at| - 1];
            acknowledged ==>
              && (forall q: nat :: q < last ==> !CancelsRequest(cfg, w, later, q, request))
              && later[last].call.now < Lookup(w.machine.table, request).value.expiresAt
  {
    hide Run;
    hide EnabledAll;
    hide Lookup;
    hide AllChunks;
    hide ResultFetch.TableBatches;
    hide WorldAt;
    hide CancelsRequest;
    hide Faithful;
    stream, acknowledged := ViewCompleted(z, limits, store, driver, cfg, actions, request, id, checks, deliver, broken, result);
    if acknowledged {
      ghost var w, k := Run(cfg, START, actions), |at| - 1;
      assert Passes(checks, k, id);
      StartRunsWell(cfg, actions);
      hide Inv;
      FoundInRun(cfg, w, later, at[k], request, id);
    }
  }

  lemma StartRunsWell(cfg: Config, actions: seq<Action>)
    requires ValidConfig(cfg) && EnabledAll(cfg, START, actions)
    ensures Inv(cfg, Run(cfg, START, actions))
  {
    StartOk(cfg);
    hide Inv;
    RunKeeps(cfg, START, actions);
  }
}
