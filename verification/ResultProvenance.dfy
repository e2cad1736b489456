/** Whose result a viewer sees: what is published for a request is what the driver handed to the worker
    of that very request. */
module ResultProvenance {
  import opened Wrappers
  import opened Wire
  import A = Arrow
  import opened ArrowReplay
  import opened FramedStream
  import opened ResultStream
  import opened ViewerLoad
  import opened ResultFetch
  import ArrowIngest
  import opened EndToEnd
  import B = BrokerModel
  import opened Execution
  import opened Runtime
  import opened RuntimeInvariant
  import opened RuntimeTheorems

  /** The driver's result for each request, and the source object behind each identity. */
  type Driver = B.RequestId -> ResultFetch.Cursor
  type Store = B.SourceId -> A.Source

  /** Every successful fetch of a run returns what the admission makes of its own request's result. */
  ghost predicate Faithful(z: A.Serializer, limits: A.Limits, driver: Driver, store: Store, actions: seq<Action>) {
    forall i :: 0 <= i < |actions| && actions[i].Advance? && actions[i].reply.Result? ==>
      FetchedFrom(z, driver(actions[i].id), limits, store(actions[i].reply.source))
  }

  /** Every source a worker has admitted came from its own request's result. */
  ghost predicate Backed(z: A.Serializer, limits: A.Limits, driver: Driver, store: Store, w: World) {
    forall id, source :: id in w.tasks && Admitted(source) in w.tasks[id].log ==>
      FetchedFrom(z, driver(id), limits, store(source))
  }

  lemma MovedAdmits(t: Task, a: Action, answer: Option<B.Answer>, source: B.SourceId)
    requires TaskGuard(t, a) && Admitted(source) in Moved(t, a, answer).log
    ensures Admitted(source) in t.log || (a.Advance? && a.reply == Result(source))
  {
  }

  lemma StepBacked(z: A.Serializer, limits: A.Limits, driver: Driver, store: Store, cfg: B.Config, w: World, a: Action,
                   id: B.RequestId, source: B.SourceId)
    requires B.ValidConfig(cfg) && Inv(cfg, w) && Enabled(cfg, w, a) && Backed(z, limits, driver, store, w)
    requires Faithful(z, limits, driver, store, [a])
    requires id in Next(cfg, w, a).tasks && Admitted(source) in Next(cfg, w, a).tasks[id].log
    ensures FetchedFrom(z, driver(id), limits, store(source))
  {
    hide Inv;
    hide Enabled;
    hide Next;
    hide Moved;
    hide TaskGuard;
    hide FetchedFrom;
    EnabledIsDefined(cfg, w, a);
    if Subject(w, a) == Some(id) {
      SubjectFacts(cfg, w, a, id);
      SubjectTask(cfg, w, a, id);
      MovedAdmits(w.tasks[id], a, AnswerOf(cfg, w, a), source);
      assert [a][0] == a;
    } else if id in w.tasks {
      OtherTaskStays(cfg, w, a, id);
    } else {
      NewOwnsNothing(cfg, w, a, id);
    }
  }

  lemma {:induction false} RunBacked(z: A.Serializer, limits: A.Limits, driver: Driver, store: Store, cfg: B.Config, w: World,
                                     actions: seq<Action>)
    requires B.ValidConfig(cfg) && Inv(cfg, w) && EnabledAll(cfg, w, actions) && Backed(z, limits, driver, store, w)
    requires Faithful(z, limits, driver, store, actions)
    ensures Backed(z, limits, driver, store, Run(cfg, w, actions))
    decreases |actions|
  {
    hide Inv;
    hide Enabled;
    hide Next;
    hide FetchedFrom;
    if actions != [] {
      var a := actions[0];
      EnabledIsDefined(cfg, w, a);
      var n := Next(cfg, w, a);
      StepKeeps(cfg, w, a);
      forall id, source | id in n.tasks && Admitted(source) in n.tasks[id].log
        ensures FetchedFrom(z, driver(id), limits, store(source))
      {
        StepBacked(z, limits, driver, store, cfg, w, a, id, source);
      }
      RunBacked(z, limits, driver, store, cfg, n, actions[1..]);
    }
  }

  /** The source a COMPLETE record holds was fetched from that request's own result, by its own worker. */
  lemma CompleteIsItsOwn(z: A.Serializer, limits: A.Limits, driver: Driver, store: Store, cfg: B.Config, actions: seq<Action>,
                         request: B.RequestId, id: B.SourceId)
    requires B.ValidConfig(cfg) && EnabledAll(cfg, START, actions) && Faithful(z, limits, driver, store, actions)
    requires var record := B.Lookup(Run(cfg, START, actions).machine.table, request);
             record.Some? && record.value.status.Complete? && record.value.source == Some(id)
    ensures FetchedFrom(z, driver(request), limits, store(id))
    ensures request in Run(cfg, START, actions).tasks && Admitted(id) in Run(cfg, START, actions).tasks[request].log
  {
    StartOk(cfg);
    hide Inv;
    hide FetchedFrom;
    RunBacked(z, limits, driver, store, cfg, START, actions);
    assert Reachable(cfg, Run(cfg, START, actions));
    PublicationBarrier(cfg, Run(cfg, START, actions), request);
  }

  /** A COMPLETE request viewed. A published table holds exactly the batches of the result its own worker
      was handed; with limits that fit the parser it is published exactly when the broker kept offering
      the source, all bytes arrived and the sink did its part. */
  method ViewCompleted(z: A.Serializer, limits: A.Limits, store: Store, ghost driver: Driver, ghost cfg: B.Config,
                       ghost actions: seq<Action>, ghost request: B.RequestId, id: B.SourceId, checks: Checks,
                       deliver: seq<Bytes> -> seq<Bytes>, broken: bool, result: ProvisionalResult)
      returns (stream: Stream, acknowledged: bool)
    requires B.ValidConfig(cfg) && EnabledAll(cfg, START, actions) && Faithful(z, limits, driver, store, actions)
    requires var record := B.Lookup(Run(cfg, START, actions).machine.table, request);
             record.Some? && record.value.status.Complete? && record.value.source == Some(id)
    requires A.ValidLimits(limits) && limits.arrowBytes <= result.parser.maximumResultBytes
    requires forall pieces :: Concat(deliver(pieces)) <= Concat(pieces)
    requires result.parser.Valid() && result.parser.State() == INITIAL && result.sink.Fresh()
    requires Inverts(result.sink.decode, z)
    modifies result.parser, result.sink, result.sink.connection
    ensures var sink, tables := result.sink, ResultTables(driver(request));
            var before, after := old(sink.connection.tables), sink.connection.tables;
            && (acknowledged ==>
                  && tables != [] && tables[0].Handed?
                  && after == before[sink.publishedTable := ArrowIngest.TableData(tables[0].table.schema, TableBatches(tables))])
            && (!acknowledged ==> after - {sink.pendingTable} == before - {sink.pendingTable})
    ensures var sink, chunks := result.sink, AllChunks(z, store(id));
            acknowledged <==>
              && (forall i: nat :: i <= |chunks| ==> Passes(checks, i, id))
              && Concat(deliver(stream.pieces)) == Concat(stream.pieces) && !broken
              && ArrowIngest.Accepting(sink.writable, 0, |chunks|) && old(sink.Publishable(chunks))
  {
    hide *;
    LimitFits(result.parser);
    CompleteIsServable(z, limits, driver, store, cfg, actions, request, id, checks);
    stream, acknowledged := ViewRequest(z, store(id), limits.arrowBytes, id, checks, deliver, broken, result);
  }

  lemma LimitFits(parser: ResultStreamParser)
    requires parser.Valid()
    ensures parser.maximumResultBytes < LENGTH_LIMIT
  {
  }

  /** What viewing a COMPLETE request builds on: its source is its own result, and served whole while every
      check finds it. */
  lemma CompleteIsServable(z: A.Serializer, limits: A.Limits, driver: Driver, store: Store, cfg: B.Config,
                           actions: seq<Action>, request: B.RequestId, id: B.SourceId, checks: Checks)
    requires B.ValidConfig(cfg) && EnabledAll(cfg, START, actions) && Faithful(z, limits, driver, store, actions)
    requires var record := B.Lookup(Run(cfg, START, actions).machine.table, request);
             record.Some? && record.value.status.Complete? && record.value.source == Some(id)
    requires A.ValidLimits(limits) && limits.arrowBytes < LENGTH_LIMIT
    ensures var tables := ResultTables(driver(request));
            && tables != [] && tables[0].Handed? && store(id) == A.Source(tables[0].table.schema, TableBatches(tables))
    ensures Served(z, store(id), limits.arrowBytes, id, checks)
            <==> forall i: nat :: i <= |AllChunks(z, store(id))| ==> Passes(checks, i, id)
  {
    CompleteIsItsOwn(z, limits, driver, store, cfg, actions, request, id);
    hide Run;
    hide EnabledAll;
    assert A.Admissible(z, store(id), limits);
    hide A.Admissible;
    hide TableBatches;
    hide AllChunks;
    hide Served;
    AdmittedIsServable(z, store(id), limits, id, checks);
    assert forall i: nat :: Passes(checks, i, id) <==> checks(i) == B.Answer.Source(id);
  }
}
