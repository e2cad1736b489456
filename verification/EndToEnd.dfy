/** From the admitted source on the server to the published table in the viewer, across broker changes,
    lost bytes and any transport chunking: all of it or nothing. */
module EndToEnd {
  import opened Wrappers
  import opened Wire
  import A = Arrow
  import opened ArrowReplay
  import opened FramedStream
  import opened ResultStream
  import opened ResultStreamProofs
  import opened ViewerLoad
  import ArrowIngest
  import B = BrokerModel
  import R = BrokerRuns
  import opened BrokerAvailability
  import opened BrokerLifetime

  /** A stream the server may have produced under these broker answers. */
  ghost predicate StreamOf(z: A.Serializer, source: A.Source, maximum: int, id: B.SourceId, checks: Checks, stream: Stream) {
    && (stream.completed <==> Served(z, source, maximum, id, checks))
    && (stream.completed ==> stream.pieces == [MAGIC] + Frames(AllChunks(z, source)) + [COMPLETION])
    && (!stream.completed ==>
          exists n: nat ::
            && SentUpTo(z, source, id, checks, stream.pieces, n)
            && Stopped(z, source, maximum, id, checks, n) && Uncut(z, source, maximum, n))
  }

  /** If the viewer accepts what it received of a stream, then the server finished that stream, every
      byte of it arrived, and the payloads are the whole serialization. */
  lemma FailureAtomicity(z: A.Serializer, source: A.Source, maximum: int, id: B.SourceId, checks: Checks, stream: Stream,
                         limit: nat, transport: seq<Bytes>)
    requires StreamOf(z, source, maximum, id, checks, stream)
    requires ValidMaximum(limit) && Concat(transport) <= Concat(stream.pieces)
    requires Accepts(limit, transport)
    ensures stream.completed && Concat(transport) == Concat(stream.pieces)
    ensures Payloads(limit, transport) == AllChunks(z, source)
    ensures Concat(Payloads(limit, transport)) == A.Serialized(z, source)
  {
    var payloads := Payloads(limit, transport);
    AcceptedIsStream(limit, transport);
    SmallIsFramable(payloads);
    hide Feed;
    hide EncodeStream;
    hide AllChunks;
    if stream.completed {
      StreamBytes(z, source, id, checks, stream, 0);
      StreamsArePrefixFree(payloads, AllChunks(z, source));
      ChunksAreTheSerialization(z, source);
    } else {
      var n: nat :| SentUpTo(z, source, id, checks, stream.pieces, n)
                    && Stopped(z, source, maximum, id, checks, n) && Uncut(z, source, maximum, n);
      StreamBytes(z, source, id, checks, stream, n);
      hide ArrowFrames;
      UnfinishedIsNoStream(payloads, AllChunks(z, source)[..n]);
      assert false;
    }
  }

  /** With a writer limit no larger than the parser's, a finished stream that arrives whole is accepted,
      however it was cut up. */
  lemma CompleteDelivery(z: A.Serializer, source: A.Source, maximum: int, id: B.SourceId, checks: Checks, stream: Stream,
                         limit: nat, transport: seq<Bytes>)
    requires StreamOf(z, source, maximum, id, checks, stream) && stream.completed
    requires ValidMaximum(limit) && maximum <= limit && Concat(transport) == Concat(stream.pieces)
    ensures Accepts(limit, transport) && Payloads(limit, transport) == AllChunks(z, source)
  {
    StreamBytes(z, source, id, checks, stream, 0);
    ChunksAreTheSerialization(z, source);
    hide Feed;
    hide EncodeStream;
    hide AllChunks;
    hide A.Serialized;
    var chunks := AllChunks(z, source);
    assert forall i :: 0 <= i < |chunks| ==> chunks[i] in chunks;
    EverySplitAccepted(limit, transport, AllChunks(z, source));
  }

  /** The decoder undoes the serializer. */
  ghost predicate Inverts(decode: ArrowIngest.Decoder, z: A.Serializer) {
    forall source: A.Source :: decode(A.Serialized(z, source)) == Some(ArrowIngest.Decoded(source.schema, source.batches, true))
  }

  /** One request viewed: the server streams, the network delivers some leading part of the bytes in
      chunks of its own making, the viewer loads them. A published table holds exactly the admitted
      batches, and is published only when the stream was finished and arrived whole; when it was, the
      writer's limit fits the parser's and the sink does its part, it is published. */
  method ViewRequest(z: A.Serializer, source: A.Source, maximum: int, id: B.SourceId, checks: Checks,
                     deliver: seq<Bytes> -> seq<Bytes>, broken: bool, result: ProvisionalResult)
      returns (stream: Stream, acknowledged: bool)
    requires forall pieces :: Concat(deliver(pieces)) <= Concat(pieces)
    requires result.parser.Valid() && result.parser.State() == INITIAL && result.sink.Fresh()
    requires Inverts(result.sink.decode, z)
    modifies result.parser, result.sink, result.sink.connection
    ensures StreamOf(z, source, maximum, id, checks, stream)
    ensures var sink, arrived := result.sink, deliver(stream.pieces);
            var before, after := old(sink.connection.tables), sink.connection.tables;
            && (acknowledged ==>
                  && Served(z, source, maximum, id, checks) && Concat(arrived) == Concat(stream.pieces)
                  && after == before[sink.publishedTable := ArrowIngest.TableData(source.schema, source.batches)])
            && (!acknowledged ==> after - {sink.pendingTable} == before - {sink.pendingTable})
            && (maximum <= result.parser.maximumResultBytes ==>
                  (acknowledged <==>
                     && Served(z, source, maximum, id, checks) && Concat(arrived) == Concat(stream.pieces) && !broken
                     && ArrowIngest.Accepting(sink.writable, 0, |AllChunks(z, source)|)
                     && old(sink.Publishable(AllChunks(z, source)))))
  {
    hide AllChunks;
    hide Replays;
    hide Accepts;
    hide Feed;
    hide Frames;
    hide EncodeStream;
    ghost var limit := result.parser.maximumResultBytes;
    stream := Serve(z, source, maximum, id, checks);
    var transport := deliver(stream.pieces);
    acknowledged := LoadResult(result, transport, broken);
    if Accepts(limit, transport) {
      FailureAtomicity(z, source, maximum, id, checks, stream, limit, transport);
      DecodedWhole(z, source, maximum, id, checks, result.sink.decode);
    } else if stream.completed && maximum <= limit && Concat(transport) == Concat(stream.pieces) {
      CompleteDelivery(z, source, maximum, id, checks, stream, limit, transport);
    }
  }

  lemma DecodedWhole(z: A.Serializer, source: A.Source, maximum: int, id: B.SourceId, checks: Checks, decode: ArrowIngest.Decoder)
    requires Served(z, source, maximum, id, checks) && Inverts(decode, z)
    ensures decode(A.Serialized(z, source)) == Some(ArrowIngest.Decoded(source.schema, source.batches, true))
    ensures ArrowIngest.Ingested(ArrowIngest.Decoded(source.schema, source.batches, true))
            == ArrowIngest.TableData(source.schema, source.batches)
  {
    assert source.batches != [] ==> source.batches[0] in source.batches;
    hide AllChunks;
  }

  /** What was admitted is served whole whenever the broker keeps offering it. */
  lemma AdmittedIsServable(z: A.Serializer, source: A.Source, limits: A.Limits, id: B.SourceId, checks: Checks)
    requires A.ValidLimits(limits) && A.Admissible(z, source, limits) && limits.arrowBytes < LENGTH_LIMIT
    ensures Served(z, source, limits.arrowBytes, id, checks)
            <==> forall i: nat :: i <= |AllChunks(z, source)| ==> checks(i) == B.Answer.Source(id)
  {
    ReplayNeverOverflows(z, source, limits, limits.arrowBytes);
    ChunksAreTheSerialization(z, source);
    SmallIsFramable(AllChunks(z, source));
    hide A.CellsWithin;
    hide AllChunks;
    assert forall i: nat :: Passes(checks, i, id) <==> checks(i) == B.Answer.Source(id);
  }

  /** The answers of a stream's checks, as calls `at` of a broker run. */
  ghost predicate ChecksAlong(cfg: B.Config, m: R.Machine, calls: seq<B.Call>, at: seq<nat>, request: B.RequestId, checks: Checks)
    requires B.ValidConfig(cfg) && R.WellKept(cfg, m) && R.EnabledAll(cfg, m, calls)
  {
    forall i :: 0 <= i < |at| ==>
      && at[i] < |calls| && calls[at[i]].Open? && calls[at[i]].id == request
      && checks(i) == AnswerAt(cfg, m, calls, at[i])
  }

  /** A stream is finished only if, in the broker run that interleaves with it, nobody cancelled the
      request before the last check, and that check read the clock short of the request's deadline. */
  lemma FinishedMeansAvailable(z: A.Serializer, source: A.Source, maximum: int, id: B.SourceId, checks: Checks, stream: Stream,
                               cfg: B.Config, m: R.Machine, calls: seq<B.Call>, at: seq<nat>, request: B.RequestId)
    requires StreamOf(z, source, maximum, id, checks, stream) && stream.completed
    requires B.ValidConfig(cfg) && R.WellKept(cfg, m) && R.EnabledAll(cfg, m, calls) && request in m.issued
    requires B.Lookup(m.table, request).Some? && B.Lookup(m.table, request).value.status.Complete?
    requires |at| == |AllChunks(z, source)| + 1 && ChecksAlong(cfg, m, calls, at, request, checks)
    ensures var last := at[|at| - 1];
            && (forall q :: 0 <= q < last ==> !(calls[q].Cancel? && calls[q].id == request))
            && m.clock <= calls[last].now < B.Lookup(m.table, request).value.expiresAt
            && B.Lookup(m.table, request).value.source == Some(id)
  {
    hide AllChunks;
    hide R.WellKept;
    hide R.EnabledAll;
    hide B.Lookup;
    var k := |at| - 1;
    assert Passes(checks, k, id);
    AvailableAllAlong(cfg, m, calls, at[k], request, id);
  }

  /** And it is finished whenever that is so: a stream of a source that can be replayed and framed, with its
      checks in order, is finished exactly if nobody cancelled the request before the last check and that
      check read the clock short of the request's deadline. */
  lemma FinishedIffAvailable(z: A.Serializer, source: A.Source, maximum: int, id: B.SourceId, checks: Checks, stream: Stream,
                             cfg: B.Config, m: R.Machine, calls: seq<B.Call>, at: seq<nat>, request: B.RequestId)
    requires StreamOf(z, source, maximum, id, checks, stream)
    requires Replays(z, source, maximum) && Framable(AllChunks(z, source))
    requires B.ValidConfig(cfg) && R.WellKept(cfg, m) && R.EnabledAll(cfg, m, calls)
    requires var record := B.Lookup(m.table, request);
             record.Some? && record.value.status.Complete? && record.value.source == Some(id)
    requires |at| == |AllChunks(z, source)| + 1 && ChecksAlong(cfg, m, calls, at, request, checks)
    requires forall i, j :: 0 <= i < j < |at| ==> at[i] < at[j]
    ensures stream.completed <==>
              var last := at[|at| - 1];
              && calls[last].now < B.Lookup(m.table, request).value.expiresAt
              && forall q :: 0 <= q < last ==> !(calls[q].Cancel? && calls[q].id == request)
  {
    hide *;
    var n := |at| - 1;
    var r := B.Lookup(m.table, request).value;
    FoundIsIssued(cfg, m, request);
    CheckAt(cfg, m, calls, at, request, checks, n);
    if calls[at[n]].now < r.expiresAt && forall q :: 0 <= q < at[n] ==> !(calls[q].Cancel? && calls[q].id == request) {
      forall i: nat | i <= |AllChunks(z, source)| ensures checks(i) == B.Answer.Source(id) {
        CheckAt(cfg, m, calls, at, request, checks, i);
        if i < n {
          assert at[i] < at[n];
          LookReadings(cfg, m, calls, at[i], at[n]);
        }
        FoundIff(cfg, m, calls, at[i], r);
      }
      AllPass(z, source, maximum, id, checks, stream);
    }
    if stream.completed {
      FinishedMeansAvailable(z, source, maximum, id, checks, stream, cfg, m, calls, at, request);
    }
  }

  lemma CheckAt(cfg: B.Config, m: R.Machine, calls: seq<B.Call>, at: seq<nat>, request: B.RequestId, checks: Checks, i: nat)
    requires B.ValidConfig(cfg) && R.WellKept(cfg, m) && R.EnabledAll(cfg, m, calls)
    requires ChecksAlong(cfg, m, calls, at, request, checks) && i < |at|
    ensures at[i] < |calls| && calls[at[i]].Open? && calls[at[i]].id == request
    ensures checks(i) == AnswerAt(cfg, m, calls, at[i])
  {
    hide AnswerAt;
    hide R.WellKept;
    hide R.EnabledAll;
  }

  lemma AllPass(z: A.Serializer, source: A.Source, maximum: int, id: B.SourceId, checks: Checks, stream: Stream)
    requires StreamOf(z, source, maximum, id, checks, stream)
    requires Replays(z, source, maximum) && Framable(AllChunks(z, source))
    requires forall i: nat :: i <= |AllChunks(z, source)| ==> checks(i) == B.Answer.Source(id)
    ensures stream.completed
  {
    hide AllChunks;
    hide Replays;
  }
}
