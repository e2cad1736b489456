/** The viewer's load: transport chunks go through the parser, payloads go to the sink as they come out,
    and the result is published only once the stream has ended and the parser agrees that it is whole. */
module ViewerLoad {
  import opened Wrappers
  import opened Wire
  import opened ResultStream
  import opened ArrowIngest

  class ProvisionalResult {
    const parser: ResultStreamParser
    const sink: IncrementalArrowSink

    constructor (parser: ResultStreamParser, sink: IncrementalArrowSink)
      ensures this.parser == parser && this.sink == sink
    {
      this.parser, this.sink := parser, sink;
    }

    ghost predicate Valid()
      reads this, parser, sink, sink.connection
    {
      parser.Valid() && sink.Valid()
    }

    /** Parses one transport chunk and inserts the payloads it completes, in order, until an insert fails. */
    method Push(chunk: Bytes) returns (ok: bool)
      requires Valid()
      modifies parser, sink, sink.connection
      ensures Valid()
      ensures parser.State() == PushStep(parser.maximumResultBytes, old(parser.State()), chunk).next
      ensures var outcome := PushStep(parser.maximumResultBytes, old(parser.State()), chunk).outcome;
              && (ok <==> outcome.Parsed? && Accepting(sink.writable, |old(sink.chunks)|, |outcome.chunks|))
              && (ok ==> sink.chunks == old(sink.chunks) + outcome.chunks)
              && (outcome.Threw? ==> sink.chunks == old(sink.chunks))
              && (!ok && outcome.Parsed? ==>
                    exists n: nat :: n < |outcome.chunks| && sink.chunks == old(sink.chunks) + outcome.chunks[..n])
    {
      hide PushStep;
      hide IncrementalArrowSink.Valid;
      ghost var state := parser.State();
      var outcome := parser.Push(chunk);
      ghost var next := parser.State();
      if outcome.Threw? {
        return false;
      }
      ghost var before := sink.chunks;
      var i := 0;
      while i < |outcome.chunks|
        invariant 0 <= i <= |outcome.chunks|
        invariant Valid() && parser.State() == next
        invariant sink.chunks == before + outcome.chunks[..i]
        invariant Accepting(sink.writable, |before|, i)
        modifies sink, sink.connection
      {
        var inserted := sink.Insert(outcome.chunks[i]);
        if !inserted {
          return false;
        }
        assert outcome.chunks[..i + 1] == outcome.chunks[..i] + [outcome.chunks[i]];
        i := i + 1;
      }
      assert outcome.chunks[..i] == outcome.chunks;
      return true;
    }

    method Finish() returns (ok: bool)
      requires Valid()
      modifies sink`inserted, sink`failed, sink.connection
      ensures ok <==> old(FinishSucceeds(parser.State())) && sink.Publishable(sink.chunks)
      ensures var before, after := sink.before, sink.connection.tables;
              && (ok ==> after == before[sink.publishedTable := Ingested(sink.decode(Concat(sink.chunks)).value)])
              && (!ok ==> after - {sink.pendingTable} == before - {sink.pendingTable})
    {
      var finished := parser.Finish();
      if !finished {
        OnlyPendingDiffers(sink);
        return false;
      }
      ok := sink.Publish();
    }
  }

  lemma OnlyPendingDiffers(sink: IncrementalArrowSink)
    requires sink.Valid()
    ensures sink.connection.tables - {sink.pendingTable} == sink.before - {sink.pendingTable}
  {
    hide Concat;
  }

  /** What feeding the rest of a transport adds to chunks already collected. */
  function Ahead(chunks: seq<Bytes>, fed: Fed): Fed {
    fed.(chunks := chunks + fed.chunks)
  }

  lemma FeedFirst(maximum: nat, p: Parser, transport: seq<Bytes>, i: nat, chunks: seq<Bytes>)
    requires i < |transport|
    ensures var step := PushStep(maximum, p, transport[i]);
            Ahead(chunks, Feed(maximum, p, transport[i..])) ==
            if step.outcome.Threw? then Fed(step.next, chunks, Some(step.outcome.cause))
            else Ahead(chunks + step.outcome.chunks, Feed(maximum, step.next, transport[i + 1..]))
  {
    assert transport[i..][1..] == transport[i + 1..];
    var step := PushStep(maximum, p, transport[i]);
    if step.outcome.Parsed? {
      AheadTwice(chunks, step.outcome.chunks, Feed(maximum, step.next, transport[i + 1..]));
    } else {
      assert chunks + [] == chunks;
    }
    hide PushStep;
  }

  lemma AheadTwice(a: seq<Bytes>, b: seq<Bytes>, fed: Fed)
    ensures Ahead(a, Ahead(b, fed)) == Ahead(a + b, fed)
  {
    assert a + (b + fed.chunks) == a + b + fed.chunks;
  }

  /** The payloads a whole transport hands out. */
  function Payloads(maximum: nat, transport: seq<Bytes>): seq<Bytes> {
    Feed(maximum, INITIAL, transport).chunks
  }

  /** Reads a stream to its end and publishes it. The table appears exactly when the stream did not
      break off, the parser accepted all of it, and the sink could take and publish every payload;
      otherwise no table but the pending one has changed. */
  method LoadResult(result: ProvisionalResult, transport: seq<Bytes>, broken: bool) returns (acknowledged: bool)
    requires result.parser.Valid() && result.parser.State() == INITIAL && result.sink.Fresh()
    modifies result.parser, result.sink, result.sink.connection
    ensures var maximum, sink := result.parser.maximumResultBytes, result.sink;
            var payloads := Payloads(maximum, transport);
            var before, after := old(sink.connection.tables), sink.connection.tables;
            && (acknowledged <==>
                  && !broken && Accepts(maximum, transport)
                  && Accepting(sink.writable, 0, |payloads|) && old(sink.Publishable(payloads)))
            && (acknowledged ==>
                  && sink.decode(Concat(payloads)).Some?
                  && after == before[sink.publishedTable := Ingested(sink.decode(Concat(payloads)).value)])
            && (!acknowledged ==> after - {sink.pendingTable} == before - {sink.pendingTable})
  {
    hide PushStep;
    hide Feed;
    hide IncrementalArrowSink.Valid;
    var parser, sink := result.parser, result.sink;
    ghost var maximum := parser.maximumResultBytes;
    ghost var fed := Feed(maximum, INITIAL, transport);
    assert transport[0..] == transport && Ahead([], fed) == fed;
    var i := 0;
    while i < |transport|
      invariant 0 <= i <= |transport|
      invariant result.Valid()
      invariant Ahead(sink.chunks, Feed(maximum, parser.State(), transport[i..])) == fed
      invariant Accepting(sink.writable, 0, |sink.chunks|)
      modifies parser, sink, sink.connection
    {
      FeedFirst(maximum, parser.State(), transport, i, sink.chunks);
      var ok := result.Push(transport[i]);
      if !ok {
        OnlyPendingDiffers(sink);
        return false;
      }
      i := i + 1;
    }
    if broken {
      OnlyPendingDiffers(sink);
      return false;
    }
    FeedNothing(maximum, parser.State(), transport[i..], sink.chunks);
    acknowledged := result.Finish();
  }

  lemma FeedNothing(maximum: nat, p: Parser, rest: seq<Bytes>, chunks: seq<Bytes>)
    requires rest == []
    ensures Ahead(chunks, Feed(maximum, p, rest)) == Fed(p, chunks, None)
  {
    assert chunks + [] == chunks;
  }
}
