/** The server's side of the framed stream: one frame for each replayed chunk, every frame and the
    completion preceded by a fresh look at the broker. */
module FramedStream {
  import opened Wrappers
  import opened Wire
  import A = Arrow
  import opened ArrowReplay
  import opened BrokerModel

  /** The pieces a stream has yielded, and whether the last of them is the completion frame. */
  datatype Stream = Stream(pieces: seq<Bytes>, completed: bool)

  /** The answers the broker gives to the successive checks of one stream. */
  type Checks = nat -> Answer

  predicate Passes(checks: Checks, i: nat, id: SourceId) {
    checks(i) == Answer.Source(id)
  }

  function Frames(payloads: seq<Bytes>): (frames: seq<Bytes>)
    ensures |frames| == |payloads|
  {
    seq(|payloads|, i requires 0 <= i < |payloads| => Frame(ARROW_FRAME, payloads[i]))
  }

  lemma {:induction false} FramesConcat(payloads: seq<Bytes>)
    ensures Concat(Frames(payloads)) == ArrowFrames(payloads)
  {
    if payloads != [] {
      FramesConcat(payloads[1..]);
      assert Frames(payloads)[1..] == Frames(payloads[1..]);
    }
  }

  /** The chunks of an interrupted replay are the first of all its chunks. */
  lemma {:induction false} InterruptedIsPrefix(z: A.Serializer, source: A.Source, n: nat)
    requires n <= |source.batches|
    ensures ChunksUpTo(z, source, n) <= AllChunks(z, source)
  {
    BatchChunksGrow(z, source.schema, source.batches, n);
    assert BatchChunks(z, source.schema, source.batches) <= AllChunks(z, source);
    hide BatchChunks;
    hide AllChunks;
  }

  lemma {:induction false} BatchChunksGrow(z: A.Serializer, schema: A.Schema, batches: seq<A.Batch>, n: nat)
    requires n <= |batches|
    ensures BatchChunks(z, schema, batches[..n]) <= BatchChunks(z, schema, batches)
  {
    if n < |batches| {
      var front := batches[..|batches| - 1];
      BatchChunksGrow(z, schema, front, n);
      assert front[..n] == batches[..n];
      assert BatchChunks(z, schema, front) <= BatchChunks(z, schema, batches);
    } else {
      assert batches[..n] == batches;
    }
  }

  /** What a stream that sent the first `n` chunks has put on the wire. */
  function Wired(z: A.Serializer, source: A.Source, n: nat): Bytes
    requires n <= |AllChunks(z, source)|
  {
    MAGIC + ArrowFrames(AllChunks(z, source)[..n])
  }

  /** The whole result was sent and, at every check, the request was still available. */
  ghost predicate Served(z: A.Serializer, source: A.Source, maximum: int, id: SourceId, checks: Checks) {
    && Replays(z, source, maximum)
    && Framable(AllChunks(z, source))
    && forall i: nat :: i <= |AllChunks(z, source)| ==> Passes(checks, i, id)
  }

  /** The first `n` chunks were sent, each after a check that passed. */
  ghost predicate SentUpTo(z: A.Serializer, source: A.Source, id: SourceId, checks: Checks, pieces: seq<Bytes>, n: nat) {
    && n <= |AllChunks(z, source)|
    && pieces == [MAGIC] + Frames(AllChunks(z, source)[..n])
    && Framable(AllChunks(z, source)[..n])
    && forall i: nat :: i < n ==> Passes(checks, i, id)
  }

  /** Why a stream ended after `n` frames: the next check failed, the next chunk has no frame, the replay
      failed there, or all was sent and the last check failed. */
  ghost predicate Stopped(z: A.Serializer, source: A.Source, maximum: int, id: SourceId, checks: Checks, n: nat)
    requires n <= |AllChunks(z, source)|
  {
    var all := AllChunks(z, source);
    || !Passes(checks, n, id)
    || (n < |all| && |all[n]| >= LENGTH_LIMIT)
    || Interrupted(z, source, maximum, all[..n])
  }

  /** Whatever the generator has yielded so far is an initial part of all chunks. */
  lemma YieldedIsPrefix(generator: IpcChunks)
    requires generator.Valid()
    ensures generator.yielded <= AllChunks(generator.writer.serializer, generator.source)
  {
    var z, source := generator.writer.serializer, generator.source;
    hide AllChunks;
    hide Replays;
    hide Covered;
    hide StopsAt;
    if generator.maximum > 0 && !generator.trailed {
      if generator.ended {
        var n: nat :| n <= |source.batches| && StopsAt(z, source, generator.maximum, n)
                      && generator.yielded == ChunksUpTo(z, source, n);
        InterruptedIsPrefix(z, source, n);
      } else {
        InterruptedIsPrefix(z, source, generator.position);
      }
    }
  }

  /** The replay has not failed before its chunk `n`. */
  ghost predicate Uncut(z: A.Serializer, source: A.Source, maximum: int, n: nat)
    requires n <= |AllChunks(z, source)|
  {
    forall m: nat :: m < n ==> !Interrupted(z, source, maximum, AllChunks(z, source)[..m])
  }

  lemma {:induction false} FewerBatchesFewerChunks(z: A.Serializer, source: A.Source, n: nat, m: nat)
    requires n <= m <= |source.batches|
    ensures |ChunksUpTo(z, source, n)| <= |ChunksUpTo(z, source, m)|
  {
    assert source.batches[..m][..n] == source.batches[..n];
    BatchChunksGrow(z, source.schema, source.batches[..m], n);
    hide BatchChunks;
  }

  /** A generator that has yielded more than `m` chunks does not stop at `m`. */
  lemma YieldedPast(generator: IpcChunks, m: nat)
    requires generator.Valid() && m < |generator.yielded|
    requires m <= |AllChunks(generator.writer.serializer, generator.source)|
    ensures var z, source := generator.writer.serializer, generator.source;
            !Interrupted(z, source, generator.maximum, AllChunks(z, source)[..m])
  {
    hide AllChunks;
    hide ChunksUpTo;
    hide Replays;
    hide Covered;
    hide StopsAt;
    var z, source, maximum := generator.writer.serializer, generator.source, generator.maximum;
    var chunks := AllChunks(z, source)[..m];
    if Interrupted(z, source, maximum, chunks) {
      var n: nat :| n <= |source.batches| && StopsAt(z, source, maximum, n) && chunks == ChunksUpTo(z, source, n);
      if generator.trailed {
        CompletedNeverStops(z, source, maximum, n);
      } else if generator.ended {
        var k: nat :| k <= |source.batches| && StopsAt(z, source, maximum, k) && generator.yielded == ChunksUpTo(z, source, k);
        if n < k {
          StopsOnce(z, source, maximum, n, k);
        } else if k < n {
          StopsOnce(z, source, maximum, k, n);
        }
      } else if n < generator.position {
        StopsAfterCovered(z, source, maximum, n, generator.position);
      } else {
        FewerBatchesFewerChunks(z, source, generator.position, n);
      }
    }
  }

  /** Streams one request, looking at the broker between the generator's chunks. The completion frame goes
      out exactly when the replay completed, every chunk was sent, and the broker still offered that very
      source each time it was asked. */
  method Serve(z: A.Serializer, source: A.Source, maximum: int, id: SourceId, checks: Checks) returns (stream: Stream)
    ensures stream.completed <==> Served(z, source, maximum, id, checks)
    ensures stream.completed ==> stream.pieces == [MAGIC] + Frames(AllChunks(z, source)) + [COMPLETION]
    ensures !stream.completed ==>
              exists n: nat ::
                && SentUpTo(z, source, id, checks, stream.pieces, n)
                && Stopped(z, source, maximum, id, checks, n) && Uncut(z, source, maximum, n)
  {
    hide AllChunks;
    hide Replays;
    hide Interrupted;
    hide Concat;
    hide Sending;
    hide Covered;
    hide MAGIC;
    hide COMPLETION;
    hide Frame;
    ghost var all := AllChunks(z, source);
    var pieces := [MAGIC];
    assert Frames(all[..0]) == [];
    var generator := new IpcChunks(z, source, maximum);
    var i: nat := 0;
    var chunk := generator.Next();
    YieldedIsPrefix(generator);
    while chunk.Some?
      invariant generator.Valid() && generator.writer.serializer == z && generator.source == source && generator.maximum == maximum
      invariant fresh(generator) && fresh(generator.writer) && fresh(generator.writer.sink)
      invariant generator.ended <==> chunk.None?
      invariant i <= |all| && generator.yielded == if chunk.Some? then all[..i] + [chunk.value] else all[..i]
      invariant generator.yielded <= all
      invariant SentUpTo(z, source, id, checks, pieces, i) && Uncut(z, source, maximum, i)
      decreases generator.Left(), chunk.Some?
    {
      assert generator.yielded[i] == all[i] == chunk.value;
      if checks(i) != Answer.Source(id) {
        assert !Passes(checks, i, id);
        return Stream(pieces, false);
      }
      if |chunk.value| >= LENGTH_LIMIT {
        return Stream(pieces, false);
      }
      assert Passes(checks, i, id);
      OneMore(z, source, id, checks, pieces, i);
      YieldedPast(generator, i);
      pieces := pieces + [Frame(ARROW_FRAME, chunk.value)];
      i := i + 1;
      assert generator.yielded == all[..i];
      chunk := generator.Next();
      YieldedIsPrefix(generator);
    }
    if !generator.trailed {
      return Stream(pieces, false);
    }
    assert all[..i] == all;
    if checks(i) != Answer.Source(id) {
      assert !Passes(checks, i, id);
      return Stream(pieces, false);
    }
    assert Passes(checks, i, id);
    return Stream(pieces + [COMPLETION], true);
  }

  lemma OneMore(z: A.Serializer, source: A.Source, id: SourceId, checks: Checks, pieces: seq<Bytes>, i: nat)
    requires i < |AllChunks(z, source)| && SentUpTo(z, source, id, checks, pieces, i) && Passes(checks, i, id)
    requires |AllChunks(z, source)[i]| < LENGTH_LIMIT
    ensures SentUpTo(z, source, id, checks, pieces + [Frame(ARROW_FRAME, AllChunks(z, source)[i])], i + 1)
  {
    hide AllChunks;
    hide MAGIC;
    var all := AllChunks(z, source);
    assert Frames(all[..i + 1]) == Frames(all[..i]) + [Frame(ARROW_FRAME, all[i])];
  }

  /** The bytes of a stream: an encoding of all chunks, or frames that no completion follows. */
  lemma StreamBytes(z: A.Serializer, source: A.Source, id: SourceId, checks: Checks, stream: Stream, n: nat)
    requires stream.completed ==> stream.pieces == [MAGIC] + Frames(AllChunks(z, source)) + [COMPLETION]
    requires !stream.completed ==> SentUpTo(z, source, id, checks, stream.pieces, n)
    ensures Concat(stream.pieces) == if stream.completed then EncodeStream(AllChunks(z, source)) else Wired(z, source, n)
  {
    hide AllChunks;
    hide MAGIC;
    hide COMPLETION;
    var payloads := if stream.completed then AllChunks(z, source) else AllChunks(z, source)[..n];
    FramesConcat(payloads);
    ConcatAppend([MAGIC], Frames(payloads));
    assert Concat([MAGIC]) == MAGIC + Concat([]);
    ConcatSnoc([MAGIC] + Frames(payloads), COMPLETION);
    hide Concat;
    hide ArrowFrames;
  }
}
