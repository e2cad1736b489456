/** The replay of a retained result as Arrow IPC chunks under a byte cap. */
module ArrowReplay {
  import opened Wrappers
  import opened Wire
  import opened Arrow
  import opened ArrowAdmission

  function OneSchema(source: Source): bool {
    forall b :: b in source.batches ==> b.schema == source.schema
  }

  function Chunk(bytes: Bytes): seq<Bytes> {
    if bytes == [] then [] else [bytes]
  }

  /** The chunks of the batches alone: one for each batch that writes anything, the schema going out
      with the first. */
  function BatchChunks(z: Serializer, schema: Schema, batches: seq<Batch>): seq<Bytes> {
    if batches == [] then []
    else
      var front, last := batches[..|batches| - 1], batches[|batches| - 1];
      BatchChunks(z, schema, front) + Chunk(Unsent(z, schema, front) + Concat(z.message(schema, front, last)))
  }

  /** The header waits in the sink until the first batch, or the end of an empty result. */
  function Unsent(z: Serializer, schema: Schema, batches: seq<Batch>): Bytes {
    if batches == [] then Concat(z.header(schema)) else []
  }

  function AllChunks(z: Serializer, source: Source): seq<Bytes> {
    BatchChunks(z, source.schema, source.batches)
    + Chunk(Unsent(z, source.schema, source.batches) + Concat(z.trailer(source.schema, source.batches)))
  }

  lemma ConcatChunk(chunks: seq<Bytes>, bytes: Bytes)
    ensures Concat(chunks + Chunk(bytes)) == Concat(chunks) + bytes
  {
    if bytes == [] {
      assert chunks + [] == chunks;
    } else {
      ConcatSnoc(chunks, bytes);
    }
  }

  lemma {:induction false} BatchChunksConcat(z: Serializer, schema: Schema, batches: seq<Batch>)
    ensures Concat(BatchChunks(z, schema, batches)) + Unsent(z, schema, batches) == Body(z, schema, batches)
    ensures forall c :: c in BatchChunks(z, schema, batches) ==> c != []
  {
    if batches != [] {
      var front, last := batches[..|batches| - 1], batches[|batches| - 1];
      BatchChunksConcat(z, schema, front);
      var message := Concat(z.message(schema, front, last));
      ConcatChunk(BatchChunks(z, schema, front), Unsent(z, schema, front) + message);
      Assoc(Concat(BatchChunks(z, schema, front)), Unsent(z, schema, front), message);
    }
  }

  /** Nothing is lost or added by chunking: the chunks are non-empty and make up the serialization. */
  lemma ChunksAreTheSerialization(z: Serializer, source: Source)
    ensures Concat(AllChunks(z, source)) == Serialized(z, source)
    ensures forall c :: c in AllChunks(z, source) ==> c != []
    ensures |AllChunks(z, source)| <= |source.batches| + 1
  {
    var schema, batches := source.schema, source.batches;
    BatchChunksConcat(z, schema, batches);
    var trailer := Concat(z.trailer(schema, batches));
    ConcatChunk(BatchChunks(z, schema, batches), Unsent(z, schema, batches) + trailer);
    Assoc(Concat(BatchChunks(z, schema, batches)), Unsent(z, schema, batches), trailer);
    ChunkCount(z, schema, batches);
  }

  lemma {:induction false} ChunkCount(z: Serializer, schema: Schema, batches: seq<Batch>)
    ensures |BatchChunks(z, schema, batches)| <= |batches|
  {
    if batches != [] {
      ChunkCount(z, schema, batches[..|batches| - 1]);
    }
  }

  lemma Cancel(prefix: Bytes, a: Bytes, b: Bytes)
    requires prefix + a == prefix + b
    ensures a == b
  {
    assert a == (prefix + a)[|prefix|..] && b == (prefix + b)[|prefix|..];
  }

  /** What a drain after one more batch brings up is that batch's chunk. */
  lemma NextChunk(z: Serializer, schema: Schema, batches: seq<Batch>, i: nat, chunk: Bytes)
    requires i < |batches|
    requires Concat(BatchChunks(z, schema, batches[..i])) + chunk == Body(z, schema, batches[..i + 1])
    ensures BatchChunks(z, schema, batches[..i + 1]) == BatchChunks(z, schema, batches[..i]) + Chunk(chunk)
    ensures Concat(BatchChunks(z, schema, batches[..i + 1])) == Body(z, schema, batches[..i + 1])
  {
    var front, longer := batches[..i], batches[..i + 1];
    var message := Concat(z.message(schema, front, batches[i]));
    assert longer[..i] == front && longer[i] == batches[i];
    BatchChunksConcat(z, schema, front);
    BatchChunksConcat(z, schema, longer);
    Assoc(Concat(BatchChunks(z, schema, front)), Unsent(z, schema, front), message);
    Cancel(Concat(BatchChunks(z, schema, front)), chunk, Unsent(z, schema, front) + message);
  }

  /** What a drain after the trailer brings up is the last chunk. */
  lemma LastChunk(z: Serializer, source: Source, chunk: Bytes)
    requires Concat(BatchChunks(z, source.schema, source.batches)) + chunk == Serialized(z, source)
    ensures AllChunks(z, source) == BatchChunks(z, source.schema, source.batches) + Chunk(chunk)
  {
    var schema, batches := source.schema, source.batches;
    var trailer := Concat(z.trailer(schema, batches));
    BatchChunksConcat(z, schema, batches);
    Assoc(Concat(BatchChunks(z, schema, batches)), Unsent(z, schema, batches), trailer);
    Cancel(Concat(BatchChunks(z, schema, batches)), chunk, Unsent(z, schema, batches) + trailer);
  }

  lemma PartSent(z: Serializer, source: Source, n: nat)
    requires n <= |source.batches|
    ensures Concat(BatchChunks(z, source.schema, source.batches[..n])) <= Serialized(z, source)
    ensures Body(z, source.schema, source.batches[..n]) <= Serialized(z, source)
    ensures forall c :: c in BatchChunks(z, source.schema, source.batches[..n]) ==> c != []
  {
    BatchChunksConcat(z, source.schema, source.batches[..n]);
    TotalsGrow(z, source.schema, source.batches, n);
    PrefixThrough(Body(z, source.schema, source.batches[..n]), Body(z, source.schema, source.batches), Serialized(z, source));
    PrefixThrough(Concat(BatchChunks(z, source.schema, source.batches[..n])), Body(z, source.schema, source.batches[..n]),
                  Serialized(z, source));
  }

  /** A replay runs to its end exactly when the cap covers the whole serialization. */
  ghost predicate Replays(z: Serializer, source: Source, maximum: int) {
    maximum > 0 && OneSchema(source) && |Serialized(z, source)| <= maximum
  }

  /** The first `n` batches share the schema and fit under the cap, the header included. */
  ghost predicate Covered(z: Serializer, source: Source, maximum: int, n: nat) {
    && n <= |source.batches| && maximum > 0
    && OneSchema(Source(source.schema, source.batches[..n]))
    && (n > 0 ==> |Body(z, source.schema, source.batches[..n])| <= maximum)
  }

  /** Where a replay that fails stops: at the first batch of another schema or beyond the cap, or at a
      trailer beyond the cap. */
  ghost predicate StopsAt(z: Serializer, source: Source, maximum: int, n: nat) {
    if maximum <= 0 then n == 0
    else
      && Covered(z, source, maximum, n)
      && if n == |source.batches| then |Serialized(z, source)| > maximum
         else source.batches[n].schema != source.schema || |Body(z, source.schema, source.batches[..n + 1])| > maximum
  }

  ghost predicate Interrupted(z: Serializer, source: Source, maximum: int, chunks: seq<Bytes>) {
    exists n: nat :: n <= |source.batches| && StopsAt(z, source, maximum, n) && chunks == ChunksUpTo(z, source, n)
  }

  /** There is only one such place. */
  lemma StopsOnce(z: Serializer, source: Source, maximum: int, n: nat, m: nat)
    requires n < m && m <= |source.batches| && StopsAt(z, source, maximum, n)
    ensures !StopsAt(z, source, maximum, m)
  {
    var front := source.batches[..m];
    assert front[n] == source.batches[n] && front[n] in front && front[..n + 1] == source.batches[..n + 1];
    TotalsGrow(z, source.schema, front, n + 1);
    hide Body;
    hide Serialized;
  }

  function ChunksUpTo(z: Serializer, source: Source, n: nat): seq<Bytes>
    requires n <= |source.batches|
  {
    BatchChunks(z, source.schema, source.batches[..n])
  }

  /** Nor is it before batches the cap has covered, or anywhere in a replay that completes. */
  lemma StopsAfterCovered(z: Serializer, source: Source, maximum: int, n: nat, m: nat)
    requires n < m && Covered(z, source, maximum, m)
    ensures !StopsAt(z, source, maximum, n)
  {
    var front := source.batches[..m];
    assert front[n] == source.batches[n] && front[n] in front && front[..n + 1] == source.batches[..n + 1];
    TotalsGrow(z, source.schema, front, n + 1);
    hide Body;
    hide Serialized;
  }

  lemma CompletedNeverStops(z: Serializer, source: Source, maximum: int, n: nat)
    requires Replays(z, source, maximum) && n <= |source.batches|
    ensures !StopsAt(z, source, maximum, n)
  {
    hide Body;
    hide Serialized;
    hide Covered;
    hide BatchChunks;
    hide Concat;
    if n < |source.batches| {
      assert source.batches[n] in source.batches;
      PartSent(z, source, n + 1);
    }
  }

  /** Whether or not it completes, a replay hands over non-empty pieces of the serialization, in order. */
  lemma ReplayIsPrefix(z: Serializer, source: Source, maximum: int, chunks: seq<Bytes>)
    requires chunks == AllChunks(z, source) || Interrupted(z, source, maximum, chunks)
    ensures Concat(chunks) <= Serialized(z, source)
    ensures forall c :: c in chunks ==> c != []
  {
    if chunks == AllChunks(z, source) {
      ChunksAreTheSerialization(z, source);
    } else {
      var n: nat :| n <= |source.batches| && StopsAt(z, source, maximum, n) && chunks == ChunksUpTo(z, source, n);
      PartSent(z, source, n);
    }
  }

  lemma StepSent(z: Serializer, source: Source, i: nat, chunks: seq<Bytes>, chunk: Bytes)
    requires i < |source.batches| && chunks == ChunksUpTo(z, source, i)
    requires Concat(chunks) + chunk == Body(z, source.schema, source.batches[..i + 1])
    ensures chunks + Chunk(chunk) == ChunksUpTo(z, source, i + 1)
    ensures Concat(chunks + Chunk(chunk)) == Concat(chunks) + chunk
  {
    NextChunk(z, source.schema, source.batches, i, chunk);
  }

  lemma AllSent(z: Serializer, source: Source, chunks: seq<Bytes>, chunk: Bytes)
    requires chunks == ChunksUpTo(z, source, |source.batches|)
    requires Concat(chunks) + chunk == Serialized(z, source)
    ensures chunks + Chunk(chunk) == AllChunks(z, source)
    ensures Concat(chunks + Chunk(chunk)) == Concat(chunks) + chunk
  {
    assert source.batches[..|source.batches|] == source.batches;
    LastChunk(z, source, chunk);
    ChunksAreTheSerialization(z, source);
  }

  lemma StopsShort(z: Serializer, source: Source, i: nat, maximum: int)
    requires i < |source.batches|
    requires source.batches[i].schema != source.schema || |Body(z, source.schema, source.batches[..i + 1])| > maximum
    ensures !Replays(z, source, maximum)
  {
    assert source.batches[i] in source.batches;
    PartSent(z, source, i + 1);
    hide Body;
    hide Serialized;
    hide ChunksUpTo;
  }

  lemma OneSchemaSnoc(source: Source, i: nat)
    requires i < |source.batches| && OneSchema(Source(source.schema, source.batches[..i]))
    requires source.batches[i].schema == source.schema
    ensures OneSchema(Source(source.schema, source.batches[..i + 1]))
  {
  }

  lemma SizeDecides(z: Serializer, source: Source, maximum: int)
    requires maximum > 0 && OneSchema(source)
    ensures Replays(z, source, maximum) <==> |Serialized(z, source)| <= maximum
  {
  }

  /** The first `i` batches are written and drained, and make up the chunks so far. */
  ghost predicate Sending(source: Source, writer: StreamWriter, chunks: seq<Bytes>, i: nat)
    reads writer, writer.sink
  {
    && i <= |source.batches| && writer.schema == source.schema
    && writer.Valid() && !writer.closed && writer.written == source.batches[..i]
    && writer.sink.drained == Concat(chunks) && chunks == ChunksUpTo(writer.serializer, source, i)
    && OneSchema(Source(source.schema, source.batches[..i]))
  }

  method SendBatch(source: Source, writer: StreamWriter, ghost chunks: seq<Bytes>, i: nat) returns (chunk: Bytes)
    requires i < |source.batches| && Sending(source, writer, chunks, i) && source.batches[i].schema == source.schema
    modifies writer, writer.sink
    ensures Sending(source, writer, chunks + Chunk(chunk), i + 1)
    ensures |Concat(chunks)| + |chunk| == |Concat(chunks + Chunk(chunk))|
            == |Body(writer.serializer, source.schema, source.batches[..i + 1])|
  {
    hide ChunksUpTo;
    hide Body;
    hide Serialized;
    hide OneSchema;
    hide Concat;
    hide Chunk;
    ghost var z := writer.serializer;
    writer.WriteBatch(source.batches[i]);
    assert writer.written == source.batches[..i + 1];
    chunk := writer.sink.Drain();
    OneSchemaSnoc(source, i);
    StepSent(z, source, i, chunks, chunk);
  }

  method SendTrailer(source: Source, writer: StreamWriter, ghost chunks: seq<Bytes>) returns (chunk: Bytes)
    requires Sending(source, writer, chunks, |source.batches|)
    modifies writer, writer.sink
    ensures chunks + Chunk(chunk) == AllChunks(writer.serializer, source)
    ensures |Concat(chunks)| + |chunk| == |Concat(chunks + Chunk(chunk))| == |Serialized(writer.serializer, source)|
  {
    assert source.batches[..|source.batches|] == source.batches;
    writer.Close();
    chunk := writer.sink.Drain();
    AllSent(writer.serializer, source, chunks, chunk);
    ChunksAreTheSerialization(writer.serializer, source);
    hide ChunksUpTo;
    hide AllChunks;
  }

  /** A batch of another schema, or one the cap does not cover, ends the replay there. */
  lemma StopsHere(z: Serializer, source: Source, i: nat, maximum: int)
    requires i < |source.batches| && Covered(z, source, maximum, i)
    requires source.batches[i].schema != source.schema || |Body(z, source.schema, source.batches[..i + 1])| > maximum
    ensures !Replays(z, source, maximum) && Interrupted(z, source, maximum, ChunksUpTo(z, source, i))
  {
    StopsShort(z, source, i, maximum);
    assert StopsAt(z, source, maximum, i);
    hide Covered;
    hide Body;
    hide ChunksUpTo;
  }

  lemma NextCovered(z: Serializer, source: Source, i: nat, maximum: int)
    requires i < |source.batches| && Covered(z, source, maximum, i) && source.batches[i].schema == source.schema
    requires |Body(z, source.schema, source.batches[..i + 1])| <= maximum
    ensures Covered(z, source, maximum, i + 1)
  {
    OneSchemaSnoc(source, i);
    hide Body;
    hide OneSchema;
  }

  /** At the end of the batches the size of the whole decides. */
  lemma EndDecides(z: Serializer, source: Source, maximum: int)
    requires Covered(z, source, maximum, |source.batches|)
    ensures Replays(z, source, maximum) <==> |Serialized(z, source)| <= maximum
    ensures !Replays(z, source, maximum) ==> Interrupted(z, source, maximum, ChunksUpTo(z, source, |source.batches|))
  {
    assert source.batches[..|source.batches|] == source.batches;
    SizeDecides(z, source, maximum);
    if |Serialized(z, source)| > maximum {
      assert StopsAt(z, source, maximum, |source.batches|);
    }
    hide Serialized;
    hide ChunksUpTo;
  }

  /** The generator: every call of Next runs it on to its next chunk or to its end, so that its caller can
      act in between. */
  class IpcChunks {
    const source: Source
    const maximum: int
    const writer: StreamWriter
    var position: nat      // batches written
    var trailed: bool      // the trailer has been written, within the cap
    var written: nat
    var ended: bool
    ghost var yielded: seq<Bytes>

    ghost predicate Valid()
      reads this, writer, writer.sink
    {
      && (!ended && !trailed && maximum > 0 ==>
            && Sending(source, writer, yielded, position) && written == |Concat(yielded)|
            && Covered(writer.serializer, source, maximum, position))
      && (trailed ==> yielded == AllChunks(writer.serializer, source) && Replays(writer.serializer, source, maximum))
      && (ended && !trailed ==>
            !Replays(writer.serializer, source, maximum) && Interrupted(writer.serializer, source, maximum, yielded))
      && (maximum <= 0 ==> yielded == [] && !trailed)
      && writer.schema == source.schema && position <= |source.batches|
    }

    constructor (z: Serializer, source: Source, maximum: int)
      ensures Valid() && writer.serializer == z && this.source == source && this.maximum == maximum
      ensures yielded == [] && !ended && fresh(writer) && fresh(writer.sink)
    {
      hide Replays;
      hide Interrupted;
      hide AllChunks;
      hide Sending;
      hide Covered;
      hide Concat;
      var chunkSink := new ChunkSink();
      var streamWriter := new StreamWriter(z, chunkSink, source.schema);
      NothingSent(source, streamWriter);
      NothingCovered(z, source, maximum);
      this.source, this.maximum, writer := source, maximum, streamWriter;
      position, trailed, written, ended, yielded := 0, false, 0, false, [];
    }

    function Left(): nat
      reads this
    {
      if ended || position > |source.batches| then 0 else if trailed then 1 else 2 + |source.batches| - position
    }

    /** The next chunk, never an empty one; none once the replay has completed or failed. */
    method Next() returns (chunk: Option<Bytes>)
      requires Valid() && !ended
      modifies this, writer, writer.sink
      ensures Valid()
      ensures chunk.Some? ==> !ended && chunk.value != [] && yielded == old(yielded) + [chunk.value] && Left() < old(Left())
      ensures chunk.None? ==> ended && yielded == old(yielded)
    {
      if maximum <= 0 {
        NothingUnderNoCap(writer.serializer, source, maximum);
        ended := true;
        return None;
      }
      hide Sending;
      hide Covered;
      hide Replays;
      hide Interrupted;
      hide AllChunks;
      hide Concat;
      if !trailed {
        chunk := NextOfBatches();
        if ended || chunk.Some? {
          return;
        }
        chunk := Trailer();
        if ended || chunk.Some? {
          return;
        }
      }
      ended := true;
      return None;
    }

    /** The loop over the batches, up to the next chunk. */
    method NextOfBatches() returns (chunk: Option<Bytes>)
      requires Valid() && !ended && !trailed && maximum > 0
      modifies this, writer, writer.sink
      ensures Valid() && !trailed
      ensures chunk.Some? ==> !ended && chunk.value != [] && yielded == old(yielded) + [chunk.value] && Left() < old(Left())
      ensures chunk.None? ==> yielded == old(yielded) && Left() <= old(Left()) && (ended || position == |source.batches|)
    {
      hide Sending;
      hide Covered;
      hide Replays;
      hide Interrupted;
      hide AllChunks;
      hide Body;
      hide Concat;
      while position < |source.batches|
        invariant Valid() && !ended && !trailed && yielded == old(yielded) && position >= old(position)
        decreases |source.batches| - position
      {
        var drained := WriteNext();
        if drained.None? {
          return None;
        }
        if drained.value != [] {
          return drained;
        }
      }
      return None;
    }

    /** One batch, written and drained, unless it is of another schema or beyond the cap. */
    method WriteNext() returns (drained: Option<Bytes>)
      requires Valid() && !ended && !trailed && maximum > 0 && position < |source.batches|
      modifies this, writer, writer.sink
      ensures Valid() && !trailed && (ended <==> drained.None?)
      ensures drained.None? ==> yielded == old(yielded)
      ensures drained.Some? ==> yielded == old(yielded) + Chunk(drained.value) && position == old(position) + 1
    {
      hide Sending;
      hide Covered;
      hide Replays;
      hide Interrupted;
      hide AllChunks;
      hide Body;
      hide Concat;
      hide Chunk;
      ghost var z := writer.serializer;
      SentSoFar(source, writer, yielded, position);
      if source.batches[position].schema != source.schema {
        StopsHere(z, source, position, maximum);
        writer.Close();
        ended := true;
        return None;
      }
      var bytes := SendBatch(source, writer, yielded, position);
      written := written + |bytes|;
      if written > maximum {
        StopsHere(z, source, position, maximum);
        SentSoFar(source, writer, yielded + Chunk(bytes), position + 1);
        writer.Close();
        ended := true;
        return None;
      }
      NextCovered(z, source, position, maximum);
      yielded := yielded + Chunk(bytes);
      position := position + 1;
      return Some(bytes);
    }

    /** The end of the stream, once all batches are out. */
    method Trailer() returns (chunk: Option<Bytes>)
      requires Valid() && !ended && !trailed && maximum > 0 && position == |source.batches|
      modifies this, writer, writer.sink
      ensures Valid()
      ensures chunk.Some? ==> !ended && chunk.value != [] && yielded == old(yielded) + [chunk.value] && Left() < old(Left())
      ensures chunk.None? ==> yielded == old(yielded) && (ended || trailed)
    {
      hide Sending;
      hide Covered;
      hide Replays;
      hide Interrupted;
      hide AllChunks;
      hide Serialized;
      hide Concat;
      EndDecides(writer.serializer, source, maximum);
      SentSoFar(source, writer, yielded, position);
      var drained := SendTrailer(source, writer, yielded);
      written := written + |drained|;
      if written > maximum {
        ended := true;
        return None;
      }
      trailed := true;
      yielded := yielded + Chunk(drained);
      if drained != [] {
        return Some(drained);
      }
      return None;
    }
  }

  lemma SentSoFar(source: Source, writer: StreamWriter, chunks: seq<Bytes>, i: nat)
    requires Sending(source, writer, chunks, i)
    ensures writer.Valid() && i <= |source.batches| && chunks == ChunksUpTo(writer.serializer, source, i)
  {
  }

  lemma NothingSent(source: Source, writer: StreamWriter)
    requires writer.Valid() && !writer.closed && writer.schema == source.schema
    requires writer.written == [] && writer.sink.drained == []
    ensures Sending(source, writer, [], 0) && |Concat([])| == 0
  {
    hide Body;
    hide Serialized;
  }

  lemma NothingCovered(z: Serializer, source: Source, maximum: int)
    ensures maximum > 0 ==> Covered(z, source, maximum, 0)
  {
    hide Body;
  }

  lemma NothingUnderNoCap(z: Serializer, source: Source, maximum: int)
    requires maximum <= 0
    ensures !Replays(z, source, maximum) && Interrupted(z, source, maximum, [])
  {
    assert StopsAt(z, source, maximum, 0) && ChunksUpTo(z, source, 0) == [];
  }

  lemma WithinCap(z: Serializer, source: Source, maximum: int, chunks: seq<Bytes>)
    requires (chunks == AllChunks(z, source) && Replays(z, source, maximum)) || Interrupted(z, source, maximum, chunks)
    ensures |Concat(chunks)| <= if maximum > 0 then maximum else 0
  {
    if chunks == AllChunks(z, source) && Replays(z, source, maximum) {
      ChunksAreTheSerialization(z, source);
    } else {
      var n: nat :| n <= |source.batches| && StopsAt(z, source, maximum, n) && chunks == ChunksUpTo(z, source, n);
      BatchChunksConcat(z, source.schema, source.batches[..n]);
    }
    hide BatchChunks;
    hide AllChunks;
    hide Body;
  }

  /** A whole replay. It completes exactly when the cap covers the serialization; otherwise it stops at
      the first batch, or the trailer, that the cap or the schema refuses. */
  method Replay(z: Serializer, source: Source, maximum: int) returns (chunks: seq<Bytes>, completed: bool)
    ensures completed <==> Replays(z, source, maximum)
    ensures completed ==> chunks == AllChunks(z, source)
    ensures !completed ==> Interrupted(z, source, maximum, chunks)
    ensures |Concat(chunks)| <= if maximum > 0 then maximum else 0
  {
    hide AllChunks;
    hide Interrupted;
    hide Replays;
    hide Sending;
    hide Covered;
    var generator := new IpcChunks(z, source, maximum);
    chunks := [];
    var chunk := generator.Next();
    while chunk.Some?
      invariant generator.Valid() && generator.writer.serializer == z && generator.source == source && generator.maximum == maximum
      invariant fresh(generator) && fresh(generator.writer) && fresh(generator.writer.sink)
      invariant generator.ended <==> chunk.None?
      invariant generator.yielded == if chunk.Some? then chunks + [chunk.value] else chunks
      decreases generator.Left(), chunk.Some?
    {
      chunks := chunks + [chunk.value];
      chunk := generator.Next();
    }
    completed := generator.trailed;
    WithinCap(z, source, maximum, chunks);
  }

  /** What was admitted under some limits is replayed in full under the same limit, and under any cap
      not below its size. */
  lemma ReplayNeverOverflows(z: Serializer, source: Source, limits: Limits, maximum: int)
    requires ValidLimits(limits) && Admissible(z, source, limits)
    ensures Replays(z, source, limits.arrowBytes)
    ensures Replays(z, source, maximum) <==> maximum > 0 && |Serialized(z, source)| <= maximum
  {
    hide CellsWithin;
  }
}
