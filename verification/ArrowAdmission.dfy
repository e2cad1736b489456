/** Incremental admission of a result, and its later replay as bounded IPC chunks. Both drive the same
    stream writer over a sink that is drained after every batch. */
module ArrowAdmission {
  import opened Wrappers
  import opened Wire
  import opened Arrow
  import opened ArrowCells

  /** What an iterable of batches hands over next. */
  datatype Item = Item(batch: Batch) | Foreign | Raises

  class ChunkSink {
    var chunks: seq<Bytes>
    var position: nat
    var closed: bool
    ghost var drained: Bytes

    ghost predicate Valid()
      reads this
    {
      position == |Everything()|
    }

    /** All bytes ever written. */
    ghost function Everything(): Bytes
      reads this
    {
      drained + Concat(chunks)
    }

    constructor ()
      ensures Valid() && Everything() == [] && chunks == [] && drained == [] && !closed
    {
      chunks, position, closed, drained := [], 0, false, [];
    }

    method Write(data: Bytes) returns (count: nat)
      requires Valid()
      modifies this
      ensures Valid() && count == |data| && chunks == old(chunks) + [data]
      ensures Everything() == old(Everything()) + data
      ensures drained == old(drained) && closed == old(closed)
    {
      ConcatSnoc(chunks, data);
      Assoc(drained, Concat(chunks), data);
      chunks := chunks + [data];
      position := position + |data|;
      count := |data|;
    }

    method Tell() returns (length: nat)
      requires Valid()
      ensures length == |Everything()|
    {
      length := position;
    }

    method Close()
      modifies this
      ensures closed && chunks == old(chunks) && position == old(position) && drained == old(drained)
    {
      closed := true;
    }

    method Drain() returns (chunk: Bytes)
      requires Valid()
      modifies this
      ensures Valid() && Everything() == old(Everything()) && drained == Everything() && chunks == []
      ensures old(drained) + chunk == drained && closed == old(closed)
    {
      chunk := Concat(chunks);
      chunks := [];
      drained := drained + chunk;
    }
  }

  /** The IPC stream writer over a sink: the schema goes out first, the trailer when it is closed. */
  class StreamWriter {
    const serializer: Serializer
    const schema: Schema
    const sink: ChunkSink
    var written: seq<Batch>
    var closed: bool

    ghost predicate Valid()
      reads this, sink
    {
      && sink.Valid()
      && sink.Everything() == if closed then Serialized(serializer, Source(schema, written)) else Body(serializer, schema, written)
    }

    constructor (serializer: Serializer, sink: ChunkSink, schema: Schema)
      requires sink.Valid() && sink.Everything() == []
      modifies sink
      ensures Valid() && this.serializer == serializer && this.sink == sink && this.schema == schema
      ensures written == [] && !closed && sink.drained == old(sink.drained)
    {
      this.serializer, this.sink, this.schema, written, closed := serializer, sink, schema, [], false;
      new;
      Emit(sink, serializer.header(schema));
    }

    method WriteBatch(batch: Batch)
      requires Valid() && !closed
      modifies this, sink
      ensures Valid() && !closed && written == old(written) + [batch] && sink.drained == old(sink.drained)
    {
      TotalsSnoc(serializer, schema, written, batch);
      Emit(sink, serializer.message(schema, written, batch));
      written := written + [batch];
    }

    method Close()
      requires Valid()
      modifies this, sink
      ensures Valid() && closed && written == old(written) && sink.drained == old(sink.drained)
    {
      if !closed {
        Emit(sink, serializer.trailer(schema, written));
        closed := true;
      }
    }
  }

  method Emit(sink: ChunkSink, writes: seq<Bytes>)
    requires sink.Valid()
    modifies sink
    ensures sink.Valid() && sink.Everything() == old(sink.Everything()) + Concat(writes)
    ensures sink.drained == old(sink.drained)
  {
    var i := 0;
    while i < |writes|
      invariant 0 <= i <= |writes|
      invariant sink.Valid() && sink.drained == old(sink.drained)
      invariant sink.Everything() == old(sink.Everything()) + Concat(writes[..i])
    {
      ConcatSnoc(writes[..i], writes[i]);
      Assoc(old(sink.Everything()), Concat(writes[..i]), writes[i]);
      assert writes[..i + 1] == writes[..i] + [writes[i]];
      var count := sink.Write(writes[i]);
      i := i + 1;
    }
    assert writes[..i] == writes;
  }

  /** The checks a schema passes before anything is read. */
  method ValidateSchema(schema: Schema, limits: Limits) returns (ok: bool)
    ensures ok <==> |schema.fields| <= limits.columns && forall f :: f in schema.fields ==> f.dataType != Unsupported
    ensures ok <==> SchemaSupported(schema, limits)
  {
    if |schema.fields| > limits.columns {
      return false;
    }
    var i := 0;
    while i < |schema.fields|
      invariant 0 <= i <= |schema.fields|
      invariant forall f :: f in schema.fields[..i] ==> !CellWidth(f.dataType).Rejected?
    {
      if CellWidth(schema.fields[i].dataType).Rejected? {
        return false;
      }
      i := i + 1;
    }
    return true;
  }

  /** What one batch must satisfy besides the running totals. */
  ghost predicate Fitting(schema: Schema, limits: Limits, batch: Batch) {
    batch.schema == schema && CellsWithin(batch, limits.cellBytes)
  }

  class AdmissionState {
    const schema: Schema
    const limits: Limits
    const sink: ChunkSink
    const writer: StreamWriter
    var rows: nat
    var decodedBytes: nat
    var arrowBytes: nat
    var closed: bool

    ghost predicate Valid()
      reads this, sink, writer
    {
      && writer.sink == sink && writer.schema == schema && writer.Valid()
      && writer.closed == closed && arrowBytes == |sink.drained|
      && ValidLimits(limits)
    }

    /** No batch has been refused: the counters are the totals of what was written. */
    ghost predicate Current(batches: seq<Batch>)
      reads this, writer
    {
      writer.written == batches && rows == Rows(batches) && decodedBytes == DecodedBytes(batches)
    }

    ghost predicate Drained()
      reads sink
    {
      sink.drained == sink.Everything()
    }

    constructor (serializer: Serializer, schema: Schema, limits: Limits)
      requires ValidLimits(limits) && SchemaSupported(schema, limits)
      ensures Valid() && this.schema == schema && this.limits == limits && writer.serializer == serializer
      ensures !closed && Current([])
      ensures fresh(sink) && fresh(writer)
    {
      var chunkSink := new ChunkSink();
      var streamWriter := new StreamWriter(serializer, chunkSink, schema);
      this.schema, this.limits, sink, writer := schema, limits, chunkSink, streamWriter;
      rows, decodedBytes, arrowBytes, closed := 0, 0, 0, false;
    }

    /** One batch: the totals move on with it, and the bytes it adds come back, unless a limit, the
        schema or a cell refuses it. */
    method Admit(item: Item) returns (chunk: Option<Bytes>)
      requires Valid()
      modifies this, sink, writer
      ensures Valid() && closed == old(closed)
      ensures chunk.Some? <==>
                && !old(closed) && item.Item? && Fitting(schema, limits, item.batch)
                && old(rows) + item.batch.rows <= limits.rows
                && old(decodedBytes) + item.batch.decodedBytes <= limits.decodedBytes
                && |Body(writer.serializer, schema, old(writer.written) + [item.batch])| <= limits.arrowBytes
      ensures chunk.Some? ==>
                && writer.written == old(writer.written) + [item.batch]
                && (old(Current(writer.written)) ==> Current(writer.written))
                && Drained() && old(sink.drained) + chunk.value == sink.drained
      ensures old(closed) || !item.Item? || item.batch.schema != schema ==>
                && rows == old(rows) && decodedBytes == old(decodedBytes) && arrowBytes == old(arrowBytes)
                && writer.written == old(writer.written) && sink.drained == old(sink.drained)
    {
      hide CellsWithin;
      hide Measurable;
      hide IsLargestCell;
      hide Rows;
      hide DecodedBytes;
      hide Body;
      hide Serialized;
      hide Concat;
      if closed || !item.Item? {
        return None;
      }
      var batch := item.batch;
      if batch.schema != schema {
        return None;
      }
      rows := rows + batch.rows;
      decodedBytes := decodedBytes + batch.decodedBytes;
      if rows > limits.rows || decodedBytes > limits.decodedBytes {
        return None;
      }
      var largest := MaximumCellBytes(batch);
      LargestDecides(batch, largest, limits.cellBytes);
      if largest.None? || largest.value > limits.cellBytes {
        return None;
      }
      TotalsSnoc(writer.serializer, schema, writer.written, batch);
      writer.WriteBatch(batch);
      chunk := DrainWithinLimit();
    }

    method Finish() returns (chunk: Option<Bytes>)
      requires Valid()
      modifies this, sink, writer
      ensures Valid() && closed
      ensures writer.written == old(writer.written) && rows == old(rows) && decodedBytes == old(decodedBytes)
      ensures old(closed) ==> sink.drained == old(sink.drained)
      ensures chunk.Some? <==>
                !old(closed) && |Serialized(writer.serializer, Source(schema, old(writer.written)))| <= limits.arrowBytes
      ensures chunk.Some? ==> Drained() && old(sink.drained) + chunk.value == sink.drained
    {
      if closed {
        return None;
      }
      writer.Close();
      closed := true;
      hide Serialized;
      chunk := DrainWithinLimit();
    }

    method Close()
      requires Valid()
      modifies this, sink, writer
      ensures Valid() && closed && writer.written == old(writer.written) && sink.drained == old(sink.drained)
      ensures rows == old(rows) && decodedBytes == old(decodedBytes) && arrowBytes == old(arrowBytes)
    {
      if !closed {
        closed := true;
        writer.Close();
      }
    }

    method DrainWithinLimit() returns (chunk: Option<Bytes>)
      requires Valid()
      modifies this`arrowBytes, sink
      ensures Valid() && Drained() && sink.Everything() == old(sink.Everything())
      ensures chunk.Some? <==> |sink.Everything()| <= limits.arrowBytes
      ensures chunk.Some? ==> old(sink.drained) + chunk.value == sink.drained
    {
      var drained := sink.Drain();
      arrowBytes := arrowBytes + |drained|;
      if arrowBytes > limits.arrowBytes {
        return None;
      }
      return Some(drained);
    }
  }

  function Batches(items: seq<Item>): seq<Batch>
    requires forall i :: 0 <= i < |items| ==> items[i].Item?
  {
    seq(|items|, i requires 0 <= i < |items| => items[i].batch)
  }

  ghost predicate AllItems(items: seq<Item>) {
    forall i :: 0 <= i < |items| ==> items[i].Item?
  }

  /** The items so far are batches, and nothing but the size of their serialization can refuse them. */
  ghost predicate Accepted(schema: Schema, limits: Limits, items: seq<Item>) {
    && AllItems(items)
    && (forall b :: b in Batches(items) ==> Fitting(schema, limits, b))
    && Rows(Batches(items)) <= limits.rows
    && DecodedBytes(Batches(items)) <= limits.decodedBytes
  }

  lemma BatchesSnoc(items: seq<Item>, i: nat)
    requires i < |items| && AllItems(items[..i]) && items[i].Item?
    ensures AllItems(items[..i + 1])
    ensures Batches(items[..i + 1]) == Batches(items[..i]) + [items[i].batch]
  {
  }

  lemma AcceptedSnoc(serializer: Serializer, schema: Schema, limits: Limits, items: seq<Item>, i: nat)
    requires i < |items| && Accepted(schema, limits, items[..i])
    requires items[i].Item? && Fitting(schema, limits, items[i].batch)
    requires Rows(Batches(items[..i])) + items[i].batch.rows <= limits.rows
    requires DecodedBytes(Batches(items[..i])) + items[i].batch.decodedBytes <= limits.decodedBytes
    ensures Accepted(schema, limits, items[..i + 1])
  {
    BatchesSnoc(items, i);
    TotalsSnoc(serializer, schema, Batches(items[..i]), items[i].batch);
    hide Fitting;
    hide Rows;
    hide DecodedBytes;
    hide Batches;
  }

  /** A batch the running totals refuse makes the whole result inadmissible. */
  lemma RefusedBatch(serializer: Serializer, schema: Schema, items: seq<Item>, limits: Limits, i: nat)
    requires i < |items| && AllItems(items)
    requires var front := Batches(items[..i]);
             || !Fitting(schema, limits, items[i].batch)
             || Rows(front) + items[i].batch.rows > limits.rows
             || DecodedBytes(front) + items[i].batch.decodedBytes > limits.decodedBytes
             || |Body(serializer, schema, front + [items[i].batch])| > limits.arrowBytes
    ensures !Admissible(serializer, Source(schema, Batches(items)), limits)
  {
    var batches, front := Batches(items), Batches(items[..i]);
    assert batches[..i + 1] == front + [batches[i]];
    assert batches[i] in batches;
    TotalsSnoc(serializer, schema, front, batches[i]);
    TotalsGrow(serializer, schema, batches, i + 1);
    hide Rows;
    hide DecodedBytes;
    hide Body;
    hide CellsWithin;
  }

  /** A result is admitted exactly when it is within the limits as a whole, and it is then retained
      batch for batch. */
  method AdmitRecordBatches(serializer: Serializer, schema: Schema, items: seq<Item>, limits: Limits)
    returns (source: Option<Source>)
    requires ValidLimits(limits)
    ensures source.Some? <==> AllItems(items) && Admissible(serializer, Source(schema, Batches(items)), limits)
    ensures source.Some? ==> source.value == Source(schema, Batches(items))
  {
    hide Fitting;
    hide Rows;
    hide DecodedBytes;
    hide Body;
    hide Serialized;
    hide SchemaSupported;
    hide Batches;
    hide Admissible;
    var ok := ValidateSchema(schema, limits);
    if !ok {
      UnsupportedRefuses(serializer, schema, limits, items);
      return None;
    }
    NothingRead(schema, limits, items);
    var state := new AdmissionState(serializer, schema, limits);
    var admitted: seq<Batch> := [];
    var i := 0;
    while i < |items|
      invariant 0 <= i <= |items|
      invariant fresh(state) && fresh(state.sink) && fresh(state.writer)
      invariant state.Valid() && !state.closed && state.Current(admitted)
      invariant state.schema == schema && state.limits == limits && state.writer.serializer == serializer
      invariant Accepted(schema, limits, items[..i]) && admitted == Batches(items[..i])
    {
      var chunk := state.Admit(items[i]);
      if chunk.None? {
        state.Close();
        if AllItems(items) {
          RefusedBatch(serializer, schema, items, limits, i);
        }
        return None;
      }
      BatchesSnoc(items, i);
      AcceptedSnoc(serializer, schema, limits, items, i);
      admitted := admitted + [items[i].batch];
      i := i + 1;
    }
    assert items[..i] == items;
    OnlySizeDecides(serializer, schema, limits, items);
    var chunk := state.Finish();
    if chunk.None? {
      state.Close();
      return None;
    }
    return Some(Source(schema, admitted));
  }

  /** The first check alone can refuse the whole result. */
  lemma UnsupportedRefuses(serializer: Serializer, schema: Schema, limits: Limits, items: seq<Item>)
    requires !SchemaSupported(schema, limits)
    ensures AllItems(items) ==> !Admissible(serializer, Source(schema, Batches(items)), limits)
  {
    hide SchemaSupported;
    hide CellsWithin;
    hide Rows;
    hide DecodedBytes;
    hide Serialized;
  }

  lemma NothingRead(schema: Schema, limits: Limits, items: seq<Item>)
    requires ValidLimits(limits)
    ensures Accepted(schema, limits, items[..0]) && Batches(items[..0]) == []
  {
  }

  lemma OnlySizeDecides(serializer: Serializer, schema: Schema, limits: Limits, items: seq<Item>)
    requires Accepted(schema, limits, items) && SchemaSupported(schema, limits)
    ensures Admissible(serializer, Source(schema, Batches(items)), limits)
            <==> |Serialized(serializer, Source(schema, Batches(items)))| <= limits.arrowBytes
  {
    hide CellsWithin;
  }
}
