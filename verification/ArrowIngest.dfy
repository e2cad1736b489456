/** The viewer's table sink: decoded batches go into a pending table, created by the first insert, and
    the table is published under its final name only when the whole ingestion has succeeded. */
module ArrowIngest {
  import opened Wrappers
  import opened Wire
  import opened Arrow

  datatype TableData = TableData(schema: Schema, batches: seq<Batch>)

  /** What the IPC reader makes of a byte stream: the batches it yields and whether it then ends
      normally. */
  datatype Decoded = Decoded(schema: Schema, batches: seq<Batch>, intact: bool)

  type Decoder = Bytes -> Option<Decoded>

  function Grown(tables: map<string, TableData>, name: string, part: TableData): map<string, TableData> {
    tables[name := if name in tables then TableData(tables[name].schema, tables[name].batches + part.batches) else part]
  }

  /** The database connection. Any call may fail, as `accepts` decides, and then changes nothing. */
  class Connection {
    const accepts: nat -> bool
    var uses: nat
    var tables: map<string, TableData>

    constructor (accepts: nat -> bool, tables: map<string, TableData>)
      ensures this.accepts == accepts && uses == 0 && this.tables == tables
    {
      this.accepts, uses, this.tables := accepts, 0, tables;
    }

    method InsertArrowFromIpcStream(part: TableData, name: string, create: bool) returns (ok: bool)
      modifies this
      ensures ok <==> accepts(old(uses)) && (create <==> name !in old(tables))
      ensures uses == old(uses) + 1
      ensures tables == if ok then Grown(old(tables), name, part) else old(tables)
    {
      ok := accepts(uses) && create == (name !in tables);
      uses := uses + 1;
      if ok {
        tables := Grown(tables, name, part);
      }
    }

    method RenameTable(from: string, to: string) returns (ok: bool)
      modifies this
      ensures ok <==> accepts(old(uses)) && from in old(tables) && to !in old(tables)
      ensures uses == old(uses) + 1
      ensures tables == if ok then old(tables)[to := old(tables)[from]] - {from} else old(tables)
    {
      ok := accepts(uses) && from in tables && to !in tables;
      uses := uses + 1;
      if ok {
        tables := tables[to := tables[from]] - {from};
      }
    }
  }

  /** The table a complete ingestion leaves: every batch once and in order, or the bare schema. */
  function Ingested(decoded: Decoded): TableData {
    TableData(if decoded.batches == [] then decoded.schema else decoded.batches[0].schema, decoded.batches)
  }

  function Inserts(decoded: Decoded): nat {
    if decoded.batches == [] then 1 else |decoded.batches|
  }

  ghost predicate Accepting(accepts: nat -> bool, first: nat, count: nat) {
    forall k: nat :: first <= k < first + count ==> accepts(k)
  }

  /** The batches a reader can already yield from the bytes so far. */
  type Preview = Bytes -> seq<Batch>

  /** A reader yields early only what it yields in the end. */
  ghost predicate Incremental(decode: Decoder, available: Preview) {
    && (forall bytes, more :: bytes <= more ==> available(bytes) <= available(more))
    && (forall bytes ::
          match decode(bytes)
          case Some(decoded) => available(bytes) <= decoded.batches
          case None => available(bytes) == [])
  }

  /** The tables once these batches are in the pending one. */
  function Filled(before: map<string, TableData>, name: string, batches: seq<Batch>): map<string, TableData> {
    if batches == [] then before else before[name := TableData(batches[0].schema, batches)]
  }

  class IncrementalArrowSink {
    const connection: Connection
    const pendingTable: string
    const publishedTable: string
    const decode: Decoder
    const available: Preview
    const writable: nat -> bool   // whether the stream takes each chunk
    const pace: nat -> nat        // how many more batches are ingested while it does
    var chunks: seq<Bytes>
    var inserted: nat             // batches ingested
    var failed: bool              // the ingestion has ended with an error
    ghost const before: map<string, TableData>
    ghost const first: nat

    /** The ingestion has put the first of these batches, in order, into the pending table and touched no
        other; if it has ended early, the table was there before or the next insert failed. */
    ghost predicate Loaded(batches: seq<Batch>)
      reads this, connection
    {
      && inserted <= |batches| && (inserted > 0 ==> pendingTable !in before)
      && connection.tables == Filled(before, pendingTable, batches[..inserted])
      && connection.uses == first + inserted + (if failed then 1 else 0)
      && Accepting(connection.accepts, first, inserted)
      && (failed ==> inserted < |batches| && (pendingTable in before || !connection.accepts(first + inserted)))
    }

    ghost predicate Valid()
      reads this, connection
    {
      Incremental(decode, available) && pendingTable != publishedTable && Loaded(available(Concat(chunks)))
    }

    /** Nothing has been written or ingested yet. */
    ghost predicate Fresh()
      reads this, connection
    {
      Valid() && chunks == [] && inserted == 0 && !failed && before == connection.tables && first == connection.uses
    }

    constructor (connection: Connection, pendingTable: string, publishedTable: string, decode: Decoder, available: Preview,
                 writable: nat -> bool, pace: nat -> nat)
      requires Incremental(decode, available) && pendingTable != publishedTable
      ensures this.connection == connection && this.pendingTable == pendingTable && this.publishedTable == publishedTable
      ensures this.decode == decode && this.available == available && this.writable == writable && this.pace == pace
      ensures Fresh()
    {
      this.connection, this.pendingTable, this.publishedTable := connection, pendingTable, publishedTable;
      this.decode, this.available, this.writable, this.pace := decode, available, writable, pace;
      chunks, inserted, failed := [], 0, false;
      before, first := connection.tables, connection.uses;
    }

    /** Writes one chunk; meanwhile the ingestion goes on as far as it happens to get. */
    method Insert(chunk: Bytes) returns (ok: bool)
      requires Valid()
      modifies this, connection
      ensures Valid()
      ensures ok <==> writable(|old(chunks)|)
      ensures chunks == if ok then old(chunks) + [chunk] else old(chunks)
    {
      ok := writable(|chunks|);
      if ok {
        MoreIsAvailable(decode, available, chunks, chunk);
        LoadedOfMore(available(Concat(chunks)), available(Concat(chunks + [chunk])));
        hide Concat;
        hide Incremental;
        hide Loaded;
        ghost var ready := available(Concat(chunks + [chunk]));
        chunks := chunks + [chunk];
        assert Loaded(ready);
        Ingest(available(Concat(chunks)), pace(|chunks|));
      }
    }

    lemma LoadedOfMore(batches: seq<Batch>, more: seq<Batch>)
      requires Loaded(batches) && batches <= more
      ensures Loaded(more)
    {
      assert batches[..inserted] == more[..inserted];
    }

    /** The ingestion loop over batches that are ready, for at most `count` more of them. */
    method Ingest(batches: seq<Batch>, count: nat)
      requires Loaded(batches)
      modifies this`inserted, this`failed, connection
      ensures Loaded(batches) && inserted >= old(inserted)
      ensures count >= |batches| ==> failed || inserted == |batches|
    {
      assert inserted <= |batches|;
      hide Loaded;
      var left := count;
      while left > 0 && !failed && inserted < |batches|
        invariant Loaded(batches) && inserted >= old(inserted) && left >= 0
        invariant count >= |batches| && !failed ==> left >= |batches| - inserted
        invariant inserted <= |batches|
      {
        IngestNext(batches);
        left := left - 1;
      }
    }

    /** One turn of the loop: the first insert creates the table. */
    method IngestNext(batches: seq<Batch>)
      requires Loaded(batches) && !failed && inserted < |batches|
      modifies this`inserted, this`failed, connection
      ensures Loaded(batches)
      ensures inserted == if failed then old(inserted) else old(inserted) + 1
    {
      ghost var k := inserted;
      var part := TableData(batches[inserted].schema, [batches[inserted]]);
      var ok := connection.InsertArrowFromIpcStream(part, pendingTable, inserted == 0);
      if ok {
        NextFilled(before, pendingTable, batches, k);
        inserted := inserted + 1;
      } else {
        failed := true;
      }
    }

    /** Everything publication of these chunks needs from their bytes and from the database as it was. */
    ghost predicate Publishable(received: seq<Bytes>)
      reads this, connection
    {
      var decoded := decode(Concat(received));
      && decoded.Some? && decoded.value.intact
      && pendingTable !in before && publishedTable !in before
      && Accepting(connection.accepts, first, Inserts(decoded.value) + 1)
    }

    /** The end of the stream: the ingestion runs to its end, and only if it succeeds is the table
        published. It is published whole or not at all, whatever was ingested before. */
    method Publish() returns (ok: bool)
      requires Valid()
      modifies this`inserted, this`failed, connection
      ensures ok <==> Publishable(chunks)
      ensures ok <==>
                var decoded := decode(Concat(chunks));
                && decoded.Some? && decoded.value.intact && pendingTable !in before && publishedTable !in before
                && var inserts := if decoded.value.batches == [] then 1 else |decoded.value.batches|;
                   forall k: nat :: first <= k <= first + inserts ==> connection.accepts(k)
      ensures ok ==> connection.tables == before[publishedTable := Ingested(decode(Concat(chunks)).value)]
      ensures !ok ==> connection.tables - {pendingTable} == before - {pendingTable}
    {
      hide Concat;
      var decoded := decode(Concat(chunks));
      var succeeded := FinishIngestion(decoded);
      if !succeeded {
        return false;
      }
      ghost var n := Inserts(decoded.value);
      ok := connection.RenameTable(pendingTable, publishedTable);
      if ok {
        assert connection.tables == before[publishedTable := Ingested(decoded.value)];
      } else {
        assert publishedTable in before || !connection.accepts(first + n);
      }
    }

    /** The rest of the ingestion, once all bytes are in: the batches not yet ingested, the reader's own
        ending, and the bare schema of a result without batches. */
    method FinishIngestion(decoded: Option<Decoded>) returns (succeeded: bool)
      requires Valid() && decoded == decode(Concat(chunks))
      modifies this`inserted, this`failed, connection
      ensures succeeded <==>
                && decoded.Some? && decoded.value.intact && pendingTable !in before
                && Accepting(connection.accepts, first, Inserts(decoded.value))
      ensures succeeded ==>
                && connection.tables == before[pendingTable := Ingested(decoded.value)]
                && connection.uses == first + Inserts(decoded.value)
      ensures connection.tables - {pendingTable} == before - {pendingTable}
      ensures pendingTable !in before && pendingTable in connection.tables ==>
                decoded.Some? && connection.tables[pendingTable].batches <= decoded.value.batches
    {
      if decoded.None? {
        return false;
      }
      var batches := decoded.value.batches;
      LoadedOfMore(available(Concat(chunks)), batches);
      hide Concat;
      hide Incremental;
      Ingest(batches, |batches|);
      assert batches[..|batches|] == batches;
      if failed || !decoded.value.intact {
        return false;
      }
      if inserted == 0 {
        var ok := connection.InsertArrowFromIpcStream(TableData(decoded.value.schema, []), pendingTable, true);
        return ok;
      }
      return true;
    }
  }

  lemma MoreIsAvailable(decode: Decoder, available: Preview, chunks: seq<Bytes>, chunk: Bytes)
    requires Incremental(decode, available)
    ensures available(Concat(chunks)) <= available(Concat(chunks + [chunk]))
  {
    ConcatSnoc(chunks, chunk);
    assert Concat(chunks) <= Concat(chunks + [chunk]);
  }

  lemma NextFilled(before: map<string, TableData>, name: string, batches: seq<Batch>, k: nat)
    requires k < |batches| && (k > 0 ==> name !in before) && (k == 0 ==> name !in before)
    ensures Grown(Filled(before, name, batches[..k]), name, TableData(batches[k].schema, [batches[k]]))
            == Filled(before, name, batches[..k + 1])
  {
    assert batches[..k + 1] == batches[..k] + [batches[k]];
    var filled, part := Filled(before, name, batches[..k]), TableData(batches[k].schema, [batches[k]]);
    assert Grown(filled, name, part)[name] == TableData(batches[0].schema, batches[..k + 1]);
    assert Grown(filled, name, part) == before[name := TableData(batches[0].schema, batches[..k + 1])];
  }
}
