/** From the driver's result tables to one admitted source, including the empty result whose schema
    only the connector's result batches know. */
module ResultFetch {
  import opened Wrappers
  import opened Arrow
  import opened ArrowAdmission

  datatype Table = Table(schema: Schema, rows: nat, batches: seq<Batch>)

  /** What an iterator or a conversion of the driver hands over. */
  datatype Handed = Handed(table: Table) | NotATable | DriverError

  /** A connector result batch: its row count, and what converting it gives. */
  datatype ResultBatch = ResultBatch(rowCount: int, converted: Handed)

  datatype Cursor = Cursor(tables: seq<Handed>, resultBatches: seq<ResultBatch>)

  /** The batches of the tables in order; a table of another schema ends the iteration with an error. */
  function RecordBatches(schema: Schema, tables: seq<Handed>): seq<Item> {
    if tables == [] then []
    else if !tables[0].Handed? || tables[0].table.schema != schema then [Raises]
    else Items(tables[0].table.batches) + RecordBatches(schema, tables[1..])
  }

  function Items(batches: seq<Batch>): seq<Item> {
    seq(|batches|, i requires 0 <= i < |batches| => Item(batches[i]))
  }

  function TableBatches(tables: seq<Handed>): seq<Batch> {
    if tables == [] then []
    else (if tables[0].Handed? then tables[0].table.batches else []) + TableBatches(tables[1..])
  }

  ghost predicate SameSchema(schema: Schema, tables: seq<Handed>) {
    forall t :: t in tables ==> t.Handed? && t.table.schema == schema
  }

  lemma {:induction false} RecordBatchesAre(schema: Schema, tables: seq<Handed>)
    ensures AllItems(RecordBatches(schema, tables)) <==> SameSchema(schema, tables)
    ensures SameSchema(schema, tables) ==> Batches(RecordBatches(schema, tables)) == TableBatches(tables)
  {
    if tables != [] {
      RecordBatchesAre(schema, tables[1..]);
      SameSchemaFirst(schema, tables);
      if tables[0].Handed? && tables[0].table.schema == schema {
        ItemsFirst(tables[0].table.batches, RecordBatches(schema, tables[1..]));
      } else {
        assert !RecordBatches(schema, tables)[0].Item?;
      }
      hide SameSchema;
      hide Batches;
      hide Items;
    }
  }

  lemma SameSchemaFirst(schema: Schema, tables: seq<Handed>)
    requires tables != []
    ensures SameSchema(schema, tables)
            <==> tables[0].Handed? && tables[0].table.schema == schema && SameSchema(schema, tables[1..])
  {
    assert tables == [tables[0]] + tables[1..];
  }

  lemma ItemsFirst(batches: seq<Batch>, rest: seq<Item>)
    ensures AllItems(Items(batches) + rest) <==> AllItems(rest)
    ensures AllItems(rest) ==> Batches(Items(batches) + rest) == batches + Batches(rest)
  {
    var all := Items(batches) + rest;
    assert forall i :: 0 <= i < |rest| ==> all[|batches| + i] == rest[i];
    assert forall i :: 0 <= i < |batches| ==> all[i] == Item(batches[i]);
  }

  /** The schema-bearing empty table, when every result batch says it has no rows. */
  function EmptyResultTable(cursor: Cursor): Option<Table> {
    var results := cursor.resultBatches;
    if results == [] || exists b :: b in results && b.rowCount != 0 then None
    else if !results[0].converted.Handed? || results[0].converted.table.rows != 0 then None
    else Some(results[0].converted.table)
  }

  /** The tables a result consists of. */
  function ResultTables(cursor: Cursor): seq<Handed> {
    if cursor.tables != [] then cursor.tables
    else match EmptyResultTable(cursor) case Some(table) => [Handed(table)] case None => []
  }

  lemma OneTable(table: Handed)
    ensures table.Handed? ==> TableBatches([table]) == table.table.batches && SameSchema(table.table.schema, [table])
  {
    assert [table][1..] == [];
  }

  /** The source is what this cursor's result amounts to: all its batches, of one schema and within the
      limits. */
  ghost predicate FetchedFrom(z: Serializer, cursor: Cursor, limits: Limits, source: Source) {
    var tables := ResultTables(cursor);
    && tables != [] && tables[0].Handed? && SameSchema(tables[0].table.schema, tables)
    && source == Source(tables[0].table.schema, TableBatches(tables))
    && Admissible(z, source, limits)
  }

  /** The batches of the tables, table after table: batch `b` of table `t` stands behind all batches of the
      tables before it. */
  lemma {:induction false} BatchInPlace(tables: seq<Handed>, t: nat, b: nat)
    requires t < |tables| && tables[t].Handed? && b < |tables[t].table.batches|
    ensures var k := |TableBatches(tables[..t])| + b;
            k < |TableBatches(tables)| && TableBatches(tables)[k] == tables[t].table.batches[b]
  {
    if t == 0 {
      assert tables[..0] == [];
    } else {
      assert tables[..t][1..] == tables[1..][..t - 1];
      BatchInPlace(tables[1..], t - 1, b);
    }
  }

  lemma {:induction false} BatchesCounted(tables: seq<Handed>, t: nat)
    requires t < |tables| && tables[t].Handed?
    ensures |TableBatches(tables[..t + 1])| == |TableBatches(tables[..t])| + |tables[t].table.batches|
    ensures tables[..0] == [] && TableBatches([]) == [] && tables[..|tables|] == tables
  {
    assert tables[..t + 1][0] == tables[0];
    if t > 0 {
      assert tables[..t + 1][1..] == tables[1..][..t] && tables[..t][1..] == tables[1..][..t - 1];
      BatchesCounted(tables[1..], t - 1);
    } else {
      assert tables[..1] == [tables[0]] && [tables[0]][1..] == [] && tables[..0] == [];
    }
  }

  /** A result is retained exactly when all its tables share one schema and their batches, taken
      together, are within the limits; nothing else is retained. When the driver iterates no table at all,
      that is the first result batch converted, and only if every result batch says it has no rows and the
      converted table agrees. */
  method FetchAdmittedResult(z: Serializer, cursor: Cursor, limits: Limits) returns (source: Option<Source>)
    requires ValidLimits(limits)
    ensures cursor.tables != [] ==>
              (source.Some? <==>
                && cursor.tables[0].Handed?
                && (forall t :: t in cursor.tables ==> t.Handed? && t.table.schema == cursor.tables[0].table.schema)
                && Admissible(z, Source(cursor.tables[0].table.schema, TableBatches(cursor.tables)), limits))
    ensures cursor.tables != [] && source.Some? ==>
              source.value == Source(cursor.tables[0].table.schema, TableBatches(cursor.tables))
    ensures cursor.tables == [] ==>
              (source.Some? <==>
                && cursor.resultBatches != []
                && (forall b :: b in cursor.resultBatches ==> b.rowCount == 0)
                && cursor.resultBatches[0].converted.Handed?
                && var table := cursor.resultBatches[0].converted.table;
                   table.rows == 0 && Admissible(z, Source(table.schema, table.batches), limits))
    ensures cursor.tables == [] && source.Some? ==>
              var table := cursor.resultBatches[0].converted.table; source.value == Source(table.schema, table.batches)
    ensures source.Some? <==>
              var tables := ResultTables(cursor);
              && tables != [] && tables[0].Handed? && SameSchema(tables[0].table.schema, tables)
              && Admissible(z, Source(tables[0].table.schema, TableBatches(tables)), limits)
    ensures source.Some? ==>
              source.value == Source(ResultTables(cursor)[0].table.schema, TableBatches(ResultTables(cursor)))
    ensures source.Some? ==> FetchedFrom(z, cursor, limits, source.value)
  {
    var first: Handed;
    var rest: seq<Handed>;
    if cursor.tables == [] {
      var empty := EmptyResultTable(cursor);
      if empty.None? {
        return None;
      }
      first, rest := Handed(empty.value), [];
    } else {
      first, rest := cursor.tables[0], cursor.tables[1..];
    }
    assert ResultTables(cursor) == [first] + rest;
    assert cursor.tables == [] ==> first == cursor.resultBatches[0].converted;
    if !first.Handed? {
      return None;
    }
    var schema := first.table.schema;
    var tables := [first] + rest;
    RecordBatchesAre(schema, tables);
    OneTable(first);
    hide TableBatches;
    hide RecordBatches;
    hide Admissible;
    source := AdmitRecordBatches(z, schema, RecordBatches(schema, tables), limits);
  }
}
