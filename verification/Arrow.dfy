/** Arrow record batches as the admission code sees them, and what it means for a whole result to be
    within the limits, stated without reference to the order in which anything is checked. */
module Arrow {
  import opened Wrappers
  import opened Wire

  datatype DataType =
    | Null
    | Boolean
    | Variable(large: bool)       // binary and string, with 4-byte or 8-byte offsets
    | FixedSizeBinary(bytes: nat)
    | Primitive(bits: nat)        // integer, floating, decimal, date, time, timestamp, duration
    | Unsupported                 // lists, structs, maps, unions, dictionaries and the rest

  datatype Field = Field(name: string, dataType: DataType, nullable: bool, metadata: map<string, string>)

  /** Schemas compare with their metadata. */
  datatype Schema = Schema(fields: seq<Field>, metadata: map<string, string>)

  /** A slice of an array: `length` cells from cell `offset` on, over an offsets buffer if it has one. */
  datatype Column = Column(dataType: DataType, offset: nat, length: nat, offsets: Option<Bytes>)

  /** `identity` stands for the values, which admission never looks at. */
  datatype Batch = Batch(schema: Schema, rows: nat, decodedBytes: nat, columns: seq<Column>, identity: int)

  datatype Limits = Limits(rows: int, columns: int, cellBytes: int, arrowBytes: int, decodedBytes: int)

  datatype Source = Source(schema: Schema, batches: seq<Batch>)

  predicate ValidLimits(limits: Limits) {
    && limits.rows > 0 && limits.columns > 0 && limits.cellBytes > 0
    && limits.arrowBytes > 0 && limits.decodedBytes > 0
  }

  // ----- cells -----

  datatype Width = Fixed(bytes: nat) | Measured | Rejected

  function CellWidth(dataType: DataType): Width {
    match dataType
    case Null => Fixed(0)
    case Boolean => Fixed(1)
    case Variable(_) => Measured
    case FixedSizeBinary(bytes) => Fixed(bytes)
    case Primitive(bits) => Fixed((bits + 7) / 8)
    case Unsupported => Rejected
  }

  function LittleEndian(bs: Bytes): nat {
    if bs == [] then 0 else bs[0] as nat + 256 * LittleEndian(bs[1..])
  }

  /** Two's complement, least significant byte first. */
  function SignedLittleEndian(bs: Bytes): int {
    var n := LittleEndian(bs);
    if 2 * n < Pow256(|bs|) then n else n - Pow256(|bs|)
  }

  function OffsetWidth(dataType: DataType): nat {
    if dataType == Variable(true) then 8 else 4
  }

  /** One entry of an offsets buffer, if the buffer is long enough to hold it. */
  function OffsetAt(offsets: Bytes, width: nat, index: nat): Option<int> {
    if (index + 1) * width <= |offsets| then Some(SignedLittleEndian(offsets[index * width..(index + 1) * width]))
    else None
  }

  /** The length of one variable-width cell: the distance between its two offsets. */
  function CellLength(column: Column, index: nat): Option<nat> {
    if column.offsets.None? then None
    else
      var width := OffsetWidth(column.dataType);
      var start, end := OffsetAt(column.offsets.value, width, index), OffsetAt(column.offsets.value, width, index + 1);
      if start.Some? && end.Some? && start.value <= end.value then Some(end.value - start.value) else None
  }

  predicate InSlice(column: Column, index: int) {
    column.offset <= index < column.offset + column.length
  }

  /** Every cell of the column has a length. */
  ghost predicate Measurable(column: Column) {
    && !CellWidth(column.dataType).Rejected?
    && (CellWidth(column.dataType).Measured? ==> forall k: nat :: InSlice(column, k) ==> CellLength(column, k).Some?)
  }

  /** The column holds a cell of that many bytes; a fixed-width column counts even when it is empty. */
  ghost predicate HasCell(column: Column, bytes: nat) {
    match CellWidth(column.dataType)
    case Fixed(width) => bytes == width
    case Measured => exists k: nat :: InSlice(column, k) && CellLength(column, k) == Some(bytes)
    case Rejected => false
  }

  ghost predicate CellsWithin(batch: Batch, limit: int) {
    forall c :: c in batch.columns ==> Measurable(c) && forall bytes: nat :: HasCell(c, bytes) ==> bytes <= limit
  }

  /** `bytes` is the size of the largest cell, or zero when there is none. */
  ghost predicate IsLargestCell(columns: seq<Column>, bytes: nat) {
    && (forall c, b: nat :: c in columns && HasCell(c, b) ==> b <= bytes)
    && (bytes == 0 || exists c :: c in columns && HasCell(c, bytes))
  }

  // ----- totals -----

  function Rows(batches: seq<Batch>): nat {
    if batches == [] then 0 else Rows(batches[..|batches| - 1]) + batches[|batches| - 1].rows
  }

  function DecodedBytes(batches: seq<Batch>): nat {
    if batches == [] then 0 else DecodedBytes(batches[..|batches| - 1]) + batches[|batches| - 1].decodedBytes
  }

  // ----- serialization -----

  /** A deterministic incremental IPC stream writer, as the writes it issues: for the schema, for each
      batch given the batches before it, and for the end of the stream. */
  datatype Serializer = Serializer(
    header: Schema -> seq<Bytes>,
    message: (Schema, seq<Batch>, Batch) -> seq<Bytes>,
    trailer: (Schema, seq<Batch>) -> seq<Bytes>)

  /** Everything written once these batches are in. */
  function Body(z: Serializer, schema: Schema, batches: seq<Batch>): Bytes {
    if batches == [] then Concat(z.header(schema))
    else
      var front, last := batches[..|batches| - 1], batches[|batches| - 1];
      Body(z, schema, front) + Concat(z.message(schema, front, last))
  }

  function Serialized(z: Serializer, source: Source): Bytes {
    Body(z, source.schema, source.batches) + Concat(z.trailer(source.schema, source.batches))
  }

  // ----- a whole result within the limits -----

  ghost predicate SchemaSupported(schema: Schema, limits: Limits) {
    && |schema.fields| <= limits.columns
    && forall f :: f in schema.fields ==> !CellWidth(f.dataType).Rejected?
  }

  ghost predicate Admissible(z: Serializer, source: Source, limits: Limits) {
    && SchemaSupported(source.schema, limits)
    && (forall b :: b in source.batches ==> b.schema == source.schema && CellsWithin(b, limits.cellBytes))
    && Rows(source.batches) <= limits.rows
    && DecodedBytes(source.batches) <= limits.decodedBytes
    && |Serialized(z, source)| <= limits.arrowBytes
  }

  lemma TotalsSnoc(z: Serializer, schema: Schema, front: seq<Batch>, last: Batch)
    ensures Rows(front + [last]) == Rows(front) + last.rows
    ensures DecodedBytes(front + [last]) == DecodedBytes(front) + last.decodedBytes
    ensures Body(z, schema, front + [last]) == Body(z, schema, front) + Concat(z.message(schema, front, last))
  {
    assert (front + [last])[..|front|] == front;
  }

  /** Totals only grow along a result. */
  lemma {:induction false} TotalsGrow(z: Serializer, schema: Schema, batches: seq<Batch>, n: nat)
    requires n <= |batches|
    ensures Rows(batches[..n]) <= Rows(batches)
    ensures DecodedBytes(batches[..n]) <= DecodedBytes(batches)
    ensures Body(z, schema, batches[..n]) <= Body(z, schema, batches)
  {
    if n < |batches| {
      var front := batches[..|batches| - 1];
      TotalsGrow(z, schema, front, n);
      assert front[..n] == batches[..n];
      PrefixThrough(Body(z, schema, batches[..n]), Body(z, schema, front), Body(z, schema, batches));
    } else {
      assert batches[..n] == batches;
    }
  }

  lemma PrefixThrough(a: Bytes, b: Bytes, c: Bytes)
    requires a <= b && b <= c
    ensures a <= c
  {
  }
}
