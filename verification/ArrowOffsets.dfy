/** The offsets buffer of the variable-size binary layout, written out: a buffer holding the offsets
    of a column is measured as the differences of those offsets. */
module ArrowOffsets {
  import opened Wrappers
  import opened Wire
  import opened Arrow

  /** Reading an offset is the inverse of writing it in two's complement. */
  function LittleEndianBytes(n: nat, width: nat): (bs: Bytes)
    ensures |bs| == width
  {
    if width == 0 then [] else [(n % 256) as byte] + LittleEndianBytes(n / 256, width - 1)
  }

  function TwosComplement(n: int, width: nat): (bs: Bytes)
    requires Representable(n, width)
    ensures |bs| == width
  {
    LittleEndianBytes(if n < 0 then n + Pow256(width) else n, width)
  }

  lemma {:induction false} ReadLittleEndian(n: nat, width: nat)
    requires n < Pow256(width)
    ensures LittleEndian(LittleEndianBytes(n, width)) == n
  {
    if width > 0 {
      ReadLittleEndian(n / 256, width - 1);
      assert LittleEndianBytes(n, width)[1..] == LittleEndianBytes(n / 256, width - 1);
    }
  }

  lemma ReadsWhatWasWritten(n: int, width: nat)
    requires Representable(n, width)
    ensures SignedLittleEndian(TwosComplement(n, width)) == n
  {
    ReadLittleEndian(if n < 0 then n + Pow256(width) else n, width);
  }

  predicate Representable(n: int, width: nat) {
    0 <= 2 * n + Pow256(width) < 2 * Pow256(width)
  }

  /** The offsets buffer of the layout. */
  function OffsetsBuffer(values: seq<int>, width: nat): (bs: Bytes)
    requires forall i :: 0 <= i < |values| ==> Representable(values[i], width)
    ensures |bs| == |values| * width
  {
    if values == [] then []
    else OffsetsBuffer(values[..|values| - 1], width) + TwosComplement(values[|values| - 1], width)
  }

  lemma {:induction false} ReadsEachOffset(values: seq<int>, width: nat, k: nat)
    requires width > 0 && forall i :: 0 <= i < |values| ==> Representable(values[i], width)
    ensures OffsetAt(OffsetsBuffer(values, width), width, k) == if k < |values| then Some(values[k]) else None
  {
    if k < |values| {
      var front, last := values[..|values| - 1], values[|values| - 1];
      var written := OffsetsBuffer(front, width);
      Multiples(k, |front|, width);
      if k == |front| {
        ReadsWhatWasWritten(last, width);
        assert OffsetsBuffer(values, width)[k * width..(k + 1) * width] == TwosComplement(last, width);
      } else {
        ReadsEachOffset(front, width, k);
        assert OffsetsBuffer(values, width)[k * width..(k + 1) * width] == written[k * width..(k + 1) * width];
      }
    } else {
      Multiples(|values|, k, width);
    }
  }

  lemma Multiples(a: nat, b: nat, width: nat)
    requires a <= b
    ensures a * width <= b * width
    ensures (a + 1) * width == a * width + width
    ensures (b + 1) * width == b * width + width
    ensures a < b ==> (a + 1) * width <= b * width
  {
    assert (b - a) * width >= 0;
    if a < b {
      assert (b - a - 1) * width >= 0;
    }
  }

  /** The column's offsets buffer holds these values, each in 8 bytes for the large types and in 4 otherwise. */
  predicate LaidOut(column: Column, values: seq<int>) {
    var width: nat := if column.dataType == Variable(true) then 8 else 4;
    && (forall i :: 0 <= i < |values| ==> Representable(values[i], width))
    && column.offsets == Some(OffsetsBuffer(values, width))
    && column.offset + column.length < |values|
  }

  lemma LayoutCell(column: Column, values: seq<int>, k: nat)
    requires LaidOut(column, values) && InSlice(column, k)
    ensures CellLength(column, k) == if values[k] <= values[k + 1] then Some(values[k + 1] - values[k]) else None
  {
    ReadsEachOffset(values, OffsetWidth(column.dataType), k);
    ReadsEachOffset(values, OffsetWidth(column.dataType), k + 1);
    hide OffsetsBuffer;
    hide OffsetAt;
    hide Representable;
  }

  /** The distance between the two offsets of a cell. */
  function Gap(values: seq<int>, k: nat): int
    requires k + 1 < |values|
  {
    values[k + 1] - values[k]
  }

  /** A column laid out over these offsets can be measured exactly when they never decrease inside the
      slice, and its cells are then their differences. */
  lemma LayoutCells(column: Column, values: seq<int>)
    requires LaidOut(column, values) && CellWidth(column.dataType).Measured?
    ensures Measurable(column) <==> forall k: nat :: InSlice(column, k) ==> Gap(values, k) >= 0
    ensures forall bytes: nat :: HasCell(column, bytes) <==> exists k: nat :: InSlice(column, k) && Gap(values, k) == bytes
  {
    hide CellLength;
    forall k: nat | InSlice(column, k)
      ensures CellLength(column, k) == if Gap(values, k) >= 0 then Some(Gap(values, k)) else None
    {
      LayoutCell(column, values, k);
    }
  }

  /** No cell of the column is larger than the limit, type by type: a boolean takes a byte, a fixed-width
      value the least number of bytes that holds its bits, a variable-width cell the distance between its
      offsets, which may not decrease; a column of an unsupported type fits no limit. */
  predicate CellsFit(column: Column, values: seq<int>, limit: int)
    requires column.dataType.Variable? ==> LaidOut(column, values)
  {
    match column.dataType
    case Null => limit >= 0
    case Boolean => limit >= 1
    case FixedSizeBinary(bytes) => bytes <= limit
    case Primitive(bits) => bits <= 8 * limit
    case Variable(_) =>
      forall k: nat :: column.offset <= k < column.offset + column.length ==> 0 <= values[k + 1] - values[k] <= limit
    case Unsupported => false
  }

  /** What the cell check of admission decides, of the types and the offsets themselves. */
  lemma CellsWithinIff(batch: Batch, layout: seq<seq<int>>, limit: int)
    requires limit >= 0 && |layout| == |batch.columns|
    requires forall i :: 0 <= i < |layout| && batch.columns[i].dataType.Variable? ==> LaidOut(batch.columns[i], layout[i])
    ensures CellsWithin(batch, limit) <==> forall i :: 0 <= i < |layout| ==> CellsFit(batch.columns[i], layout[i], limit)
  {
    forall i | 0 <= i < |layout|
      ensures CellsFit(batch.columns[i], layout[i], limit) <==>
              Measurable(batch.columns[i]) && forall bytes: nat :: HasCell(batch.columns[i], bytes) ==> bytes <= limit
    {
      FitIff(batch.columns[i], layout[i], limit);
    }
    hide CellsFit;
    hide HasCell;
    hide Measurable;
    hide LaidOut;
    forall c | c in batch.columns ensures exists i :: 0 <= i < |layout| && batch.columns[i] == c {
    }
  }

  lemma FitIff(column: Column, values: seq<int>, limit: int)
    requires limit >= 0 && (column.dataType.Variable? ==> LaidOut(column, values))
    ensures CellsFit(column, values, limit) <==>
            Measurable(column) && forall bytes: nat :: HasCell(column, bytes) ==> bytes <= limit
  {
    if column.dataType.Variable? {
      VariableFitIff(column, values, limit);
    } else if column.dataType != Unsupported {
      FixedFitIff(column, values, limit);
    }
  }

  lemma VariableFitIff(column: Column, values: seq<int>, limit: int)
    requires limit >= 0 && column.dataType.Variable? && LaidOut(column, values)
    ensures CellsFit(column, values, limit) <==>
            Measurable(column) && forall bytes: nat :: HasCell(column, bytes) ==> bytes <= limit
  {
    LayoutCells(column, values);
    hide Measurable;
    hide HasCell;
    hide LaidOut;
    if Measurable(column) && forall bytes: nat :: HasCell(column, bytes) ==> bytes <= limit {
      forall k: nat | column.offset <= k < column.offset + column.length ensures 0 <= values[k + 1] - values[k] <= limit {
        assert InSlice(column, k) && Gap(values, k) >= 0;
        assert HasCell(column, Gap(values, k));
      }
    }
    if CellsFit(column, values, limit) {
      forall k: nat | InSlice(column, k) ensures 0 <= Gap(values, k) <= limit {
      }
    }
  }

  lemma FixedFitIff(column: Column, values: seq<int>, limit: int)
    requires limit >= 0 && !column.dataType.Variable? && column.dataType != Unsupported
    ensures CellsFit(column, values, limit) <==>
            Measurable(column) && forall bytes: nat :: HasCell(column, bytes) ==> bytes <= limit
  {
    var width := CellWidth(column.dataType).bytes;
    assert HasCell(column, width) && Measurable(column);
  }
}
