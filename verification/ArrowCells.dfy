/** The cell-size measurement of one record batch. */
module ArrowCells {
  import opened Wrappers
  import opened Wire
  import opened Arrow

  /** The largest cell of a variable-width column, from its offsets alone; none when the offsets
      buffer is missing or too short, or an offset decreases, somewhere in a non-empty slice. */
  method MaximumVariableCellBytes(column: Column) returns (maximum: Option<nat>)
    requires CellWidth(column.dataType).Measured?
    ensures maximum.Some? <==> Measurable(column)
    ensures maximum.Some? ==> IsLargestCell([column], maximum.value)
  {
    if column.length == 0 {
      return Some(0);
    }
    if column.offsets.None? {
      assert InSlice(column, column.offset) && CellLength(column, column.offset).None?;
      return None;
    }
    var offsets := column.offsets.value;
    var width := OffsetWidth(column.dataType);
    var largest := 0;
    var index := column.offset;
    while index < column.offset + column.length
      invariant column.offset <= index <= column.offset + column.length
      invariant forall k: nat :: InSlice(column, k) && k < index ==>
                  CellLength(column, k).Some? && CellLength(column, k).value <= largest
      invariant largest == 0 || exists k: nat :: InSlice(column, k) && CellLength(column, k) == Some(largest)
    {
      var start := OffsetAt(offsets, width, index);
      if start.None? {
        assert InSlice(column, index) && CellLength(column, index).None?;
        return None;
      }
      var end := OffsetAt(offsets, width, index + 1);
      if end.None? || end.value < start.value {
        assert InSlice(column, index) && CellLength(column, index).None?;
        return None;
      }
      assert InSlice(column, index) && CellLength(column, index) == Some(end.value - start.value);
      largest := Max(largest, end.value - start.value);
      index := index + 1;
    }
    assert column in [column];
    return Some(largest);
  }

  function Max(a: nat, b: nat): nat {
    if a < b then b else a
  }

  /** The largest cell of a batch; none when some column cannot be measured. */
  method MaximumCellBytes(batch: Batch) returns (maximum: Option<nat>)
    ensures maximum.Some? <==> forall c :: c in batch.columns ==> Measurable(c)
    ensures maximum.Some? ==> IsLargestCell(batch.columns, maximum.value)
  {
    var largest := 0;
    var i := 0;
    while i < |batch.columns|
      invariant 0 <= i <= |batch.columns|
      invariant forall c :: c in batch.columns[..i] ==> Measurable(c)
      invariant IsLargestCell(batch.columns[..i], largest)
    {
      var column := batch.columns[i];
      assert column in batch.columns;
      var width;
      match CellWidth(column.dataType) {
        case Fixed(bytes) => width := bytes;
        case Rejected =>
          assert !Measurable(column);
          return None;
        case Measured =>
          var measured := MaximumVariableCellBytes(column);
          if measured.None? {
            return None;
          }
          width := measured.value;
      }
      assert IsLargestCell([column], width) by {
        assert column in [column];
      }
      LargestOfBoth(batch.columns[..i], column, largest, width);
      assert batch.columns[..i + 1] == batch.columns[..i] + [column];
      largest := Max(largest, width);
      i := i + 1;
    }
    assert batch.columns[..i] == batch.columns;
    return Some(largest);
  }

  lemma LargestOfBoth(columns: seq<Column>, column: Column, largest: nat, width: nat)
    requires IsLargestCell(columns, largest) && IsLargestCell([column], width)
    ensures IsLargestCell(columns + [column], Max(largest, width))
  {
    hide HasCell;
    forall c, b: nat | c in columns + [column] && HasCell(c, b) ensures b <= Max(largest, width) {
      assert c in columns || c in [column];
    }
    if width > largest {
      var c :| c in [column] && HasCell(c, width);
      assert c in columns + [column];
    } else if largest > 0 {
      var c :| c in columns && HasCell(c, largest);
      assert c in columns + [column];
    }
  }

  /** Comparing the largest cell with a limit compares every cell with it. */
  lemma LargestDecides(batch: Batch, maximum: Option<nat>, limit: int)
    requires limit >= 0
    requires maximum.Some? <==> forall c :: c in batch.columns ==> Measurable(c)
    requires maximum.Some? ==> IsLargestCell(batch.columns, maximum.value)
    ensures maximum.Some? && maximum.value <= limit <==> CellsWithin(batch, limit)
  {
  }
}
