/**
 * The editable grid of one table. Its `rows` state starts as the very array handed in as
 * `data`, and an edit copies that array shallowly: the row objects themselves are shared,
 * so writing a cell changes the row object every holder of it sees.
 */
module Grid {
  import opened Wrappers
  import opened Rows
  import opened Page

  /** A row object, shared by reference between arrays. */
  class RowObject {
    var cells: Row

    constructor(cells: Row)
      ensures this.cells == cells
    {
      this.cells := cells;
    }
  }

  class EditableGrid {
    /** The `data` prop: the array of row objects the grid was given. */
    const data: seq<RowObject>
    /** The `rows` state. */
    var rows: seq<RowObject>
    /** Every array handed to `onUpdate`, in order. */
    var updates: seq<seq<RowObject>>

    /** The shallow copies never replace a row object: the state holds the very objects of
        the `data` prop, in the same order. */
    ghost predicate Valid()
      reads this
    {
      rows == data
    }

    /** The cell values, as the grid shows them. */
    function Values(): (vs: seq<Row>)
      reads this, rows
      ensures |vs| == |rows|
      ensures forall i :: 0 <= i < |rows| ==> vs[i] == rows[i].cells
    {
      seq(|rows|, i reads this, rows requires 0 <= i < |rows| => rows[i].cells)
    }

    /** The header row: nothing without rows, otherwise the keys of the first row. */
    function Headers(): (h: seq<string>)
      reads this, rows
      ensures h == GetHeaders(Values())
    {
      if |rows| == 0 then [] else rows[0].cells.keys
    }

    constructor(data: seq<RowObject>)
      ensures this.data == data && updates == [] && Valid()
    {
      this.data := data;
      rows := data;
      updates := [];
    }

    /** `handleChange(rowIdx, key, value)`: writes the cell on the shared row object, makes the
        copied array the new state and hands that same array to `onUpdate`. */
    method HandleChange(rowIdx: nat, key: string, value: string)
      requires Valid() && rowIdx < |rows|
      modifies this, rows[rowIdx]
      ensures Valid() && rows == old(rows)
      ensures rows[rowIdx].cells == Set(old(rows[rowIdx].cells), key, value)
      ensures forall j :: 0 <= j < |rows| && rows[j] != rows[rowIdx] ==> rows[j].cells == old(rows[j].cells)
      ensures forall j :: 0 <= j < |data| && data[j] == rows[rowIdx] ==> Get(data[j].cells, key) == Some(value)
      ensures updates == old(updates) + [rows]
    {
      var updatedRows := rows;
      var target := updatedRows[rowIdx];
      target.cells := Set(target.cells, key, value);
      rows := updatedRows;
      updates := updates + [updatedRows];
    }
  }

  /** With every row object held once, an edit of the grid is the page's own cell update. */
  method EditMatchesPage(grid: EditableGrid, rowIdx: nat, key: string, value: string)
    requires grid.Valid() && rowIdx < |grid.rows|
    requires forall i, j :: 0 <= i < j < |grid.rows| ==> grid.rows[i] != grid.rows[j]
    modifies grid, grid.rows[rowIdx]
    ensures grid.Values() == UpdateData(old(grid.Values()), rowIdx, key, value)
  {
    ghost var before := grid.Values();
    grid.HandleChange(rowIdx, key, value);
    ghost var after := grid.Values();
    ghost var expected := UpdateData(before, rowIdx, key, value);
    assert |after| == |expected|;
    forall i | 0 <= i < |after| ensures after[i] == expected[i] {
      if i != rowIdx {
        assert grid.rows[i] != grid.rows[rowIdx];
      }
    }
  }
}
