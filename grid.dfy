/**
 * Placement of word-cloud panels on a figure made with two rows and two
 * columns of axes. The panels are enumerated, and panel `idx` is drawn on
 * the axis picked by its index; an index past the grid raises an index
 * error and ends the run.
 */
module Grid {
  import opened Records
  import opened Duplicates

  /** An axis of the figure, by row and column. */
  datatype Cell = Cell(row: nat, col: nat)

  /** The axis chosen for panel `idx`: the first two in the top row, the others in the bottom row. */
  function CellFor(idx: nat): Cell
  {
    if idx < 2 then Cell(0, idx) else Cell(1, idx - 2)
  }

  /** Whether a cell is one of the four axes of the 2x2 figure. */
  predicate InGrid(c: Cell)
  {
    c.row < 2 && c.col < 2
  }

  /** Row-major position of a cell in a grid two columns wide. */
  function Position(c: Cell): nat
  {
    2 * c.row + c.col
  }

  /**
   * Panels are placed in row-major order: reading the chosen cell back as a
   * row-major position gives the panel's index. The cell is an axis of the
   * figure exactly for the first four panels; from the fifth on the column
   * is 2 or more, past the last column.
   */
  lemma CellForPlacement(idx: nat)
    ensures Position(CellFor(idx)) == idx
    ensures InGrid(CellFor(idx)) <==> idx < 4
    ensures idx >= 4 ==> CellFor(idx).row == 1 && CellFor(idx).col >= 2
  {
  }

  /** Different panels never share an axis. */
  lemma CellForInjective(i: nat, j: nat)
    requires i != j
    ensures CellFor(i) != CellFor(j)
  {
    CellForPlacement(i);
    CellForPlacement(j);
  }

  /**
   * The drawing loop over the panels, as far as the choice of axes goes:
   * every panel gets its cell, in order, until a panel has no axis. Up to
   * four panels fit, each on an axis of its own; a fifth panel stops the
   * loop with an index error at index 4.
   */
  method LayOut(panels: seq<Subset>) returns (res: Result<seq<Cell>>)
    ensures res.Ok? <==> |panels| <= 4
    ensures res.Err? ==> res.error == AxisOutOfRange(4)
    ensures res.Ok? ==> |res.value| == |panels|
    ensures res.Ok? ==> forall i :: 0 <= i < |panels| ==> InGrid(res.value[i]) && Position(res.value[i]) == i
    ensures res.Ok? ==> Distinct(res.value)
  {
    var cells: seq<Cell> := [];
    var idx := 0;
    while idx < |panels|
      invariant idx <= |panels| && idx <= 4
      invariant |cells| == idx
      invariant forall i :: 0 <= i < idx ==> cells[i] == CellFor(i) && InGrid(cells[i]) && Position(cells[i]) == i
    {
      var cell := CellFor(idx);
      CellForPlacement(idx);
      if !InGrid(cell) {
        return Err(AxisOutOfRange(idx));
      }
      cells := cells + [cell];
      idx := idx + 1;
    }
    res := Ok(cells);
  }
}
