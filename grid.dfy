/** Placement of the n-th item of a list in a grid filled row by row, as the
    frame picker and the gallery do with `QGridLayout.addWidget(w, row, col)`. */
module Grid {
  /** Two different positions of a row-major grid with `columns` columns
      land in different cells, each in a column below `columns`. */
  lemma CellsDistinct(i: nat, j: nat, columns: nat)
    requires columns > 0 && i != j
    ensures i % columns < columns && j % columns < columns
    ensures (i / columns, i % columns) != (j / columns, j % columns)
  {
    assert i == columns * (i / columns) + i % columns;
    assert j == columns * (j / columns) + j % columns;
  }
}
