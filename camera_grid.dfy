/** The grid modes of the camera screen, its grid-mode toggle and the way the grid overlay
    maps a card position back to a (row, col) cell. */
module CameraGrid {
  import opened Grid

  /** `enum class GridMode(rows, cols, cardCount, description)`. */
  datatype GridMode = GRID_3X3 | GRID_4X3 {
    function Rows(): nat {
      match this
      case GRID_3X3 => 3
      case GRID_4X3 => 4
    }
    function Cols(): nat {
      match this
      case GRID_3X3 => 3
      case GRID_4X3 => 3
    }
    function CardCount(): nat {
      match this
      case GRID_3X3 => 9
      case GRID_4X3 => 12
    }
    function Description(): string {
      match this
      case GRID_3X3 => "3×3 Grid (9 cards)"
      case GRID_4X3 => "4×3 Grid (12 cards)"
    }
  }

  /** The camera screen opens in the 3×3 mode. */
  const InitialGridMode: GridMode := GRID_3X3

  /** Every mode's card count is its number of grid cells, and the grid is never empty. */
  lemma CardCountIsCells(mode: GridMode)
    ensures mode.CardCount() == mode.Rows() * mode.Cols()
    ensures mode.Rows() >= 1 && mode.Cols() >= 1 && mode.CardCount() >= 9
  {
  }

  /** The enum's constructor arguments. */
  lemma ModeConstants()
    ensures (GRID_3X3.Rows(), GRID_3X3.Cols(), GRID_3X3.CardCount()) == (3, 3, 9)
    ensures (GRID_4X3.Rows(), GRID_4X3.Cols(), GRID_4X3.CardCount()) == (4, 3, 12)
    ensures GRID_3X3.Description() == "3×3 Grid (9 cards)" && GRID_4X3.Description() == "4×3 Grid (12 cards)"
  {
  }

  /** The camera screen opens in the nine-card mode. */
  lemma InitialIsNineCards()
    ensures InitialGridMode == GRID_3X3 && InitialGridMode.CardCount() == 9
  {
  }

  /** The toggle button: 3×3 becomes 4×3 and anything else becomes 3×3. */
  function ToggleGridMode(mode: GridMode): (next: GridMode)
    ensures next != mode
  {
    if mode == GRID_3X3 then GRID_4X3 else GRID_3X3
  }

  /** Toggling twice returns to the mode one started from. */
  lemma ToggleTwice(mode: GridMode)
    ensures ToggleGridMode(ToggleGridMode(mode)) == mode
  {
  }

  /** `drawGrid`'s decoding of a card position into (row, col). */
  function CellOfPosition(position: nat, cols: nat): (rc: (nat, nat))
    requires cols >= 1
    ensures rc.1 < cols && rc.0 * cols + rc.1 == position
  {
    (position / cols, position % cols)
  }

  /** The overlay decodes a position to the same cell `createGridRegions` placed at that position,
      and every card position of a mode lands inside the grid. */
  lemma {:induction false} OverlayMatchesRegions(mode: GridMode, imageWidth: nat, imageHeight: nat,
                                                 regions: seq<Rect>, position: nat)
    requires |regions| == mode.Rows() * mode.Cols()
    requires GridPrefix(imageWidth, imageHeight, mode.Rows(), mode.Cols(), regions)
    requires position < mode.CardCount()
    ensures CellOfPosition(position, mode.Cols()).0 < mode.Rows()
    ensures position < |regions|
    ensures var (row, col) := CellOfPosition(position, mode.Cols());
      regions[position] == Cell(imageWidth, imageHeight, mode.Rows(), mode.Cols(), row, col)
  {
    CardCountIsCells(mode);
    RowInRange(position, mode.Rows(), mode.Cols());
  }

  /** Encoding a cell as a position and decoding it gives the cell back. */
  lemma {:induction false} PositionRoundTrip(row: nat, col: nat, cols: nat)
    requires col < cols
    ensures CellOfPosition(row * cols + col, cols) == (row, col)
  {
    IndexDecodes(row, col, cols);
  }
}
