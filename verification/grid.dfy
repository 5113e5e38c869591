/** The grid placement done by `BaseCollageBuilder._create_image`: the canvas
    size and the cursor that walks over the tiles, one tile per step. */
module Grid {

  import opened Arith

  /** Width and height of one tile in pixels (TILE_WIDTH, TILE_HEIGHT). */
  const TileSize: int := 300

  /** Top-left pixel position at which a tile is pasted. */
  datatype Cursor = Cursor(x: int, y: int)

  /** Canvas width for `cols` columns. */
  function CanvasWidth(cols: int): int { cols * TileSize }

  /** Canvas height for `rows` rows. */
  function CanvasHeight(rows: int): int { rows * TileSize }

  /** One step of the cursor, exactly as `_create_image` computes it: the wrap test
      looks at the position BEFORE the move. */
  function Advance(c: Cursor, canvasWidth: int): Cursor
  {
    if c.x >= canvasWidth - TileSize then Cursor(0, c.y + TileSize)
    else Cursor(c.x + TileSize, c.y)
  }

  /** The cursor at which the k-th tile (counting from 0) is pasted. */
  function CursorAt(k: nat, canvasWidth: int): Cursor
  {
    if k == 0 then Cursor(0, 0) else Advance(CursorAt(k - 1, canvasWidth), canvasWidth)
  }

  /** Row-major cell of the k-th tile for a grid with `cols` columns. */
  function Cell(k: nat, cols: int): Cursor
    requires cols >= 1
  {
    Cursor((k % cols) * TileSize, (k / cols) * TileSize)
  }

  /** For at least one column, the cursor recurrence is the row-major
      enumeration of cells: column k mod cols, row k div cols. */
  lemma {:induction false} CursorIsRowMajor(k: nat, cols: int)
    requires cols >= 1
    ensures CursorAt(k, CanvasWidth(cols)) == Cell(k, cols)
  {
    if k > 0 {
      CursorIsRowMajor(k - 1, cols);
      CellStep(k - 1, cols);
    }
  }

  /** Advancing the cursor from one row-major cell reaches the next. */
  lemma CellStep(k: nat, cols: int)
    requires cols >= 1
    ensures Advance(Cell(k, cols), CanvasWidth(cols)) == Cell(k + 1, cols)
  {
    var q, r := k / cols, k % cols;
    assert k == q * cols + r;
    if r == cols - 1 {
      DivModUnique(k + 1, cols, q + 1, 0);
    } else {
      DivModUnique(k + 1, cols, q, r + 1);
    }
  }

  /** With no column (or a negative count, which validation lets through),
      the wrap test always fires: every tile starts a new row at x = 0. */
  lemma {:induction false} CursorWithoutColumns(k: nat, cols: int)
    requires cols <= 0
    ensures CursorAt(k, CanvasWidth(cols)) == Cursor(0, k * TileSize)
  {
    if k > 0 {
      CursorWithoutColumns(k - 1, cols);
    }
  }

  /** When there are at most cols*rows tiles, every tile lies inside the
      canvas: it starts at a non-negative position and its far edges do not
      pass the canvas edges. */
  lemma CursorInCanvas(k: nat, cols: int, rows: int)
    requires cols >= 1 && k < cols * rows
    ensures var c := CursorAt(k, CanvasWidth(cols));
      && 0 <= c.x && c.x + TileSize <= CanvasWidth(cols)
      && 0 <= c.y && c.y + TileSize <= CanvasHeight(rows)
  {
    CursorIsRowMajor(k, cols);
    var q, r := k / cols, k % cols;
    assert k == q * cols + r;
    if q >= rows {
      assert q * cols >= rows * cols;
    }
  }

  /** The cursor of the k-th tile in terms of its quotient and remainder. */
  lemma CursorParts(k: nat, cols: int) returns (q: int, r: int)
    requires cols >= 1
    ensures k == q * cols + r && 0 <= r < cols
    ensures CursorAt(k, CanvasWidth(cols)) == Cursor(r * TileSize, q * TileSize)
  {
    CursorIsRowMajor(k, cols);
    q, r := k / cols, k % cols;
  }

  /** Earlier tiles come strictly earlier in row-major order, so no two tiles
      of one collage share a cell. */
  lemma CursorOrder(j: nat, k: nat, cols: int)
    requires cols >= 1 && j < k
    ensures var a, b := CursorAt(j, CanvasWidth(cols)), CursorAt(k, CanvasWidth(cols));
      a.y < b.y || (a.y == b.y && a.x < b.x)
  {
    var qj, rj := CursorParts(j, cols);
    var qk, rk := CursorParts(k, cols);
    LexicographicDivMod(qj, rj, qk, rk, cols);
  }

  /** The cursor of the k-th tile for any column count. */
  lemma CursorClosedForm(k: nat, cols: int)
    ensures cols >= 1 ==> CursorAt(k, CanvasWidth(cols)) == Cursor((k % cols) * TileSize, (k / cols) * TileSize)
    ensures cols <= 0 ==> CursorAt(k, CanvasWidth(cols)) == Cursor(0, k * TileSize)
  {
    if cols >= 1 {
      CursorIsRowMajor(k, cols);
    } else {
      CursorWithoutColumns(k, cols);
    }
  }
}
