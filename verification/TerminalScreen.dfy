/** Character grids: rows of cells, scrolled, shifted and blanked. */
module TerminalScreen {
  import opened TerminalText

  datatype Attr = Attr(bold: bool, underline: bool, inverse: bool, fg: int, bg: int)

  const DEFAULT_ATTR := Attr(false, false, false, -1, -1)

  datatype Cell = Cell(r: Rune, attr: Attr)

  type Row = seq<Cell>

  /* ------------------------------------------------------------------ */
  /* Rows.                                                                */
  /* ------------------------------------------------------------------ */

  function Blank(attr: Attr): Cell { Cell(0x20, attr) }

  function BlankRow(cols: nat, attr: Attr): (row: Row)
    ensures |row| == cols && forall x :: 0 <= x < cols ==> row[x] == Blank(attr)
  {
    seq(cols, _ => Blank(attr))
  }

  function Clamp(x: int, lo: int, hi: int): int
    requires lo <= hi
    ensures lo <= Clamp(x, lo, hi) <= hi
  {
    if x < lo then lo else if x > hi then hi else x
  }

  /** The row with columns `[start, end)` blanked, as far as they exist. */
  function Cleared(row: Row, start: int, end: int, attr: Attr): (r: Row)
    ensures |r| == |row|
  {
    var lo := Clamp(start, 0, |row|);
    var hi := Clamp(end, lo, |row|);
    row[..lo] + BlankRow(hi - lo, attr) + row[hi..]
  }

  /** The row with `n` blanks inserted at `start`; cells pushed off the end are lost. */
  function Inserted(row: Row, start: int, n: nat, attr: Attr): (r: Row)
    ensures |r| == |row|
  {
    var at := if start < 0 then 0 else start;
    if at >= |row| then row
    else
      var k := if n > |row| - at then |row| - at else n;
      row[..at] + BlankRow(k, attr) + row[at..|row| - k]
  }

  /** The row with `n` cells removed at `start`; blanks come in at the end. */
  function Deleted(row: Row, start: nat, n: nat, attr: Attr): (r: Row)
    ensures |r| == |row|
  {
    if start >= |row| then row
    else
      var k := if n > |row| - start then |row| - start else n;
      row[..start] + row[start + k..] + BlankRow(k, attr)
  }

  /** A character at column `x`; a wide one blanks the cell after it. */
  function Printed(row: Row, x: nat, r: Rune, width: nat, attr: Attr): (p: Row)
    requires x < |row|
    ensures |p| == |row|
  {
    var one := row[x := Cell(r, attr)];
    if width == 2 && x + 1 < |row| then one[x + 1 := Cell(0, attr)] else one
  }

  /** `row` as far as it goes, blanks after it, cut to `cols`. */
  function Fitted(row: Row, cols: nat): (r: Row)
    ensures |r| == cols
  {
    if |row| >= cols then row[..cols] else row + BlankRow(cols - |row|, DEFAULT_ATTR)
  }

  /* ------------------------------------------------------------------ */
  /* Grids.                                                               */
  /* ------------------------------------------------------------------ */

  type Grid = seq<Row>

  /** A screen's rows and the rows that have scrolled off its top. */
  datatype Screen = Screen(lines: Grid, hist: Grid)

  predicate Rectangular(g: Grid, rows: nat, cols: nat) {
    |g| == rows && forall y :: 0 <= y < rows ==> |g[y]| == cols
  }

  function BlankRows(n: nat, cols: nat, attr: Attr): (g: Grid)
    ensures Rectangular(g, n, cols)
    ensures forall y :: 0 <= y < n ==> g[y] == BlankRow(cols, attr)
  {
    seq(n, _ => BlankRow(cols, attr))
  }

  function NewScreen(rows: nat, cols: nat): Screen {
    Screen(BlankRows(rows, cols, DEFAULT_ATTR), [])
  }

  function Trimmed(hist: Grid, limit: int): (r: Grid)
    ensures |r| <= (if limit > 0 then limit else 0)
  {
    if limit <= 0 then [] else if |hist| > limit then hist[|hist| - limit..] else hist
  }

  /** Rows `[top, bottom]` move up by `n`; blank rows come in at the bottom. */
  function ShiftedUp(g: Grid, top: nat, bottom: nat, n: nat, cols: nat, attr: Attr): (r: Grid)
    requires top <= bottom < |g| && n <= bottom - top + 1
    ensures |r| == |g|
  {
    g[..top] + g[top + n..bottom + 1] + BlankRows(n, cols, attr) + g[bottom + 1..]
  }

  /** Rows `[top, bottom]` move down by `n`; blank rows come in at the top. */
  function ShiftedDown(g: Grid, top: nat, bottom: nat, n: nat, cols: nat, attr: Attr): (r: Grid)
    requires top <= bottom < |g| && n <= bottom - top + 1
    ensures |r| == |g|
  {
    g[..top] + BlankRows(n, cols, attr) + g[top..bottom + 1 - n] + g[bottom + 1..]
  }

  /** One line feed at the bottom of a scroll region; a full-screen region feeds the history. */
  function ScrolledUp(b: Screen, top: nat, bottom: nat, limit: int, cols: nat, attr: Attr): Screen
    requires top <= bottom < |b.lines|
  {
    Screen(ShiftedUp(b.lines, top, bottom, 1, cols, attr),
           if limit > 0 && top == 0 && bottom == |b.lines| - 1 then Trimmed(b.hist + [b.lines[0]], limit) else b.hist)
  }

  function ScrolledDown(b: Screen, top: nat, bottom: nat, cols: nat, attr: Attr): Screen
    requires top <= bottom < |b.lines|
  {
    b.(lines := ShiftedDown(b.lines, top, bottom, 1, cols, attr))
  }

  /** The lower end of line insertion and deletion: the region's, or the screen's below it. */
  function EditBottom(b: Screen, y: nat, bottom: nat): (e: nat)
    requires y < |b.lines|
    ensures y <= e < |b.lines|
  {
    var e := if bottom >= |b.lines| then |b.lines| - 1 else bottom;
    if y > e then |b.lines| - 1 else e
  }

  function LinesInserted(b: Screen, y: nat, bottom: nat, n: nat, cols: nat, attr: Attr): Screen
    requires y < |b.lines|
  {
    var e := EditBottom(b, y, bottom);
    b.(lines := ShiftedDown(b.lines, y, e, if n > e - y + 1 then e - y + 1 else n, cols, attr))
  }

  function LinesDeleted(b: Screen, y: nat, bottom: nat, n: nat, cols: nat, attr: Attr): Screen
    requires y < |b.lines|
  {
    var e := EditBottom(b, y, bottom);
    b.(lines := ShiftedUp(b.lines, y, e, if n > e - y + 1 then e - y + 1 else n, cols, attr))
  }

  function ResizedLines(g: Grid, rows: nat, cols: nat): (r: Grid)
    ensures Rectangular(r, rows, cols)
  {
    seq(rows, y requires 0 <= y < rows => if y < |g| then Fitted(g[y], cols) else BlankRow(cols, DEFAULT_ATTR))
  }

  function Resized(b: Screen, rows: nat, cols: nat, limit: int): Screen {
    Screen(ResizedLines(b.lines, rows, cols),
           Trimmed(if |b.lines| > rows && limit > 0 then b.hist + b.lines[..|b.lines| - rows] else b.hist, limit))
  }

  lemma ShiftsKeepShape(g: Grid, top: nat, bottom: nat, n: nat, cols: nat, attr: Attr)
    requires top <= bottom < |g| && n <= bottom - top + 1 && Rectangular(g, |g|, cols)
    ensures Rectangular(ShiftedUp(g, top, bottom, n, cols, attr), |g|, cols)
    ensures Rectangular(ShiftedDown(g, top, bottom, n, cols, attr), |g|, cols)
  {
    RowsOfPart(g, 0, top, cols);
    RowsOfPart(g, top + n, bottom + 1, cols);
    RowsOfPart(g, top, bottom + 1 - n, cols);
    RowsOfPart(g, bottom + 1, |g|, cols);
    assert g[bottom + 1..|g|] == g[bottom + 1..] && g[0..top] == g[..top];
    var blanks := BlankRows(n, cols, attr);
    RectangularJoin(g[..top], g[top + n..bottom + 1], cols);
    RectangularJoin(g[..top] + g[top + n..bottom + 1], blanks, cols);
    RectangularJoin(g[..top] + g[top + n..bottom + 1] + blanks, g[bottom + 1..], cols);
    RectangularJoin(g[..top], blanks, cols);
    RectangularJoin(g[..top] + blanks, g[top..bottom + 1 - n], cols);
    RectangularJoin(g[..top] + blanks + g[top..bottom + 1 - n], g[bottom + 1..], cols);
  }

  lemma RowsOfPart(g: Grid, lo: nat, hi: nat, cols: nat)
    requires lo <= hi <= |g| && Rectangular(g, |g|, cols)
    ensures Rectangular(g[lo..hi], hi - lo, cols)
  {
  }

  lemma RectangularJoin(g: Grid, h: Grid, cols: nat)
    requires Rectangular(g, |g|, cols) && Rectangular(h, |h|, cols)
    ensures Rectangular(g + h, |g| + |h|, cols)
  {
  }

  /** Moving a region down and up again restores every row that was not pushed out. */
  lemma DownThenUp(g: Grid, top: nat, bottom: nat, n: nat, cols: nat, attr: Attr)
    requires top <= bottom < |g| && n <= bottom - top + 1
    ensures var back := ShiftedUp(ShiftedDown(g, top, bottom, n, cols, attr), top, bottom, n, cols, attr);
            && back[..bottom + 1 - n] == g[..bottom + 1 - n]
            && back[bottom + 1 - n..bottom + 1] == BlankRows(n, cols, attr)
            && back[bottom + 1..] == g[bottom + 1..]
  {
    var d := ShiftedDown(g, top, bottom, n, cols, attr);
    assert d[..top] == g[..top];
    assert d[top + n..bottom + 1] == g[top..bottom + 1 - n];
    assert d[bottom + 1..] == g[bottom + 1..];
    assert g[..top] + g[top..bottom + 1 - n] == g[..bottom + 1 - n];
  }
}
