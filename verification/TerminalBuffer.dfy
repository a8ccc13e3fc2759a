/** Screen buffers in memory: rows are arrays, moved by reference and blanked in place. */
module TerminalBuffer {
  import opened TerminalText
  import opened TerminalScreen

  /* ------------------------------------------------------------------ */
  /* One row.                                                             */
  /* ------------------------------------------------------------------ */

  method BlankLine(cols: nat, attr: Attr) returns (line: array<Cell>)
    ensures fresh(line) && line.Length == cols && line[..] == BlankRow(cols, attr)
  {
    line := new Cell[cols];
    var i := 0;
    while i < cols
      invariant 0 <= i <= cols
      invariant forall x :: 0 <= x < i ==> line[x] == Blank(attr)
    {
      line[i] := Blank(attr);
      i := i + 1;
    }
  }

  method ClearRange(line: array<Cell>, start: int, end: int, attr: Attr)
    modifies line
    ensures line[..] == Cleared(old(line[..]), start, end, attr)
  {
    var lo := if start < 0 then 0 else start;
    var hi := if end > line.Length then line.Length else end;
    var i := lo;
    while i < hi
      invariant lo <= i && (lo < hi ==> i <= hi) && (lo >= hi ==> i == lo)
      invariant forall x :: 0 <= x < line.Length ==> line[x] == if lo <= x < i then Blank(attr) else old(line[x])
    {
      line[i] := Blank(attr);
      i := i + 1;
    }
  }

  /** Go's overlapping `copy` inside one row. */
  method Move(line: array<Cell>, dst: nat, src: nat, n: nat)
    requires dst + n <= line.Length && src + n <= line.Length
    modifies line
    ensures line[..] == CopiedOver(old(line[..]), dst, src, n)
  {
    forall i | 0 <= i < n {
      line[dst + i] := line[src + i];
    }
  }

  /** The row with `n` cells from `src` on copied to `dst`. */
  function CopiedOver(row: Row, dst: nat, src: nat, n: nat): (r: Row)
    requires dst + n <= |row| && src + n <= |row|
    ensures |r| == |row|
  {
    row[..dst] + row[src..src + n] + row[dst + n..]
  }

  method InsertCells(line: array<Cell>, start: int, n: nat, attr: Attr)
    modifies line
    ensures line[..] == Inserted(old(line[..]), start, n, attr)
  {
    hide CopiedOver, Cleared, Inserted;
    var at := if start < 0 then 0 else start;
    InsertedIs(line[..], start, n, attr);
    if at < line.Length {
      var k := if n > line.Length - at then line.Length - at else n;
      Move(line, at + k, at, line.Length - at - k);
      ClearRange(line, at, at + k, attr);
    }
  }

  lemma InsertedIs(row: Row, start: int, n: nat, attr: Attr)
    ensures var at := if start < 0 then 0 else start;
            if at >= |row| then Inserted(row, start, n, attr) == row
            else
              var k := if n > |row| - at then |row| - at else n;
              Inserted(row, start, n, attr) == Cleared(CopiedOver(row, at + k, at, |row| - at - k), at, at + k, attr)
  {
  }

  method DeleteCells(line: array<Cell>, start: nat, n: nat, attr: Attr)
    modifies line
    ensures line[..] == Deleted(old(line[..]), start, n, attr)
  {
    hide CopiedOver, Cleared, Deleted;
    DeletedIs(line[..], start, n, attr);
    if start < line.Length {
      var k := if n > line.Length - start then line.Length - start else n;
      Move(line, start, start + k, line.Length - start - k);
      ClearRange(line, line.Length - k, line.Length, attr);
    }
  }

  lemma DeletedIs(row: Row, start: nat, n: nat, attr: Attr)
    ensures if start >= |row| then Deleted(row, start, n, attr) == row
            else
              var k := if n > |row| - start then |row| - start else n;
              Deleted(row, start, n, attr)
              == Cleared(CopiedOver(row, start, start + k, |row| - start - k), |row| - k, |row|, attr)
  {
  }

  /** A character of the given width written at column `x`. */
  method PutCell(line: array<Cell>, x: nat, r: Rune, width: nat, attr: Attr)
    requires x < line.Length && width <= 2
    modifies line
    ensures line[..] == Printed(old(line[..]), x, r, width, attr)
  {
    line[x] := Cell(r, attr);
    var i := 1;
    while i < width && x + i < line.Length
      invariant 1 <= i && (i <= width || i == 1)
      invariant forall k :: 0 <= k < line.Length ==>
        line[k] == if k == x then Cell(r, attr) else if x < k < x + i then Cell(0, attr) else old(line[k])
    {
      line[x + i] := Cell(0, attr);
      i := i + 1;
    }
  }

  /* ------------------------------------------------------------------ */
  /* Rows of a buffer.                                                    */
  /* ------------------------------------------------------------------ */

  type Line = array<Cell>

  ghost function Contents(lines: seq<Line>): (g: Grid)
    reads lines
    ensures |g| == |lines| && forall y :: 0 <= y < |lines| ==> g[y] == lines[y][..]
  {
    seq(|lines|, y requires 0 <= y < |lines| reads lines => lines[y][..])
  }

  /** No two rows share storage. */
  predicate Distinct(lines: seq<Line>) {
    forall i, j :: 0 <= i < j < |lines| ==> lines[i] != lines[j]
  }

  predicate Shaped(lines: seq<Line>, cols: nat) {
    forall y :: 0 <= y < |lines| ==> lines[y].Length == cols
  }

  /** `m` holds the rows of `l` with `[top, bottom]` moved up by `n`; the last `n` entries are open. */
  predicate MovedUp(l: seq<Line>, m: seq<Line>, top: nat, bottom: nat, n: nat) {
    |m| == |l|
    && (forall i :: 0 <= i < |l| && (i < top || bottom < i) ==> m[i] == l[i])
    && (forall i :: top <= i <= bottom - n && i + n < |l| ==> m[i] == l[i + n])
  }

  /** `m` holds the rows of `l` with `[top, bottom]` moved down by `n`; the first `n` entries are open. */
  predicate MovedDown(l: seq<Line>, m: seq<Line>, top: nat, bottom: nat, n: nat) {
    |m| == |l|
    && (forall i :: 0 <= i < |l| && (i < top || bottom < i) ==> m[i] == l[i])
    && (forall i :: top + n <= i <= bottom && i < |l| ==> m[i] == l[i - n])
  }

  /** Go's overlapping `copy` of entries up by `n`. */
  function CopiedUp(l: seq<Line>, top: nat, bottom: nat, n: nat): (m: seq<Line>)
    requires top <= bottom < |l| && n <= bottom - top + 1
    ensures MovedUp(l, m, top, bottom, n)
    ensures From(m, l)
  {
    l[..top] + l[top + n..bottom + 1] + l[bottom + 1 - n..]
  }

  function CopiedDown(l: seq<Line>, top: nat, bottom: nat, n: nat): (m: seq<Line>)
    requires top <= bottom < |l| && n <= bottom - top + 1
    ensures MovedDown(l, m, top, bottom, n)
    ensures From(m, l)
  {
    l[..top + n] + l[top..bottom + 1 - n] + l[bottom + 1..]
  }

  lemma MovesShaped(l: seq<Line>, top: nat, bottom: nat, n: nat, cols: nat)
    requires top <= bottom < |l| && n <= bottom - top + 1 && Shaped(l, cols)
    ensures Shaped(CopiedUp(l, top, bottom, n), cols) && Shaped(CopiedDown(l, top, bottom, n), cols)
  {
  }

  /** Outside the open entries the moved rows are still distinct. */
  predicate DistinctOutside(m: seq<Line>, lo: nat, hi: nat) {
    forall i, j :: 0 <= i < j < |m| && !(lo <= i < hi) && !(lo <= j < hi) ==> m[i] != m[j]
  }

  lemma MovesDistinct(l: seq<Line>, top: nat, bottom: nat, n: nat)
    requires top <= bottom < |l| && n <= bottom - top + 1 && Distinct(l)
    ensures DistinctOutside(CopiedUp(l, top, bottom, n), bottom + 1 - n, bottom + 1)
    ensures DistinctOutside(CopiedDown(l, top, bottom, n), top, top + n)
  {
    hide CopiedUp, CopiedDown;
  }

  /** With blanks in the open entries, the grid is shifted. */
  lemma UpShown(l: seq<Line>, m: seq<Line>, top: nat, bottom: nat, n: nat, cols: nat, attr: Attr)
    requires top <= bottom < |l| && n <= bottom - top + 1 && MovedUp(l, m, top, bottom, n)
    requires AllBlank(m, bottom + 1 - n, bottom + 1, cols, attr)
    ensures Contents(m) == ShiftedUp(Contents(l), top, bottom, n, cols, attr)
  {
    hide ShiftedUp;
    GridUp(Contents(l), Contents(m), top, bottom, n, cols, attr);
  }

  /** Row by row, a shift up. */
  lemma GridUp(g: Grid, h: Grid, top: nat, bottom: nat, n: nat, cols: nat, attr: Attr)
    requires top <= bottom < |g| == |h| && n <= bottom - top + 1
    requires forall i :: 0 <= i < |g| && (i < top || bottom < i) ==> h[i] == g[i]
    requires forall i :: top <= i <= bottom - n ==> h[i] == g[i + n]
    requires forall i :: bottom + 1 - n <= i < bottom + 1 ==> h[i] == BlankRow(cols, attr)
    ensures h == ShiftedUp(g, top, bottom, n, cols, attr)
  {
    assert h[..top] == g[..top];
    assert h[top..bottom + 1 - n] == g[top + n..bottom + 1];
    assert h[bottom + 1 - n..bottom + 1] == BlankRows(n, cols, attr);
    assert h[bottom + 1..] == g[bottom + 1..];
    Quarters(h, top, bottom + 1 - n, bottom + 1);
  }

  lemma DownShown(l: seq<Line>, m: seq<Line>, top: nat, bottom: nat, n: nat, cols: nat, attr: Attr)
    requires top <= bottom < |l| && n <= bottom - top + 1 && MovedDown(l, m, top, bottom, n)
    requires AllBlank(m, top, top + n, cols, attr)
    ensures Contents(m) == ShiftedDown(Contents(l), top, bottom, n, cols, attr)
  {
    hide ShiftedDown;
    GridDown(Contents(l), Contents(m), top, bottom, n, cols, attr);
  }

  /** Row by row, a shift down. */
  lemma GridDown(g: Grid, h: Grid, top: nat, bottom: nat, n: nat, cols: nat, attr: Attr)
    requires top <= bottom < |g| == |h| && n <= bottom - top + 1
    requires forall i :: 0 <= i < |g| && (i < top || bottom < i) ==> h[i] == g[i]
    requires forall i :: top + n <= i <= bottom ==> h[i] == g[i - n]
    requires forall i :: top <= i < top + n ==> h[i] == BlankRow(cols, attr)
    ensures h == ShiftedDown(g, top, bottom, n, cols, attr)
  {
    assert h[..top] == g[..top];
    assert h[top..top + n] == BlankRows(n, cols, attr);
    assert h[top + n..bottom + 1] == g[top..bottom + 1 - n];
    assert h[bottom + 1..] == g[bottom + 1..];
    Quarters(h, top, top + n, bottom + 1);
  }

  ghost predicate AllBlank(m: seq<Line>, lo: nat, hi: nat, cols: nat, attr: Attr)
    reads m
  {
    lo <= hi <= |m| && forall i :: lo <= i < hi ==> m[i][..] == BlankRow(cols, attr)
  }

  predicate From(m: seq<Line>, l: seq<Line>) {
    forall r :: r in m ==> r in l
  }

  /** One open entry filled with a new row leaves all rows distinct. */
  lemma Filled(m: seq<Line>, at: nat, line: Line, cols: nat)
    requires at < |m| && DistinctOutside(m, at, at + 1) && line !in m && Shaped(m, cols) && line.Length == cols
    ensures Distinct(m[at := line]) && Shaped(m[at := line], cols)
    ensures forall r :: r in m[at := line] ==> r in m || r == line
  {
  }

  lemma SameOutside(l: seq<Line>, m: seq<Line>, k: seq<Line>, top: nat, bottom: nat, n: nat)
    requires top <= bottom < |l| && n <= bottom - top + 1 && |k| == |m| == |l|
    ensures MovedUp(l, m, top, bottom, n) && (forall i :: 0 <= i < |m| && !(bottom + 1 - n <= i < bottom + 1) ==> k[i] == m[i])
            ==> MovedUp(l, k, top, bottom, n)
    ensures MovedDown(l, m, top, bottom, n) && (forall i :: 0 <= i < |m| && !(top <= i < top + n) ==> k[i] == m[i])
            ==> MovedDown(l, k, top, bottom, n)
  {
  }

  lemma Quarters(g: Grid, a: nat, b: nat, c: nat)
    requires a <= b <= c <= |g|
    ensures g == g[..a] + g[a..b] + g[b..c] + g[c..]
  {
  }

  class ScreenBuffer {
    var lines: seq<Line>
    var hist: seq<Row>

    /** The storage of the rows. */
    ghost function Rows(): (rows: set<Line>)
      reads this
      ensures forall y :: 0 <= y < |lines| ==> lines[y] in rows
    {
      set r | r in lines
    }

    ghost predicate Valid(rows: nat, cols: nat)
      reads this
    {
      |lines| == rows && Distinct(lines) && Shaped(lines, cols)
    }

    ghost function View(): (b: Screen)
      reads this, lines
      ensures |b.lines| == |lines|
    {
      Screen(Contents(lines), hist)
    }

    constructor (rows: nat, cols: nat)
      ensures Valid(rows, cols) && fresh(Rows()) && View() == NewScreen(rows, cols)
    {
      lines, hist := [], [];
      new;
      var y := 0;
      while y < rows
        invariant y <= rows && |lines| == y && hist == []
        invariant Distinct(lines) && Shaped(lines, cols) && fresh(lines)
        invariant forall i :: 0 <= i < y ==> lines[i][..] == BlankRow(cols, DEFAULT_ATTR)
      {
        var line := BlankLine(cols, DEFAULT_ATTR);
        lines := lines + [line];
        y := y + 1;
      }
    }

    method TrimHistory(limit: int)
      modifies this`hist
      ensures hist == Trimmed(old(hist), limit)
    {
      if limit <= 0 {
        hist := [];
      } else if |hist| > limit {
        hist := hist[|hist| - limit..];
      }
    }

    /** Rows are shifted by reference: for a moment two entries name one row. */
    method ScrollRegion(top: nat, bottom: nat, limit: int, attr: Attr, ghost cols: nat)
      requires Valid(|lines|, cols) && top <= bottom < |lines|
      modifies this
      ensures Valid(|old(lines)|, cols) && forall r :: r in Rows() ==> r in old(Rows()) || fresh(r)
      ensures View() == ScrolledUp(old(View()), top, bottom, limit, cols, attr)
    {
      if limit > 0 && top == 0 && bottom == |lines| - 1 {
        hist := hist + [lines[0][..]];
        TrimHistory(limit);
      }
      ShiftUp(top, bottom, attr, cols);
    }

    method ShiftUp(top: nat, bottom: nat, attr: Attr, ghost cols: nat)
      requires Valid(|lines|, cols) && top <= bottom < |lines|
      modifies this`lines
      ensures Valid(|old(lines)|, cols) && forall r :: r in Rows() ==> r in old(Rows()) || fresh(r)
      ensures Contents(lines) == ShiftedUp(old(Contents(lines)), top, bottom, 1, cols, attr)
    {
      hide ShiftedUp, Distinct, MovedUp, Shaped, AllBlank, Contents;
      ghost var l := lines;
      RowUp(top, bottom, attr, cols);
      UpShown(l, lines, top, bottom, 1, cols, attr);
    }

    /** The references move up, and a fresh blank row comes in below. */
    method RowUp(top: nat, bottom: nat, attr: Attr, ghost cols: nat)
      requires Valid(|lines|, cols) && top <= bottom < |lines|
      modifies this`lines
      ensures Valid(|old(lines)|, cols) && forall r :: r in Rows() ==> r in old(Rows()) || fresh(r)
      ensures MovedUp(old(lines), lines, top, bottom, 1) && AllBlank(lines, bottom, bottom + 1, cols, attr)
    {
      MovesDistinct(lines, top, bottom, 1);
      MovesShaped(lines, top, bottom, 1, cols);
      hide CopiedUp, Distinct, DistinctOutside, MovedUp, Shaped;
      ghost var l := lines;
      lines := CopiedUp(lines, top, bottom, 1);
      var line := BlankLine(LineLength(bottom, cols), attr);
      ghost var m := lines;
      Filled(lines, bottom, line, cols);
      lines := lines[bottom := line];
      SameOutside(l, m, lines, top, bottom, 1);
    }

    method ScrollRegionDown(top: nat, bottom: nat, attr: Attr, ghost cols: nat)
      requires Valid(|lines|, cols) && top <= bottom < |lines|
      modifies this`lines
      ensures Valid(|old(lines)|, cols) && forall r :: r in Rows() ==> r in old(Rows()) || fresh(r)
      ensures View() == ScrolledDown(old(View()), top, bottom, cols, attr)
    {
      ShiftDown(top, bottom, attr, cols);
    }

    method ShiftDown(top: nat, bottom: nat, attr: Attr, ghost cols: nat)
      requires Valid(|lines|, cols) && top <= bottom < |lines|
      modifies this`lines
      ensures Valid(|old(lines)|, cols) && forall r :: r in Rows() ==> r in old(Rows()) || fresh(r)
      ensures Contents(lines) == ShiftedDown(old(Contents(lines)), top, bottom, 1, cols, attr)
    {
      hide ShiftedDown, Distinct, MovedDown, Shaped, AllBlank, Contents;
      ghost var l := lines;
      RowDown(top, bottom, attr, cols);
      DownShown(l, lines, top, bottom, 1, cols, attr);
    }

    /** The references move down, and a fresh blank row comes in above. */
    method RowDown(top: nat, bottom: nat, attr: Attr, ghost cols: nat)
      requires Valid(|lines|, cols) && top <= bottom < |lines|
      modifies this`lines
      ensures Valid(|old(lines)|, cols) && forall r :: r in Rows() ==> r in old(Rows()) || fresh(r)
      ensures MovedDown(old(lines), lines, top, bottom, 1) && AllBlank(lines, top, top + 1, cols, attr)
    {
      MovesDistinct(lines, top, bottom, 1);
      MovesShaped(lines, top, bottom, 1, cols);
      hide CopiedDown, Distinct, DistinctOutside, MovedDown, Shaped;
      ghost var l := lines;
      lines := CopiedDown(lines, top, bottom, 1);
      var line := BlankLine(LineLength(top, cols), attr);
      ghost var m := lines;
      Filled(lines, top, line, cols);
      lines := lines[top := line];
      SameOutside(l, m, lines, top, bottom, 1);
    }

    function LineLength(y: nat, ghost cols: nat): (n: nat)
      requires y < |lines| && Shaped(lines, cols)
      reads this`lines
      ensures n == cols
    {
      lines[y].Length
    }

    /** Fresh blank rows replace entries `[lo, hi)`, the ones left naming rows that moved. */
    method BlankEntries(lo: nat, hi: nat, attr: Attr, ghost cols: nat)
      requires lo <= hi <= |lines| && Shaped(lines, cols) && DistinctOutside(lines, lo, hi)
      modifies this`lines
      ensures Valid(|old(lines)|, cols) && forall r :: r in Rows() ==> r in old(Rows()) || fresh(r)
      ensures forall i :: 0 <= i < |lines| && !(lo <= i < hi) ==> lines[i] == old(lines[i])
      ensures AllBlank(lines, lo, hi, cols, attr)
    {
      var i := lo;
      while i < hi
        invariant lo <= i <= hi && |lines| == |old(lines)| && Shaped(lines, cols)
        invariant forall k :: 0 <= k < |lines| && !(lo <= k < i) ==> lines[k] == old(lines[k])
        invariant forall k :: lo <= k < i ==> fresh(lines[k]) && lines[k][..] == BlankRow(cols, attr)
        invariant forall j, k :: lo <= j < k < i ==> lines[j] != lines[k]
      {
        var line := BlankLine(lines[i].Length, attr);
        lines := lines[i := line];
        i := i + 1;
      }
    }

    method InsertLines(y: nat, bottom0: nat, n0: nat, attr: Attr, ghost cols: nat)
      requires Valid(|lines|, cols) && y < |lines|
      modifies this`lines
      ensures Valid(|old(lines)|, cols) && forall r :: r in Rows() ==> r in old(Rows()) || fresh(r)
      ensures View() == LinesInserted(old(View()), y, bottom0, n0, cols, attr)
    {
      hide ShiftedUp, ShiftedDown, Distinct, Shaped, ScreenBuffer.Rows;
      var bottom := if bottom0 >= |lines| then |lines| - 1 else bottom0;
      if y > bottom {
        bottom := |lines| - 1;
      }
      var n := if n0 > bottom - y + 1 then bottom - y + 1 else n0;
      OpenDown(y, bottom, n, attr, cols);
    }

    /** `n` rows opened up inside `[top, bottom]` and blanked. */
    method OpenDown(top: nat, bottom: nat, n: nat, attr: Attr, ghost cols: nat)
      requires Valid(|lines|, cols) && top <= bottom < |lines| && n <= bottom - top + 1
      modifies this`lines
      ensures Valid(|old(lines)|, cols) && forall r :: r in Rows() ==> r in old(Rows()) || fresh(r)
      ensures Contents(lines) == ShiftedDown(old(Contents(lines)), top, bottom, n, cols, attr)
    {
      MovesDistinct(lines, top, bottom, n);
      MovesShaped(lines, top, bottom, n, cols);
      hide CopiedDown, ShiftedDown, Distinct, DistinctOutside, MovedDown, Shaped, AllBlank;
      ghost var l := lines;
      lines := CopiedDown(lines, top, bottom, n);
      assert Rows() <= old(Rows());
      ghost var m := lines;
      BlankEntries(top, top + n, attr, cols);
      SameOutside(l, m, lines, top, bottom, n);
      DownShown(l, lines, top, bottom, n, cols, attr);
    }

    method DeleteLines(y: nat, bottom0: nat, n0: nat, attr: Attr, ghost cols: nat)
      requires Valid(|lines|, cols) && y < |lines|
      modifies this`lines
      ensures Valid(|old(lines)|, cols) && forall r :: r in Rows() ==> r in old(Rows()) || fresh(r)
      ensures View() == LinesDeleted(old(View()), y, bottom0, n0, cols, attr)
    {
      hide ShiftedUp, ShiftedDown, Distinct, Shaped, ScreenBuffer.Rows;
      var bottom := if bottom0 >= |lines| then |lines| - 1 else bottom0;
      if y > bottom {
        bottom := |lines| - 1;
      }
      var n := if n0 > bottom - y + 1 then bottom - y + 1 else n0;
      OpenUp(y, bottom, n, attr, cols);
    }

    /** `n` rows opened up inside `[top, bottom]` and blanked. */
    method OpenUp(top: nat, bottom: nat, n: nat, attr: Attr, ghost cols: nat)
      requires Valid(|lines|, cols) && top <= bottom < |lines| && n <= bottom - top + 1
      modifies this`lines
      ensures Valid(|old(lines)|, cols) && forall r :: r in Rows() ==> r in old(Rows()) || fresh(r)
      ensures Contents(lines) == ShiftedUp(old(Contents(lines)), top, bottom, n, cols, attr)
    {
      hide ShiftedUp, Distinct, MovedUp, Shaped, AllBlank, Contents;
      ghost var l := lines;
      RowsUp(top, bottom, n, attr, cols);
      UpShown(l, lines, top, bottom, n, cols, attr);
    }

    /** The references move up, and fresh blank rows come in below. */
    method RowsUp(top: nat, bottom: nat, n: nat, attr: Attr, ghost cols: nat)
      requires Valid(|lines|, cols) && top <= bottom < |lines| && n <= bottom - top + 1
      modifies this`lines
      ensures Valid(|old(lines)|, cols) && forall r :: r in Rows() ==> r in old(Rows()) || fresh(r)
      ensures MovedUp(old(lines), lines, top, bottom, n) && AllBlank(lines, bottom + 1 - n, bottom + 1, cols, attr)
    {
      MovesDistinct(lines, top, bottom, n);
      MovesShaped(lines, top, bottom, n, cols);
      hide CopiedUp, Distinct, DistinctOutside, MovedUp, Shaped, AllBlank;
      ghost var l := lines;
      lines := CopiedUp(lines, top, bottom, n);
      assert Rows() <= old(Rows());
      ghost var m := lines;
      BlankEntries(bottom + 1 - n, bottom + 1, attr, cols);
      SameOutside(l, m, lines, top, bottom, n);
    }

    /* Edits inside one row; the others are untouched because no storage is shared. */

    method ClearCells(y: nat, start: int, end: int, attr: Attr)
      requires y < |lines| && Distinct(lines)
      modifies lines[y]
      ensures View() == old(View()).(lines := old(View()).lines[y := Cleared(old(lines[y][..]), start, end, attr)])
    {
      hide Cleared;
      ClearRange(lines[y], start, end, attr);
      assert Contents(lines) == old(Contents(lines))[y := lines[y][..]];
    }

    method InsertAt(y: nat, start: int, n: nat, attr: Attr)
      requires y < |lines| && Distinct(lines)
      modifies lines[y]
      ensures View() == old(View()).(lines := old(View()).lines[y := Inserted(old(lines[y][..]), start, n, attr)])
    {
      hide Inserted;
      InsertCells(lines[y], start, n, attr);
      assert Contents(lines) == old(Contents(lines))[y := lines[y][..]];
    }

    method DeleteAt(y: nat, start: nat, n: nat, attr: Attr)
      requires y < |lines| && Distinct(lines)
      modifies lines[y]
      ensures View() == old(View()).(lines := old(View()).lines[y := Deleted(old(lines[y][..]), start, n, attr)])
    {
      hide Deleted;
      DeleteCells(lines[y], start, n, attr);
      assert Contents(lines) == old(Contents(lines))[y := lines[y][..]];
    }

    /** A character printed on row `y`, over or before what is there. */
    method PrintAt(y: nat, x: nat, r: Rune, width: nat, insert: bool, attr: Attr)
      requires y < |lines| && Distinct(lines) && x < lines[y].Length && width <= 2
      modifies lines[y]
      ensures var row := old(lines[y][..]);
              View() == old(View()).(lines :=
                old(View()).lines[y := Printed(if insert then Inserted(row, x, width, attr) else row, x, r, width, attr)])
    {
      hide Printed, Inserted;
      if insert {
        InsertCells(lines[y], x, width, attr);
      }
      PutCell(lines[y], x, r, width, attr);
      assert Contents(lines) == old(Contents(lines))[y := lines[y][..]];
    }

    /** The rows of a resized grid: copies, cut or padded, and blanks below them. */
    method CopyLines(rows: nat, cols: nat) returns (copies: seq<Line>)
      ensures |copies| == rows && Distinct(copies) && Shaped(copies, cols) && fresh(copies)
      ensures Contents(copies) == ResizedLines(View().lines, rows, cols)
    {
      copies := [];
      var y := 0;
      while y < rows
        invariant y <= rows && |copies| == y && Distinct(copies) && Shaped(copies, cols) && fresh(copies)
        invariant forall i :: 0 <= i < y ==> copies[i][..] == ResizedLines(View().lines, rows, cols)[i]
      {
        var line := BlankLine(cols, DEFAULT_ATTR);
        if y < |lines| {
          CopyInto(line, lines[y][..]);
        }
        copies := copies + [line];
        y := y + 1;
      }
    }

    /** Rows cut off by a smaller grid go to the history, oldest first. */
    method KeepLines(count: nat)
      requires count <= |lines|
      modifies this`hist
      ensures hist == old(hist) + Contents(lines)[..count]
    {
      var i := 0;
      while i < count
        invariant i <= count
        invariant hist == old(hist) + Contents(lines)[..i]
      {
        hist := hist + [lines[i][..]];
        assert Contents(lines)[..i + 1] == Contents(lines)[..i] + [lines[i][..]];
        i := i + 1;
      }
    }

    method Resize(rows: nat, cols: nat, limit: int)
      modifies this
      ensures Valid(rows, cols) && fresh(Rows()) && View() == Resized(old(View()), rows, cols, limit)
    {
      var copies := CopyLines(rows, cols);
      if |lines| > rows && limit > 0 {
        KeepLines(|lines| - rows);
      }
      lines := copies;
      TrimHistory(limit);
    }
  }

  /** Go's `copy` of a row into a blank one. */
  method CopyInto(line: array<Cell>, row: Row)
    requires line[..] == BlankRow(line.Length, DEFAULT_ATTR)
    modifies line
    ensures line[..] == Fitted(row, line.Length)
  {
    var n := if |row| < line.Length then |row| else line.Length;
    forall i | 0 <= i < n {
      line[i] := row[i];
    }
  }
}
