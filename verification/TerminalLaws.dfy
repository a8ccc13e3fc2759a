/** What the terminal's operations mean, cell by cell and against one another. */
module TerminalLaws {
  import opened TerminalText
  import opened TerminalScreen
  import opened TerminalModel

  /** The cell at column `x` of row `y` of the screen on show. */
  function CellAt(s: Term, x: nat, y: nat): Cell
    requires FramesOk(s) && x < s.regs.size.cols && y < s.regs.size.rows
  {
    Active(s).lines[y][x]
  }

  /** Whether a cell comes before the cursor in reading order. */
  predicate BeforeCursor(c: Cursor, x: int, y: int) { y < c.y || (y == c.y && x < c.x) }

  /**
   Erasing the display blanks, in reading order, the cells from the cursor on (mode 0),
   those up to and including the cursor (mode 1), or all of them (modes 2 and 3), and no
   others.
   */
  lemma EraseInReadingOrder(s: Term, mode: nat, x: nat, y: nat)
    requires WellFormed(s) && x < s.regs.size.cols && y < s.regs.size.rows
    ensures var erased := if mode == 2 || mode == 3 then true
                          else if mode == 1 then BeforeCursor(s.regs.cursor, x, y) || s.regs.cursor == Cursor(x, y)
                          else !BeforeCursor(s.regs.cursor, x, y);
            CellAt(EraseDisplay(s, mode), x, y) == if erased then Blank(s.regs.pen.attr) else CellAt(s, x, y)
  {
  }

  /** A printed character appears where the cursor is, after any wrap, and the other rows stay. */
  lemma PrintShows(s: Term, c: Rune)
    requires WellFormed(s) && RuneWidth(c, s.regs.size.marks) > 0
    ensures var p, t := Placed(s, RuneWidth(c, s.regs.size.marks)), PrintRune(s, c);
            && CellAt(t, p.regs.cursor.x, p.regs.cursor.y) == Cell(MapCharset(s.regs.pen, c), s.regs.pen.attr)
            && forall y :: 0 <= y < s.regs.size.rows && y != p.regs.cursor.y ==> Active(t).lines[y] == Active(p).lines[y]
  {
    hide Placed, Advanced, Inserted;
    var width := RuneWidth(c, s.regs.size.marks);
    var p, t := Placed(s, width), PrintRune(s, c);
    var row := PrintedRow(p.regs, CursorRow(p), MapCharset(p.regs.pen, c), width);
    assert Active(t).lines == Active(p).lines[p.regs.cursor.y := row];
  }

  /** A full-screen scroll keeps every row: history and screen together gain one blank row at the end. */
  lemma ScrollConserves(b: Screen, limit: nat, cols: nat, attr: Attr)
    requires |b.lines| > 0 && |b.hist| < limit
    ensures var t := ScrolledUp(b, 0, |b.lines| - 1, limit, cols, attr);
            t.hist + t.lines == b.hist + b.lines + [BlankRow(cols, attr)]
  {
    var t := ScrolledUp(b, 0, |b.lines| - 1, limit, cols, attr);
    assert t.hist == b.hist + [b.lines[0]];
    assert t.lines == b.lines[1..] + BlankRows(1, cols, attr);
    assert BlankRows(1, cols, attr) == [BlankRow(cols, attr)];
    assert b.lines == [b.lines[0]] + b.lines[1..];
  }

  /** Inserting blanks and deleting them again gives back what was not pushed off the end. */
  lemma InsertThenDelete(row: Row, at: nat, n: nat, attr: Attr)
    requires at + n <= |row|
    ensures Deleted(Inserted(row, at, n, attr), at, n, attr) == row[..|row| - n] + BlankRow(n, attr)
  {
    var i := Inserted(row, at, n, attr);
    if at < |row| {
      assert i[..at] == row[..at] && i[at + n..] == row[at..|row| - n];
      assert row[..at] + row[at..|row| - n] == row[..|row| - n];
    }
  }

  /** A saved cursor comes back, but for a pending wrap. */
  lemma RestoreUndoesSave(r: Regs)
    requires r.size.cols > 0 && r.size.rows > 0 && CursorOk(r.cursor, r.size)
    ensures var c := RestoreCursor(SaveCursor(r)).cursor;
            c.y == r.cursor.y && c.x == if r.cursor.x < r.size.cols then r.cursor.x else r.size.cols - 1
  {
  }

  /** Leaving the alternate screen shows the main one as it was, with the cursor where it was. */
  lemma AlternateComesBack(s: Term)
    requires WellFormed(s)
    ensures var t := SetPrivateMode1(SetPrivateMode1(s, 1049, true), 1049, false);
            && !t.regs.modes.altScreen && t.main == s.main && Active(t) == s.main
            && t.regs.cursor == ClampTo(s.regs.cursor, s.regs.size)
  {
  }
}
