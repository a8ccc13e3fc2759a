/** Control sequences that move whole rows or print, from the bytes to the rows and the history. */
module TerminalScrolling {
  import opened TerminalText
  import opened TerminalScreen
  import opened TerminalModel
  import opened TerminalInput
  import opened TerminalSequences

  function RowAt(s: Term, y: int): Row
    requires FramesOk(s) && 0 <= y < s.regs.size.rows
  {
    Active(s).lines[y]
  }

  /** A row of blanks in the pen's colours. */
  predicate Clear(row: Row, s: Term) {
    |row| == s.regs.size.cols && forall x :: 0 <= x < |row| ==> row[x] == Cell(0x20, s.regs.pen.attr)
  }

  /** Row `y` after the rows from `top` to `bottom` have moved up by `n`: the row below it, or blanks. */
  predicate MovedUp(s: Term, t: Term, top: int, bottom: int, n: nat, y: int)
    requires FramesOk(s) && FramesOk(t) && t.regs.size == s.regs.size && 0 <= y < s.regs.size.rows && bottom < s.regs.size.rows
  {
    if y < top || bottom < y then RowAt(t, y) == RowAt(s, y)
    else if y + n <= bottom then RowAt(t, y) == RowAt(s, y + n)
    else Clear(RowAt(t, y), s)
  }

  predicate MovedDown(s: Term, t: Term, top: int, bottom: int, n: nat, y: int)
    requires FramesOk(s) && FramesOk(t) && t.regs.size == s.regs.size && 0 <= y < s.regs.size.rows && 0 <= top
  {
    if y < top || bottom < y then RowAt(t, y) == RowAt(s, y)
    else if y - n >= top then RowAt(t, y) == RowAt(s, y - n)
    else Clear(RowAt(t, y), s)
  }

  /** The last row that an insertion or deletion of lines at the cursor moves. */
  function LastMoved(r: Regs): int { if r.cursor.y > r.region.bottom then r.size.rows - 1 else r.region.bottom }

  lemma ShiftedUpAt(g: Grid, top: nat, bottom: nat, n: nat, cols: nat, attr: Attr, y: nat)
    requires top <= bottom < |g| && n <= bottom - top + 1 && y < |g|
    ensures ShiftedUp(g, top, bottom, n, cols, attr)[y] == if y < top || bottom < y then g[y]
                                                           else if y + n <= bottom then g[y + n] else BlankRow(cols, attr)
  {
  }

  lemma ShiftedDownAt(g: Grid, top: nat, bottom: nat, n: nat, cols: nat, attr: Attr, y: nat)
    requires top <= bottom < |g| && n <= bottom - top + 1 && y < |g|
    ensures ShiftedDown(g, top, bottom, n, cols, attr)[y] == if y < top || bottom < y then g[y]
                                                             else if y - n >= top then g[y - n] else BlankRow(cols, attr)
  {
  }

  lemma InsertLineCells(s: Term, params: seq<nat>)
    requires WellFormed(s)
    ensures CsiCells(s, 0x4c, params) == InsertLine(s, Given(params, 0, 1))
  {
    hide InsertLine;
  }

  lemma LinesInserted(s: Term, p: Parser, n: nat)
    requires AtRest(s)
    ensures var t := Ended(InsertLine(WithParser(s, p), n));
            && Edited(s, t)
            && (forall y :: 0 <= y < s.regs.size.rows ==> MovedDown(s, t, s.regs.cursor.y, LastMoved(s.regs), n, y))
  {
    hide ShiftedDown;
    var t, c, e := Ended(InsertLine(WithParser(s, p), n)), s.regs.cursor, LastMoved(s.regs);
    forall y | 0 <= y < s.regs.size.rows
      ensures MovedDown(s, t, c.y, e, n, y)
    {
      ShiftedDownAt(Active(s).lines, c.y, e, Least(n, e - c.y + 1), s.regs.size.cols, s.regs.pen.attr, y);
    }
  }

  /** CSI n L: n blank rows at the cursor push the rows below it down. */
  lemma InsertsLines(s: Term, params: seq<nat>)
    requires AtRest(s)
    ensures var t := Feed(s, ControlSequence(params, 0x4c));
            && Edited(s, t)
            && (forall y :: 0 <= y < s.regs.size.rows ==>
                  MovedDown(s, t, s.regs.cursor.y, LastMoved(s.regs), Given(params, 0, 1), y))
  {
    hide Feed, ControlSequence, Parameters, CsiCells, InsertLine, MovedDown, Edited;
    CellsOnly(s, params, 0x4c);
    var p := Parser(Csi, Parameters(params) + [0x4c], s.regs.parser.osc);
    InsertLineCells(WithParser(s, p), params);
    LinesInserted(s, p, Given(params, 0, 1));
  }

  lemma DeleteLineCells(s: Term, params: seq<nat>)
    requires WellFormed(s)
    ensures CsiCells(s, 0x4d, params) == DeleteLine(s, Given(params, 0, 1))
  {
    hide DeleteLine;
  }

  lemma LinesDeleted(s: Term, p: Parser, n: nat)
    requires AtRest(s)
    ensures var t := Ended(DeleteLine(WithParser(s, p), n));
            && Edited(s, t)
            && (forall y :: 0 <= y < s.regs.size.rows ==> MovedUp(s, t, s.regs.cursor.y, LastMoved(s.regs), n, y))
  {
    hide ShiftedUp;
    var t, c, e := Ended(DeleteLine(WithParser(s, p), n)), s.regs.cursor, LastMoved(s.regs);
    forall y | 0 <= y < s.regs.size.rows
      ensures MovedUp(s, t, c.y, e, n, y)
    {
      ShiftedUpAt(Active(s).lines, c.y, e, Least(n, e - c.y + 1), s.regs.size.cols, s.regs.pen.attr, y);
    }
  }

  /** CSI n M: n rows go, the rows below come up, and blank rows follow. */
  lemma DeletesLines(s: Term, params: seq<nat>)
    requires AtRest(s)
    ensures var t := Feed(s, ControlSequence(params, 0x4d));
            && Edited(s, t)
            && (forall y :: 0 <= y < s.regs.size.rows ==>
                  MovedUp(s, t, s.regs.cursor.y, LastMoved(s.regs), Given(params, 0, 1), y))
  {
    hide Feed, ControlSequence, Parameters, CsiCells, DeleteLine, MovedUp, Edited;
    CellsOnly(s, params, 0x4d);
    var p := Parser(Csi, Parameters(params) + [0x4d], s.regs.parser.osc);
    DeleteLineCells(WithParser(s, p), params);
    LinesDeleted(s, p, Given(params, 0, 1));
  }

  /* ------------------------------------------------------------------ */
  /* Scrolling.                                                           */
  /* ------------------------------------------------------------------ */

  /** The rows that `n` scrolls push off the top of the screen. */
  function PushedOff(s: Term, n: nat): (g: Grid)
    ensures |g| == n
  {
    (Active(s).lines + BlankRows(n, s.regs.size.cols, s.regs.pen.attr))[..n]
  }

  /** The newest rows, as many as the limit allows. */
  function Newest(g: Grid, limit: nat): Grid { if |g| > limit then g[|g| - limit..] else g }

  /** What is remembered: rows pushed off the top, if the margins are those of the screen and there is a history. */
  predicate Remembers(s: Term, t: Term, n: nat) {
    var r := s.regs;
    Active(t).hist == if r.size.limit > 0 && r.region == Region(0, r.size.rows - 1)
                      then Newest(Active(s).hist + PushedOff(s, n), r.size.limit)
                      else Active(s).hist
  }

  /** The screen not on show stays. */
  predicate OtherStays(s: Term, t: Term) { if s.regs.modes.altScreen then t.main == s.main else t.alt == s.alt }

  lemma NewestTwice(a: Grid, b: Grid, limit: nat)
    ensures Newest(Newest(a, limit) + b, limit) == Newest(a + b, limit)
  {
  }

  lemma OnceUp(s: Term)
    requires FramesOk(s)
    ensures var t := ScrollUpOnce(s);
            && OtherStays(s, t) && Remembers(s, t, 1)
            && (forall y :: 0 <= y < s.regs.size.rows ==> MovedUp(s, t, s.regs.region.top, s.regs.region.bottom, 1, y))
  {
    hide ShiftedUp;
    var r, t, g := s.regs, ScrollUpOnce(s), Active(s).lines;
    forall y | 0 <= y < r.size.rows
      ensures MovedUp(s, t, r.region.top, r.region.bottom, 1, y)
    {
      ShiftedUpAt(g, r.region.top, r.region.bottom, 1, r.size.cols, r.pen.attr, y);
    }
    assert PushedOff(s, 1) == [g[0]];
  }

  lemma OnceDown(s: Term)
    requires FramesOk(s)
    ensures var t := ScrollDownOnce(s);
            && OtherStays(s, t) && Active(t).hist == Active(s).hist
            && (forall y :: 0 <= y < s.regs.size.rows ==> MovedDown(s, t, s.regs.region.top, s.regs.region.bottom, 1, y))
  {
    hide ShiftedDown;
    var r, t := s.regs, ScrollDownOnce(s);
    forall y | 0 <= y < r.size.rows
      ensures MovedDown(s, t, r.region.top, r.region.bottom, 1, y)
    {
      ShiftedDownAt(Active(s).lines, r.region.top, r.region.bottom, 1, r.size.cols, r.pen.attr, y);
    }
  }

  /** One scroll and then `n` more. */
  lemma UpAgain(s: Term, m: Term, t: Term, n: nat, y: int)
    requires FramesOk(s) && FramesOk(m) && FramesOk(t) && m.regs == s.regs && t.regs == s.regs && 0 <= y < s.regs.size.rows
    requires forall k :: 0 <= k < s.regs.size.rows ==> MovedUp(s, m, s.regs.region.top, s.regs.region.bottom, 1, k)
    requires MovedUp(m, t, s.regs.region.top, s.regs.region.bottom, n, y)
    ensures MovedUp(s, t, s.regs.region.top, s.regs.region.bottom, n + 1, y)
  {
    var r := s.regs.region;
    assert MovedUp(s, m, r.top, r.bottom, 1, y);
    if r.top <= y && y + n <= r.bottom {
      assert MovedUp(s, m, r.top, r.bottom, 1, y + n);
    }
  }

  lemma DownAgain(s: Term, m: Term, t: Term, n: nat, y: int)
    requires FramesOk(s) && FramesOk(m) && FramesOk(t) && m.regs == s.regs && t.regs == s.regs && 0 <= y < s.regs.size.rows
    requires forall k :: 0 <= k < s.regs.size.rows ==> MovedDown(s, m, s.regs.region.top, s.regs.region.bottom, 1, k)
    requires MovedDown(m, t, s.regs.region.top, s.regs.region.bottom, n, y)
    ensures MovedDown(s, t, s.regs.region.top, s.regs.region.bottom, n + 1, y)
  {
    var r := s.regs.region;
    assert MovedDown(s, m, r.top, r.bottom, 1, y);
    if y <= r.bottom && y - n >= r.top {
      assert MovedDown(s, m, r.top, r.bottom, 1, y - n);
    }
  }

  /** What one scroll and `n` more push off the top of a full screen. */
  lemma PushedAgain(s: Term, m: Term, n: nat)
    requires FramesOk(s) && FramesOk(m) && m.regs == s.regs && s.regs.region == Region(0, s.regs.size.rows - 1)
    requires forall k :: 0 <= k < s.regs.size.rows ==> MovedUp(s, m, s.regs.region.top, s.regs.region.bottom, 1, k)
    ensures PushedOff(s, 1) + PushedOff(m, n) == PushedOff(s, n + 1)
  {
    var g, h, rows := Active(s).lines, Active(m).lines, s.regs.size.rows;
    var blanks := BlankRows(n + 1, s.regs.size.cols, s.regs.pen.attr);
    var all := g + blanks;
    assert PushedOff(s, 1) == [all[0]];
    forall k | 0 <= k < n
      ensures PushedOff(m, n)[k] == all[k + 1]
    {
      if k < rows {
        assert MovedUp(s, m, 0, rows - 1, 1, k);
        if k + 1 == rows {
          ClearIsBlank(h[k], s);
        }
      }
    }
  }

  lemma ClearIsBlank(row: Row, s: Term)
    requires Clear(row, s)
    ensures row == BlankRow(s.regs.size.cols, s.regs.pen.attr)
  {
  }

  lemma {:induction false} ManyUp(s: Term, n: nat)
    requires FramesOk(s)
    ensures var t := ScrollUp(s, n);
            && OtherStays(s, t) && Remembers(s, t, n)
            && (forall y :: 0 <= y < s.regs.size.rows ==> MovedUp(s, t, s.regs.region.top, s.regs.region.bottom, n, y))
    decreases n
  {
    hide ScrollUpOnce, ScreenOk, Clear, PushedOff;
    if n == 0 {
      NonePushed(s);
    } else {
      var m := ScrollUpOnce(s);
      OnceUp(s);
      ManyUp(m, n - 1);
      var t := ScrollUp(s, n);
      forall y | 0 <= y < s.regs.size.rows
        ensures MovedUp(s, t, s.regs.region.top, s.regs.region.bottom, n, y)
      {
        UpAgain(s, m, t, n - 1, y);
      }
      RemembersAgain(s, m, t, n - 1);
    }
  }

  lemma NonePushed(s: Term)
    requires FramesOk(s)
    ensures Remembers(s, s, 0)
  {
    assert Active(s).hist + PushedOff(s, 0) == Active(s).hist;
  }

  lemma RemembersAgain(s: Term, m: Term, t: Term, n: nat)
    requires FramesOk(s) && FramesOk(m) && m.regs == s.regs && Remembers(s, m, 1) && Remembers(m, t, n)
    requires forall k :: 0 <= k < s.regs.size.rows ==> MovedUp(s, m, s.regs.region.top, s.regs.region.bottom, 1, k)
    ensures Remembers(s, t, n + 1)
  {
    hide FramesOk, PushedOff, MovedUp, Newest;
    var r := s.regs;
    if r.size.limit > 0 && r.region == Region(0, r.size.rows - 1) {
      PushedAgain(s, m, n);
      var h, a, b := Active(s).hist, PushedOff(s, 1), PushedOff(m, n);
      NewestTwice(h + a, b, r.size.limit);
      assert h + a + b == h + (a + b);
    }
  }

  lemma {:induction false} ManyDown(s: Term, n: nat)
    requires FramesOk(s)
    ensures var t := ScrollDown(s, n);
            && OtherStays(s, t) && Active(t).hist == Active(s).hist
            && (forall y :: 0 <= y < s.regs.size.rows ==> MovedDown(s, t, s.regs.region.top, s.regs.region.bottom, n, y))
    decreases n
  {
    hide ScrollDownOnce, ScreenOk, Clear;
    if n > 0 {
      var m := ScrollDownOnce(s);
      OnceDown(s);
      ManyDown(m, n - 1);
      var t := ScrollDown(s, n);
      forall y | 0 <= y < s.regs.size.rows
        ensures MovedDown(s, t, s.regs.region.top, s.regs.region.bottom, n, y)
      {
        DownAgain(s, m, t, n - 1, y);
      }
    }
  }

  lemma ScrollUpCells(s: Term, params: seq<nat>)
    requires WellFormed(s)
    ensures CsiCells(s, 0x53, params) == ScrollUp(s, Given(params, 0, 1))
  {
    hide ScrollUp;
  }

  lemma ScrollDownCells(s: Term, params: seq<nat>)
    requires WellFormed(s)
    ensures CsiCells(s, 0x54, params) == ScrollDown(s, Given(params, 0, 1))
  {
    hide ScrollDown;
  }

  /** CSI n S: the rows between the margins move up; a full screen pushes its first rows into the history. */
  lemma ScrollsUp(s: Term, params: seq<nat>)
    requires AtRest(s)
    ensures var t, n := Feed(s, ControlSequence(params, 0x53)), Given(params, 0, 1);
            && FramesOk(t) && t.regs == s.regs.(cursor := Cursor(Column(s), s.regs.cursor.y), parser := t.regs.parser)
            && t.regs.parser.state == Ground && OtherStays(s, t) && Remembers(s, t, n)
            && (forall y :: 0 <= y < s.regs.size.rows ==> MovedUp(s, t, s.regs.region.top, s.regs.region.bottom, n, y))
  {
    hide Feed, ControlSequence, Parameters, ScrollUp, ScreenOk, PushedOff, Newest, Clear, CsiCells;
    var t, n := Feed(s, ControlSequence(params, 0x53)), Given(params, 0, 1);
    CellsOnly(s, params, 0x53);
    ScrollUpCells(WithParser(s, Parser(Csi, Parameters(params) + [0x53], s.regs.parser.osc)), params);
    var p := WithParser(s, Parser(Csi, Parameters(params) + [0x53], s.regs.parser.osc));
    ManyUp(p, n);
    var e := ScrollUp(p, n);
    PushedSame(s, p, n);
    forall y | 0 <= y < s.regs.size.rows
      ensures MovedUp(s, t, s.regs.region.top, s.regs.region.bottom, n, y)
    {
      assert MovedUp(p, e, s.regs.region.top, s.regs.region.bottom, n, y);
      ClearSame(RowAt(t, y), s, p);
    }
  }

  lemma PushedSame(s: Term, p: Term, n: nat)
    requires p == s.(regs := s.regs.(parser := p.regs.parser))
    ensures PushedOff(p, n) == PushedOff(s, n)
  {
  }

  lemma ClearSame(row: Row, s: Term, p: Term)
    requires p == s.(regs := s.regs.(parser := p.regs.parser))
    ensures Clear(row, p) <==> Clear(row, s)
  {
  }

  /** CSI n T: the rows between the margins move down. */
  lemma ScrollsDown(s: Term, params: seq<nat>)
    requires AtRest(s)
    ensures var t, n := Feed(s, ControlSequence(params, 0x54)), Given(params, 0, 1);
            && Edited(s, t)
            && (forall y :: 0 <= y < s.regs.size.rows ==> MovedDown(s, t, s.regs.region.top, s.regs.region.bottom, n, y))
  {
    hide Feed, ControlSequence, Parameters, ScrollDown, ScreenOk, Clear, CsiCells;
    var t, n := Feed(s, ControlSequence(params, 0x54)), Given(params, 0, 1);
    CellsOnly(s, params, 0x54);
    ScrollDownCells(WithParser(s, Parser(Csi, Parameters(params) + [0x54], s.regs.parser.osc)), params);
    var p := WithParser(s, Parser(Csi, Parameters(params) + [0x54], s.regs.parser.osc));
    ManyDown(p, n);
    var e := ScrollDown(p, n);
    forall y | 0 <= y < s.regs.size.rows
      ensures MovedDown(s, t, s.regs.region.top, s.regs.region.bottom, n, y)
    {
      assert MovedDown(p, e, s.regs.region.top, s.regs.region.bottom, n, y);
      ClearSame(RowAt(t, y), s, p);
    }
  }

  /* ------------------------------------------------------------------ */
  /* Line feeds and printing.                                             */
  /* ------------------------------------------------------------------ */

  /** A line feed goes one row down; at the bottom margin the rows move up instead, and on the last row nothing happens. */
  lemma LineFeedIs(s: Term)
    requires WellFormed(s)
    ensures var t, c := LineFeed(s), s.regs.cursor;
            && t.regs == s.regs.(cursor := Cursor(c.x, if c.y == s.regs.region.bottom || c.y == s.regs.size.rows - 1 then c.y else c.y + 1))
            && OtherStays(s, t)
            && (c.y != s.regs.region.bottom ==> t.main == s.main && t.alt == s.alt)
            && (c.y == s.regs.region.bottom ==>
                  && Remembers(s, t, 1)
                  && forall y :: 0 <= y < s.regs.size.rows ==> MovedUp(s, t, s.regs.region.top, s.regs.region.bottom, 1, y))
  {
    hide ScrollUpOnce, ScreenOk, Clear, PushedOff;
    if s.regs.cursor.y == s.regs.region.bottom {
      OnceUp(s);
    }
  }

  /** A reverse line feed goes one row up; at the top margin the rows move down instead. */
  lemma ReverseIndexIs(s: Term)
    requires WellFormed(s)
    ensures var t, c := ReverseIndex(s), s.regs.cursor;
            && t.regs == s.regs.(cursor := Cursor(c.x, if c.y == s.regs.region.top || c.y == 0 then c.y else c.y - 1))
            && OtherStays(s, t) && Active(t).hist == Active(s).hist
            && (c.y != s.regs.region.top ==> t.main == s.main && t.alt == s.alt)
            && (c.y == s.regs.region.top ==>
                  forall y :: 0 <= y < s.regs.size.rows ==> MovedDown(s, t, s.regs.region.top, s.regs.region.bottom, 1, y))
  {
    hide ScrollDownOnce, ScreenOk, Clear;
    if s.regs.cursor.y == s.regs.region.top {
      OnceDown(s);
    }
  }

  /** How many line feeds come before a character of this width: one for a pending wrap, one if it does not fit the row. */
  function Wraps(r: Regs, width: nat): nat {
    if !r.modes.autoWrap then 0
    else
      var x := if r.cursor.x >= r.size.cols then 0 else r.cursor.x;
      (if r.cursor.x >= r.size.cols then 1 else 0) + if x + width > r.size.cols then 1 else 0
  }

  /** So many line feeds. */
  function Fed(s: Term, n: nat): (t: Term)
    requires WellFormed(s)
    ensures WellFormed(t)
    decreases n
  {
    hide LineFeed, ScreenOk;
    if n == 0 then s else Fed(LineFeed(s), n - 1)
  }

  /** The column of the character: where the cursor is, the last one without wrapping, the first one after a wrap. */
  function PrintColumn(r: Regs, width: nat): int {
    if Wraps(r, width) > 0 then 0 else Least(r.cursor.x, r.size.cols - 1)
  }

  lemma PlacedIs(s: Term, width: nat)
    requires WellFormed(s) && width > 0
    ensures WellFormed(WithCursor(s, PrintColumn(s.regs, width), s.regs.cursor.y))
    ensures Placed(s, width) == Fed(WithCursor(s, PrintColumn(s.regs, width), s.regs.cursor.y), Wraps(s.regs, width))
  {
    hide LineFeed, ScreenOk;
    var c, cols := s.regs.cursor, s.regs.size.cols;
    if Wraps(s.regs, width) == 2 {
      var one := LineFeed(WithCursor(s, 0, c.y));
      assert WithCursor(one, 0, one.regs.cursor.y) == one;
    }
  }

  /** The screen after a character of width `w` was put at column `x` of row `y`. */
  predicate Put(p: Term, t: Term, r: Regs, c: Rune, w: nat, x: int, y: int)
    requires FramesOk(p) && FramesOk(t) && p.regs.size == t.regs.size == r.size && 0 <= x < r.size.cols && 0 <= y < r.size.rows
  {
    var shift := if r.modes.insert then w else 0;
    && Active(t).hist == Active(p).hist && OtherStays(p, t)
    && (forall k :: 0 <= k < r.size.rows && k != y ==> RowAt(t, k) == RowAt(p, k))
    && (forall k :: 0 <= k < r.size.cols ==>
          RowAt(t, y)[k] == if k == x then Cell(c, r.pen.attr)
                            else if w == 2 && k == x + 1 then Cell(0, r.pen.attr)
                            else RowAt(p, y)[if k < x then k else Most(k - shift, x)])
  }

  /**
   A character appears in the pen's colours in the column the rule gives, in the row of the cursor after
   the line feeds. A wide one takes the next cell as well. The rest of the row stays, or moves to the
   right in insert mode; other rows are as the line feeds left them. The cursor ends behind it, past the
   last column only if lines wrap.
   */
  lemma CharacterLands(s: Term, c: Rune)
    requires WellFormed(s) && RuneWidth(c, s.regs.size.marks) > 0
    ensures var w, r := RuneWidth(c, s.regs.size.marks), s.regs;
            var x := PrintColumn(r, w);
            && WellFormed(WithCursor(s, x, r.cursor.y))
            && (var p, t := Fed(WithCursor(s, x, r.cursor.y), Wraps(r, w)), PrintRune(s, c);
                var y := p.regs.cursor.y;
                && p.regs == r.(cursor := Cursor(x, y)) && 0 <= x < r.size.cols
                && t.regs == r.(cursor := Cursor(Least(x + w, if r.modes.autoWrap then r.size.cols else r.size.cols - 1), y),
                                last := Last(MapCharset(r.pen, c), r.pen.attr, true))
                && Put(p, t, r, MapCharset(r.pen, c), w, x, y))
  {
    hide Fed, Placed, LineFeed, PrintedRow;
    var w, r := RuneWidth(c, s.regs.size.marks), s.regs;
    PlacedIs(s, w);
    var p := Placed(s, w);
    FedRegs(WithCursor(s, PrintColumn(r, w), r.cursor.y), Wraps(r, w));
    var t, x, y := PrintRune(s, c), p.regs.cursor.x, p.regs.cursor.y;
    var c', row := MapCharset(r.pen, c), CursorRow(p);
    assert Active(t).lines == Active(p).lines[y := PrintedRow(p.regs, row, c', w)];
    forall k | 0 <= k < r.size.cols
      ensures RowAt(t, y)[k] == if k == x then Cell(c', r.pen.attr)
                                else if w == 2 && k == x + 1 then Cell(0, r.pen.attr)
                                else RowAt(p, y)[if k < x then k else Most(k - (if r.modes.insert then w else 0), x)]
    {
      PrintedAt(p.regs, row, c', w, k);
    }
  }

  lemma PrintedAt(r: Regs, row: Row, c: Rune, w: nat, k: nat)
    requires 0 <= r.cursor.x < |row| && k < |row| && 1 <= w <= 2
    ensures PrintedRow(r, row, c, w)[k] == if k == r.cursor.x then Cell(c, r.pen.attr)
                                           else if w == 2 && k == r.cursor.x + 1 then Cell(0, r.pen.attr)
                                           else row[if k < r.cursor.x then k else Most(k - (if r.modes.insert then w else 0), r.cursor.x)]
  {
    hide Inserted;
    InsertedAt(row, r.cursor.x, w, r.pen.attr, k);
  }

  lemma {:induction false} FedRegs(s: Term, n: nat)
    requires WellFormed(s)
    ensures Fed(s, n).regs == s.regs.(cursor := Fed(s, n).regs.cursor) && Fed(s, n).regs.cursor.x == s.regs.cursor.x
    decreases n
  {
    hide LineFeed, ScreenOk;
    if n > 0 {
      FedRegs(LineFeed(s), n - 1);
    }
  }

  /* ------------------------------------------------------------------ */
  /* Repeating.                                                           */
  /* ------------------------------------------------------------------ */

  /** A box character of the line-drawing set stays itself. */
  lemma DrawnTwice(p: Pen, c: Rune)
    ensures MapCharset(p, MapCharset(p, c)) == MapCharset(p, c)
  {
  }

  /** `n` narrow characters fit the row from the cursor on. */
  predicate Fits(s: Term, n: nat) {
    && WellFormed(s) && !s.regs.modes.insert && s.regs.cursor.x + n <= s.regs.size.cols
    && RuneWidth(s.regs.last.r, s.regs.size.marks) == 1
    && RuneWidth(MapCharset(s.regs.pen, s.regs.last.r), s.regs.size.marks) == 1
  }

  /** Cells `[x, x + n)` of the cursor's row hold the character, and the other cells what they held. */
  predicate Filled(s: Term, t: Term, c: Rune, n: nat)
    requires FramesOk(s) && FramesOk(t) && t.regs.size == s.regs.size
  {
    var a := s.regs.cursor;
    && Active(t).hist == Active(s).hist && OtherStays(s, t)
    && (forall x, y :: 0 <= x < s.regs.size.cols && 0 <= y < s.regs.size.rows ==>
          Shown(t, x, y) == if y == a.y && a.x <= x < a.x + n then Cell(c, s.regs.pen.attr) else Shown(s, x, y))
  }

  lemma {:induction false} PrintsAgain(s: Term, n: nat)
    requires Fits(s, n)
    ensures var t, c, cols := PrintLast(s, n), MapCharset(s.regs.pen, s.regs.last.r), s.regs.size.cols;
            && Filled(s, t, c, n)
            && t.regs.cursor == Cursor(if n == 0 then s.regs.cursor.x
                                       else Least(s.regs.cursor.x + n, if s.regs.modes.autoWrap then cols else cols - 1), s.regs.cursor.y)
    decreases n
  {
    hide PrintRune, ScreenOk, MapCharset, RuneWidth;
    if n > 0 {
      var c := MapCharset(s.regs.pen, s.regs.last.r);
      var m := PrintRune(s, s.regs.last.r);
      PrintsOne(s);
      DrawnTwice(s.regs.pen, s.regs.last.r);
      if n > 1 {
        PrintsAgain(m, n - 1);
        FilledMore(s, m, PrintLast(m, n - 1), c, n - 1);
      }
    }
  }

  lemma PrintsOne(s: Term)
    requires Fits(s, 1)
    ensures var m, c, cols := PrintRune(s, s.regs.last.r), MapCharset(s.regs.pen, s.regs.last.r), s.regs.size.cols;
            && Filled(s, m, c, 1)
            && m.regs == s.regs.(cursor := Cursor(Least(s.regs.cursor.x + 1, if s.regs.modes.autoWrap then cols else cols - 1), s.regs.cursor.y),
                                 last := Last(c, s.regs.pen.attr, true))
  {
    hide PrintRune, ScreenOk, MapCharset, RuneWidth;
    CharacterLands(s, s.regs.last.r);
    assert Fed(WithCursor(s, s.regs.cursor.x, s.regs.cursor.y), 0) == s;
    PutFills(s, PrintRune(s, s.regs.last.r), MapCharset(s.regs.pen, s.regs.last.r));
  }

  lemma PutFills(s: Term, t: Term, c: Rune)
    requires WellFormed(s) && FramesOk(t) && t.regs.size == s.regs.size && s.regs.cursor.x < s.regs.size.cols && !s.regs.modes.insert
    requires Put(s, t, s.regs, c, 1, s.regs.cursor.x, s.regs.cursor.y)
    ensures Filled(s, t, c, 1)
  {
    var a := s.regs.cursor;
    forall x, y | 0 <= x < s.regs.size.cols && 0 <= y < s.regs.size.rows
      ensures Shown(t, x, y) == if y == a.y && a.x <= x < a.x + 1 then Cell(c, s.regs.pen.attr) else Shown(s, x, y)
    {
      assert y != a.y ==> RowAt(t, y) == RowAt(s, y);
      assert RowAt(t, a.y)[x] == if x == a.x then Cell(c, s.regs.pen.attr) else RowAt(s, a.y)[if x < a.x then x else Most(x, a.x)];
    }
  }

  lemma FilledMore(s: Term, m: Term, t: Term, c: Rune, n: nat)
    requires FramesOk(s) && FramesOk(m) && FramesOk(t) && m.regs.size == s.regs.size == t.regs.size
    requires Filled(s, m, c, 1) && Filled(m, t, c, n) && m.regs.modes == s.regs.modes && m.regs.pen == s.regs.pen
    requires m.regs.cursor == Cursor(s.regs.cursor.x + 1, s.regs.cursor.y)
    ensures Filled(s, t, c, n + 1)
  {
    hide ScreenOk;
  }

  lemma RepeatCells(s: Term, params: seq<nat>)
    requires WellFormed(s)
    ensures CsiCells(s, 0x62, params) == RepeatLast(s, Given(params, 0, 1))
  {
    hide RepeatLast;
  }

  /** CSI n b: the last character again, n times, in the colours it had; the pen keeps its own. */
  lemma Repeats(s: Term, params: seq<nat>)
    requires AtRest(s) && s.regs.last.valid && Fits(s, Given(params, 0, 1))
    ensures var t, n, c := Feed(s, ControlSequence(params, 0x62)), Given(params, 0, 1), s.regs.cursor;
            && FramesOk(t) && t.regs.size == s.regs.size && t.regs.pen == s.regs.pen && t.regs.parser.state == Ground
            && t.regs.cursor == Cursor(Least(c.x + n, s.regs.size.cols - 1), c.y)
            && Filled(WithAttr(s, s.regs.last.attr), t, MapCharset(s.regs.pen, s.regs.last.r), n)
  {
    hide Feed, ControlSequence, Parameters, PrintLast, ScreenOk, RuneWidth, CsiCells, Filled;
    var n := Given(params, 0, 1);
    CellsOnly(s, params, 0x62);
    RepeatCells(WithParser(s, Parser(Csi, Parameters(params) + [0x62], s.regs.parser.osc)), params);
    var p := WithParser(s, Parser(Csi, Parameters(params) + [0x62], s.regs.parser.osc));
    PrintsAgain(WithAttr(p, s.regs.last.attr), n);
    FilledAlike(WithAttr(p, s.regs.last.attr), WithAttr(s, s.regs.last.attr), PrintLast(WithAttr(p, s.regs.last.attr), n),
                Feed(s, ControlSequence(params, 0x62)), MapCharset(s.regs.pen, s.regs.last.r), n);
  }

  /** Registers other than size, pen, modes and cursor do not matter to what is shown. */
  lemma FilledAlike(s: Term, s': Term, t: Term, t': Term, c: Rune, n: nat)
    requires FramesOk(s) && FramesOk(t) && FramesOk(s') && FramesOk(t') && t.regs.size == s.regs.size == s'.regs.size == t'.regs.size
    requires s'.main == s.main && s'.alt == s.alt && t'.main == t.main && t'.alt == t.alt && t'.regs.modes == t.regs.modes
    requires s'.regs.modes == s.regs.modes && s'.regs.cursor == s.regs.cursor && s'.regs.pen == s.regs.pen && Filled(s, t, c, n)
    ensures Filled(s', t', c, n)
  {
    forall x, y | 0 <= x < s.regs.size.cols && 0 <= y < s.regs.size.rows
      ensures Shown(t', x, y) == Shown(t, x, y) && Shown(s', x, y) == Shown(s, x, y)
    {
    }
  }

  /** Before anything was printed there is nothing to repeat. */
  lemma NothingToRepeat(s: Term, params: seq<nat>)
    requires AtRest(s) && !s.regs.last.valid
    ensures Points(s, Feed(s, ControlSequence(params, 0x62)), Column(s), s.regs.cursor.y)
  {
    hide Feed, ScreenOk;
    CellsOnly(s, params, 0x62);
  }

  /** Repeating in several goes is the same as in one. */
  lemma {:induction false} RepeatsSplit(s: Term, a: nat, b: nat)
    requires WellFormed(s)
    ensures PrintLast(s, a + b) == PrintLast(PrintLast(s, a), b)
    decreases a
  {
    hide PrintRune, ScreenOk;
    if a > 0 {
      RepeatsSplit(PrintRune(s, s.regs.last.r), a - 1, b);
    }
  }
}
