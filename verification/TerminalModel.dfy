/**
 The terminal emulator as a function of its input: registers, two screens, and a
 byte-driven parser. Every operation keeps `WellFormed`.
 */
module TerminalModel {
  import opened MachineTypes
  import opened TerminalText
  import opened TerminalScreen

  datatype Cursor = Cursor(x: int, y: int)

  const HOME := Cursor(0, 0)

  datatype ParserState = Ground | Escape | Csi | Osc | CharsetG0 | CharsetG1

  /** The grid's size, the history limit and the set of non-spacing marks: fixed by size alone. */
  datatype Size = Size(cols: nat, rows: nat, limit: nat, marks: set<Rune>)

  datatype Region = Region(top: int, bottom: int)

  datatype Modes = Modes(visible: bool, altScreen: bool, insert: bool, origin: bool, autoWrap: bool)

  datatype Pen = Pen(attr: Attr, activeSet: nat, g0LineDraw: bool, g1LineDraw: bool)

  /** The last character printed, for the repeat sequence. */
  datatype Last = Last(r: Rune, attr: Attr, valid: bool)

  datatype Parser = Parser(state: ParserState, esc: seq<byte>, osc: seq<byte>)

  /** Everything but the cells. */
  datatype Regs = Regs(size: Size, region: Region, cursor: Cursor, saved: Cursor, altSaved: Cursor,
                       modes: Modes, pen: Pen, last: Last, title: seq<byte>, parser: Parser)

  datatype Term = Term(regs: Regs, main: Screen, alt: Screen)

  /* ------------------------------------------------------------------ */
  /* What every reachable state satisfies.                                */
  /* ------------------------------------------------------------------ */

  predicate ScreenOk(b: Screen, z: Size) {
    Rectangular(b.lines, z.rows, z.cols) && |b.hist| <= z.limit
  }

  predicate RegionOk(g: Region, z: Size) {
    z.cols > 0 && z.rows > 0 && 0 <= g.top <= g.bottom < z.rows
  }

  /** On the screen, or just past the last column while a wrap is pending. */
  predicate CursorOk(c: Cursor, z: Size) {
    0 <= c.x <= z.cols && 0 <= c.y < z.rows
  }

  /** All but the cursor, which control sequences clamp at their end. */
  predicate FramesOk(s: Term) {
    RegionOk(s.regs.region, s.regs.size) && ScreenOk(s.main, s.regs.size) && ScreenOk(s.alt, s.regs.size)
  }

  predicate WellFormed(s: Term) {
    FramesOk(s) && CursorOk(s.regs.cursor, s.regs.size)
  }

  predicate SameSize(s: Term, t: Term) { t.regs.size == s.regs.size }

  function Active(s: Term): Screen { if s.regs.modes.altScreen then s.alt else s.main }

  function WithActive(s: Term, b: Screen): Term {
    if s.regs.modes.altScreen then s.(alt := b) else s.(main := b)
  }

  function WithRegs(s: Term, r: Regs): Term { s.(regs := r) }

  function WithCursor(s: Term, x: int, y: int): Term {
    s.(regs := s.regs.(cursor := Cursor(x, y)))
  }

  function ClampTo(c: Cursor, z: Size): (d: Cursor)
    requires z.cols > 0 && z.rows > 0
    ensures 0 <= d.x < z.cols && 0 <= d.y < z.rows
    ensures 0 <= c.x < z.cols && 0 <= c.y < z.rows ==> d == c
  {
    Cursor(Clamp(c.x, 0, z.cols - 1), Clamp(c.y, 0, z.rows - 1))
  }

  /* ------------------------------------------------------------------ */
  /* Cursor movement, scrolling and printing.                             */
  /* ------------------------------------------------------------------ */

  function ScrollUpOnce(s: Term): (t: Term)
    requires FramesOk(s)
    ensures FramesOk(t) && t.regs == s.regs
  {
    var r, b := s.regs, Active(s);
    ShiftsKeepShape(b.lines, r.region.top, r.region.bottom, 1, r.size.cols, r.pen.attr);
    WithActive(s, ScrolledUp(b, r.region.top, r.region.bottom, r.size.limit, r.size.cols, r.pen.attr))
  }

  function ScrollDownOnce(s: Term): (t: Term)
    requires FramesOk(s)
    ensures FramesOk(t) && t.regs == s.regs
  {
    var r, b := s.regs, Active(s);
    ShiftsKeepShape(b.lines, r.region.top, r.region.bottom, 1, r.size.cols, r.pen.attr);
    WithActive(s, ScrolledDown(b, r.region.top, r.region.bottom, r.size.cols, r.pen.attr))
  }

  function LineFeed(s: Term): (t: Term)
    requires WellFormed(s)
    ensures WellFormed(t) && t.regs == s.regs.(cursor := t.regs.cursor) && t.regs.cursor.x == s.regs.cursor.x
  {
    var c := s.regs.cursor;
    if c.y == s.regs.region.bottom then ScrollUpOnce(s)
    else if c.y < s.regs.size.rows - 1 then WithCursor(s, c.x, c.y + 1)
    else s
  }

  function ReverseIndex(s: Term): (t: Term)
    requires WellFormed(s)
    ensures WellFormed(t) && t.regs == s.regs.(cursor := t.regs.cursor) && t.regs.cursor.x == s.regs.cursor.x
  {
    var c := s.regs.cursor;
    if c.y == s.regs.region.top then ScrollDownOnce(s)
    else if c.y > 0 then WithCursor(s, c.x, c.y - 1)
    else s
  }

  function MapCharset(p: Pen, c: Rune): Rune {
    if (if p.activeSet == 1 then p.g1LineDraw else p.g0LineDraw) then LineDrawing(c) else c
  }

  /** Where the next character of the given width goes: the pending wrap happens now. */
  function Placed(s: Term, width: nat): (t: Term)
    requires WellFormed(s)
    ensures WellFormed(t) && t.regs == s.regs.(cursor := t.regs.cursor) && t.regs.cursor.x < t.regs.size.cols
  {
    hide ScreenOk, LineFeed;
    var c, cols, wrap := s.regs.cursor, s.regs.size.cols, s.regs.modes.autoWrap;
    var one :=
      if c.x < cols then s
      else if wrap then LineFeed(WithCursor(s, 0, c.y))
      else WithCursor(s, cols - 1, c.y);
    if one.regs.cursor.x + width > cols && wrap then LineFeed(WithCursor(one, 0, one.regs.cursor.y)) else one
  }

  /** The row with the character on it. */
  function PrintedRow(r: Regs, row: Row, c: Rune, width: nat): (p: Row)
    requires 0 <= r.cursor.x < |row|
    ensures |p| == |row|
  {
    var base := if r.modes.insert then Inserted(row, r.cursor.x, width, r.pen.attr) else row;
    Printed(base, r.cursor.x, c, width, r.pen.attr)
  }

  /** Past the last column only while wrapping is on. */
  function Advanced(r: Regs, width: nat): (c: Cursor)
    ensures r.size.cols > 0 && CursorOk(r.cursor, r.size) ==> CursorOk(c, r.size)
  {
    var x := r.cursor.x + width;
    Cursor(if x < r.size.cols then x else if r.modes.autoWrap then r.size.cols else r.size.cols - 1, r.cursor.y)
  }

  function PrintRune(s: Term, c: Rune): (t: Term)
    requires WellFormed(s)
    ensures WellFormed(t) && t.regs == s.regs.(cursor := t.regs.cursor, last := t.regs.last)
  {
    hide Placed, PrintedRow, Advanced;
    var width := RuneWidth(c, s.regs.size.marks);
    if width == 0 then s
    else
      var p := Placed(s, width);
      var c' := MapCharset(p.regs.pen, c);
      var t := WithRow(p, p.regs.cursor.y, PrintedRow(p.regs, CursorRow(p), c', width));
      t.(regs := p.regs.(cursor := Advanced(p.regs, width), last := Last(c', p.regs.pen.attr, true)))
  }

  function Control(s: Term, b: byte): (t: Term)
    requires WellFormed(s)
    ensures WellFormed(t) && SameSize(s, t)
  {
    hide ScreenOk, LineFeed;
    var r := s.regs;
    if b == 0x08 then
      if r.cursor.x > 0 then WithCursor(s, r.cursor.x - 1, r.cursor.y) else s
    else if b == 0x09 then
      var next := (r.cursor.x / 8 + 1) * 8;
      WithCursor(s, if next >= r.size.cols then r.size.cols - 1 else next, r.cursor.y)
    else if b == 0x0a || b == 0x0b || b == 0x0c then LineFeed(s)
    else if b == 0x0d then WithCursor(s, 0, r.cursor.y)
    else if b == 0x0e then WithRegs(s, r.(pen := r.pen.(activeSet := 1)))
    else if b == 0x0f then WithRegs(s, r.(pen := r.pen.(activeSet := 0)))
    else s
  }

  function Fresh(z: Size, title: seq<byte>, parser: Parser): (t: Term)
    requires z.cols > 0 && z.rows > 0
    ensures WellFormed(t) && t.regs.size == z
  {
    var blank := NewScreen(z.rows, z.cols);
    Term(Regs(z, Region(0, z.rows - 1), HOME, HOME, HOME, Modes(true, false, false, false, true),
              Pen(DEFAULT_ATTR, 0, false, false), Last(0, Attr(false, false, false, 0, 0), false), title, parser),
         blank, blank)
  }

  function Reset(s: Term): (t: Term)
    requires WellFormed(s)
    ensures WellFormed(t) && SameSize(s, t)
  {
    Fresh(s.regs.size, [], s.regs.parser)
  }

  function SaveCursor(r: Regs): Regs { r.(saved := r.cursor) }

  function RestoreCursor(r: Regs): (t: Regs)
    requires r.size.cols > 0 && r.size.rows > 0
    ensures CursorOk(t.cursor, t.size) && t == r.(cursor := t.cursor)
  {
    r.(cursor := ClampTo(r.saved, r.size))
  }

  /* ------------------------------------------------------------------ */
  /* Control sequences.                                                   */
  /* ------------------------------------------------------------------ */

  function AtLeastOne(n: nat): nat { if n < 1 then 1 else n }

  predicate InRegion(r: Regs) { r.region.top <= r.cursor.y <= r.region.bottom }

  function RowUp(r: Regs, n: nat): int {
    var limit := if InRegion(r) then r.region.top else 0;
    var y := r.cursor.y - AtLeastOne(n);
    if y < limit then limit else y
  }

  function RowDown(r: Regs, n: nat): int {
    var limit := if InRegion(r) then r.region.bottom else r.size.rows - 1;
    var y := r.cursor.y + AtLeastOne(n);
    if y > limit then limit else y
  }

  /** Row `y` of the active screen replaced. */
  function WithRow(s: Term, y: nat, row: Row): (t: Term)
    requires FramesOk(s) && y < s.regs.size.rows && |row| == s.regs.size.cols
    ensures FramesOk(t) && t.regs == s.regs
  {
    var b := Active(s);
    WithActive(s, b.(lines := b.lines[y := row]))
  }

  function CursorRow(s: Term): (row: Row)
    requires WellFormed(s)
    ensures |row| == s.regs.size.cols
  {
    Active(s).lines[s.regs.cursor.y]
  }

  /** Row `y` after an erase of the display: which of its columns go depends on the mode. */
  function ErasedRow(row: Row, y: int, r: Regs, mode: nat): (e: Row)
    ensures |e| == |row|
  {
    var attr := r.pen.attr;
    if mode == 2 || mode == 3 then BlankRow(|row|, attr)
    else if mode == 1 then
      if y > r.cursor.y then row
      else Cleared(row, 0, if y == r.cursor.y then r.cursor.x + 1 else r.size.cols, attr)
    else
      if y < r.cursor.y then row
      else Cleared(row, if y == r.cursor.y then r.cursor.x else 0, r.size.cols, attr)
  }

  function ErasedRows(g: Grid, r: Regs, mode: nat): (e: Grid)
    ensures |e| == |g| && forall y :: 0 <= y < |g| ==> e[y] == ErasedRow(g[y], y, r, mode)
  {
    seq(|g|, y requires 0 <= y < |g| => ErasedRow(g[y], y, r, mode))
  }

  function EraseDisplay(s: Term, mode: nat): (t: Term)
    requires FramesOk(s)
    ensures FramesOk(t) && t.regs == s.regs
  {
    var b := Active(s);
    WithActive(s, Screen(ErasedRows(b.lines, s.regs, mode), if mode == 3 then [] else b.hist))
  }

  function EraseLine(s: Term, mode: nat): (t: Term)
    requires WellFormed(s)
    ensures FramesOk(t) && t.regs == s.regs
  {
    var r, row := s.regs, CursorRow(s);
    WithRow(s, r.cursor.y,
            if mode == 1 then Cleared(row, 0, r.cursor.x + 1, r.pen.attr)
            else if mode == 2 then Cleared(row, 0, r.size.cols, r.pen.attr)
            else Cleared(row, r.cursor.x, r.size.cols, r.pen.attr))
  }

  function SetScrollRegion(r: Regs, top0: int, bottom0: int): (t: Regs)
    requires RegionOk(r.region, r.size)
    ensures RegionOk(t.region, t.size) && t.size == r.size
  {
    var top := if top0 < 0 then 0 else top0;
    var bottom := if bottom0 >= r.size.rows then r.size.rows - 1 else bottom0;
    if top >= bottom then r else r.(region := Region(top, bottom), cursor := HOME)
  }

  /** How many lines an insertion or deletion at `y` moves. */
  function Moved(b: Screen, y: nat, bottom: nat, n: nat): nat
    requires y < |b.lines|
  {
    var room := EditBottom(b, y, bottom) - y + 1;
    if n > room then room else n
  }

  function InsertLine(s: Term, n: nat): (t: Term)
    requires WellFormed(s)
    ensures FramesOk(t) && t.regs == s.regs
  {
    var r, b := s.regs, Active(s);
    ShiftsKeepShape(b.lines, r.cursor.y, EditBottom(b, r.cursor.y, r.region.bottom),
                    Moved(b, r.cursor.y, r.region.bottom, n), r.size.cols, r.pen.attr);
    WithActive(s, LinesInserted(b, r.cursor.y, r.region.bottom, n, r.size.cols, r.pen.attr))
  }

  function DeleteLine(s: Term, n: nat): (t: Term)
    requires WellFormed(s)
    ensures FramesOk(t) && t.regs == s.regs
  {
    var r, b := s.regs, Active(s);
    ShiftsKeepShape(b.lines, r.cursor.y, EditBottom(b, r.cursor.y, r.region.bottom),
                    Moved(b, r.cursor.y, r.region.bottom, n), r.size.cols, r.pen.attr);
    WithActive(s, LinesDeleted(b, r.cursor.y, r.region.bottom, n, r.size.cols, r.pen.attr))
  }

  function ScrollUp(s: Term, n: nat): (t: Term)
    requires FramesOk(s)
    ensures FramesOk(t) && t.regs == s.regs
    decreases n
  {
    hide ScrollUpOnce;
    if n == 0 then s else ScrollUp(ScrollUpOnce(s), n - 1)
  }

  function ScrollDown(s: Term, n: nat): (t: Term)
    requires FramesOk(s)
    ensures FramesOk(t) && t.regs == s.regs
    decreases n
  {
    hide ScrollDownOnce;
    if n == 0 then s else ScrollDown(ScrollDownOnce(s), n - 1)
  }

  /** The last character printed again, `n` times; each print remembers what it printed. */
  function PrintLast(s: Term, n: nat): (t: Term)
    requires WellFormed(s)
    ensures WellFormed(t) && t.regs == s.regs.(cursor := t.regs.cursor, last := t.regs.last)
    decreases n
  {
    hide PrintRune;
    if n == 0 then s else PrintLast(PrintRune(s, s.regs.last.r), n - 1)
  }

  function WithAttr(s: Term, attr: Attr): Term {
    s.(regs := s.regs.(pen := s.regs.pen.(attr := attr)))
  }

  function RepeatLast(s: Term, n: nat): (t: Term)
    requires WellFormed(s)
    ensures WellFormed(t) && SameSize(s, t)
  {
    hide ScreenOk;
    if s.regs.last.valid then WithAttr(PrintLast(WithAttr(s, s.regs.last.attr), n), s.regs.pen.attr) else s
  }

  function ColorComponent(v: nat): nat { if v > 255 then 255 else v }

  /** An extended colour at parameter `i`: the colour, if any, and the parameters it used up. */
  function ExtendedColor(p: seq<nat>, i: nat): (r: (int, nat))
    ensures r.1 == 0 ==> r.0 == -1
  {
    if i + 1 >= |p| then (-1, 0)
    else if p[i + 1] == 5 then
      if i + 2 >= |p| then (-1, 0) else (ColorComponent(p[i + 2]), 2)
    else if p[i + 1] == 2 then
      if i + 4 >= |p| then (-1, 0)
      else
        var o := if i + 5 < |p| && p[i + 2] == 0 then 3 else 2;
        (0x100_0000 + ColorComponent(p[i + o]) * 0x1_0000 + ColorComponent(p[i + o + 1]) * 0x100 + ColorComponent(p[i + o + 2]), o + 2)
    else (-1, 0)
  }

  /** The rendition codes that stand alone. */
  function SgrCode(a: Attr, n: nat): Attr {
    if n == 0 then DEFAULT_ATTR
    else if n == 1 then a.(bold := true)
    else if n == 4 then a.(underline := true)
    else if n == 7 then a.(inverse := true)
    else if n == 22 then a.(bold := false)
    else if n == 24 then a.(underline := false)
    else if n == 27 then a.(inverse := false)
    else if n == 39 then a.(fg := -1)
    else if n == 49 then a.(bg := -1)
    else if 30 <= n <= 37 then a.(fg := n - 30)
    else if 40 <= n <= 47 then a.(bg := n - 40)
    else if 90 <= n <= 97 then a.(fg := n - 90 + 8)
    else if 100 <= n <= 107 then a.(bg := n - 100 + 8)
    else a
  }

  function Sgr(a: Attr, p: seq<nat>, i: nat): Attr
    decreases |p| - i
  {
    if i >= |p| then a
    else if p[i] == 38 || p[i] == 48 then
      var (color, used) := ExtendedColor(p, i);
      if used == 0 then Sgr(a, p, i + 1)
      else Sgr(if p[i] == 38 then a.(fg := color) else a.(bg := color), p, i + used + 1)
    else Sgr(SgrCode(a, p[i]), p, i + 1)
  }

  function ToAlternate(s: Term, on: bool): (t: Term)
    requires WellFormed(s)
    ensures WellFormed(t) && SameSize(s, t)
  {
    Term(s.regs.(modes := s.regs.modes.(altScreen := on), cursor := HOME),
         s.main, if on then NewScreen(s.regs.size.rows, s.regs.size.cols) else s.alt)
  }

  function SetPrivateMode1(s: Term, p: nat, on: bool): (t: Term)
    requires WellFormed(s)
    ensures WellFormed(t) && SameSize(s, t)
  {
    hide ScreenOk, ToAlternate, RestoreCursor, ClampTo;
    var r := s.regs;
    if p == 6 then WithRegs(s, r.(modes := r.modes.(origin := on), cursor := Cursor(0, if on then r.region.top else 0)))
    else if p == 7 then WithRegs(s, r.(modes := r.modes.(autoWrap := on)))
    else if p == 25 then WithRegs(s, r.(modes := r.modes.(visible := on)))
    else if p == 47 || p == 1047 then ToAlternate(s, on)
    else if p == 1048 then WithRegs(s, if on then SaveCursor(r) else RestoreCursor(r))
    else if p == 1049 then
      if on then ToAlternate(WithRegs(s, r.(altSaved := r.cursor)), true)
      else WithRegs(s, r.(modes := r.modes.(altScreen := false), cursor := ClampTo(r.altSaved, r.size)))
    else s
  }

  function SetPrivateMode(s: Term, params: seq<nat>, on: bool): (t: Term)
    requires WellFormed(s)
    ensures WellFormed(t) && SameSize(s, t)
    decreases |params|
  {
    hide SetPrivateMode1;
    if params == [] then s else SetPrivateMode(SetPrivateMode1(s, params[0], on), params[1..], on)
  }

  /** Where a cursor sequence points; it may be off the screen until clamped. */
  function CsiCursor(r: Regs, final: byte, params: seq<nat>): Cursor {
    var n := Param(params, 0, 1);
    var origin := if r.modes.origin then r.region.top else 0;
    if final == 0x41 then Cursor(r.cursor.x, RowUp(r, n))                                              // A
    else if final == 0x42 then Cursor(r.cursor.x, RowDown(r, n))                                       // B
    else if final == 0x43 then Cursor(r.cursor.x + n, r.cursor.y)                                      // C
    else if final == 0x44 then Cursor(r.cursor.x - n, r.cursor.y)                                      // D
    else if final == 0x45 then Cursor(0, RowDown(r, n))                                                // E
    else if final == 0x46 then Cursor(0, RowUp(r, n))                                                  // F
    else if final == 0x47 then Cursor(n - 1, r.cursor.y)                                               // G
    else if final == 0x48 || final == 0x66 then Cursor(Param(params, 1, 1) - 1, n - 1 + origin)        // H f
    else if final == 0x64 then Cursor(r.cursor.x, n - 1 + origin)                                      // d
    else r.cursor
  }

  /** The control sequences that touch registers other than the cursor. */
  function CsiRegs(r: Regs, final: byte, params: seq<nat>): (t: Regs)
    requires RegionOk(r.region, r.size)
    ensures RegionOk(t.region, t.size) && t.size == r.size
  {
    if final == 0x6d then r.(pen := r.pen.(attr := Sgr(r.pen.attr, if params == [] then [0] else params, 0)))   // m
    else if final == 0x72 then SetScrollRegion(r, Param(params, 0, 1) - 1, Param(params, 1, r.size.rows) - 1)   // r
    else if final == 0x73 then SaveCursor(r)                                                           // s
    else if final == 0x75 then RestoreCursor(r)                                                        // u
    else if final == 0x68 || final == 0x6c then                                                        // h l
      r.(modes := r.modes.(insert := if 4 in params then final == 0x68 else r.modes.insert))
    else r.(cursor := CsiCursor(r, final, params))
  }

  predicate EditsCells(final: byte) {
    final == 0x40 || 0x4a <= final <= 0x4d || final == 0x50 || final == 0x53 || final == 0x54 || final == 0x58 || final == 0x62
  }

  /** The control sequences that change cells. */
  function CsiCells(s: Term, final: byte, params: seq<nat>): (t: Term)
    requires WellFormed(s)
    ensures WellFormed(t) && SameSize(s, t)
  {
    hide ScreenOk, Inserted, Deleted, Cleared, EraseDisplay, EraseLine, InsertLine, DeleteLine, WithRow, CursorRow,
         RepeatLast, Param;
    var r := s.regs;
    var n := AtLeastOne(Param(params, 0, 1));
    if final == 0x40 then WithRow(s, r.cursor.y, Inserted(CursorRow(s), r.cursor.x, n, r.pen.attr))     // @
    else if final == 0x4a then EraseDisplay(s, Param(params, 0, 0))                                    // J
    else if final == 0x4b then EraseLine(s, Param(params, 0, 0))                                       // K
    else if final == 0x4c then InsertLine(s, n)                                                        // L
    else if final == 0x4d then DeleteLine(s, n)                                                        // M
    else if final == 0x50 then WithRow(s, r.cursor.y, Deleted(CursorRow(s), r.cursor.x, n, r.pen.attr)) // P
    else if final == 0x53 then ScrollUp(s, n)                                                          // S
    else if final == 0x54 then ScrollDown(s, n)                                                        // T
    else if final == 0x58 then
      WithRow(s, r.cursor.y, Cleared(CursorRow(s), r.cursor.x, r.cursor.x + n, r.pen.attr))            // X
    else if final == 0x62 then RepeatLast(s, n)                                                        // b
    else s
  }

  /** A control sequence by its final byte. */
  function CsiEffect(s: Term, final: byte, params: seq<nat>, private: bool): (t: Term)
    requires WellFormed(s)
    ensures FramesOk(t) && SameSize(s, t)
  {
    hide ScreenOk, CsiCells, SetPrivateMode, CsiRegs;
    if EditsCells(final) then CsiCells(s, final, params)
    else if private && (final == 0x68 || final == 0x6c) then SetPrivateMode(s, params, final == 0x68)
    else WithRegs(s, CsiRegs(s.regs, final, params))
  }

  function HandleCsi(s: Term, sequence: seq<byte>): (t: Term)
    requires WellFormed(s) && sequence != []
    ensures WellFormed(t) && SameSize(s, t)
  {
    hide ScreenOk, CsiEffect, ParseParams, ClampTo;
    var final := sequence[|sequence| - 1];
    var body := sequence[..|sequence| - 1];
    var private := body != [] && body[0] == 0x3f;
    var t := CsiEffect(s, final, ParseParams(if private then body[1..] else body), private);
    WithRegs(t, t.regs.(cursor := ClampTo(t.regs.cursor, t.regs.size)))
  }

  /** The title after an operating-system command. */
  function OscTitle(title: seq<byte>, text: seq<byte>): seq<byte> {
    if |text| >= 2 && (text[0] == 0x30 || text[0] == 0x32) && text[1] == 0x3b then text[2..] else title
  }

  function ToState(s: Term, state: ParserState): (t: Term)
    ensures WellFormed(s) ==> WellFormed(t)
    ensures SameSize(s, t)
  {
    s.(regs := s.regs.(parser := s.regs.parser.(state := state)))
  }

  function EndOsc(s: Term): (t: Term)
    ensures WellFormed(s) ==> WellFormed(t)
    ensures SameSize(s, t)
  {
    ToState(WithRegs(s, s.regs.(title := OscTitle(s.regs.title, s.regs.parser.osc))), Ground)
  }

  function WithParser(s: Term, parser: Parser): (t: Term)
    ensures WellFormed(s) ==> WellFormed(t)
    ensures SameSize(s, t)
  {
    s.(regs := s.regs.(parser := parser))
  }

  /** Escape sequences that end at once. */
  function EscapeCommand(s: Term, b: byte): (t: Term)
    requires WellFormed(s)
    ensures WellFormed(t) && SameSize(s, t)
  {
    hide ScreenOk, LineFeed, Reset, ReverseIndex, RestoreCursor;
    if b == 0x63 then Reset(s)                                                                     // c
    else if b == 0x44 then LineFeed(s)                                                             // D
    else if b == 0x45 then LineFeed(WithCursor(s, 0, s.regs.cursor.y))                             // E
    else if b == 0x4d then ReverseIndex(s)                                                         // M
    else if b == 0x37 then WithRegs(s, SaveCursor(s.regs))                                         // 7
    else if b == 0x38 then WithRegs(s, RestoreCursor(s.regs))                                      // 8
    else s
  }

  function HandleEscape(s: Term, b: byte): (t: Term)
    requires WellFormed(s)
    ensures WellFormed(t) && SameSize(s, t)
  {
    hide WellFormed, EscapeCommand, ToState, WithParser;
    if b == 0x5b then WithParser(s, s.regs.parser.(state := Csi, esc := []))                       // [
    else if b == 0x5d then WithParser(s, s.regs.parser.(state := Osc, osc := []))                  // ]
    else if b == 0x28 then ToState(s, CharsetG0)                                                   // (
    else if b == 0x29 then ToState(s, CharsetG1)                                                   // )
    else ToState(EscapeCommand(s, b), Ground)
  }

  /** The byte after a charset designation. */
  function Designate(s: Term, b: byte): (t: Term)
    ensures WellFormed(s) ==> WellFormed(t)
    ensures SameSize(s, t)
  {
    var pen := if s.regs.parser.state == CharsetG0 then s.regs.pen.(g0LineDraw := b == 0x30)
               else s.regs.pen.(g1LineDraw := b == 0x30);
    ToState(WithRegs(s, s.regs.(pen := pen)), Ground)
  }

  /* ------------------------------------------------------------------ */
  /* The input loop.                                                      */
  /* ------------------------------------------------------------------ */

  /** What one turn of the loop does to the state. */
  function Effect(s: Term, data: seq<byte>): (t: Term)
    requires WellFormed(s) && data != []
    ensures WellFormed(t) && SameSize(s, t)
  {
    hide FramesOk, CursorOk, Control, PrintRune, DecodeRune, HandleEscape, HandleCsi, EndOsc, ToState, WithParser, Designate;
    var b, p := data[0], s.regs.parser;
    match p.state
    case Ground =>
      if b == 0x1b then WithParser(s, p.(state := Escape, esc := []))
      else if b < 0x20 || b == 0x7f then Control(s, b)
      else PrintRune(s, DecodeRune(data).rune)
    case Escape => HandleEscape(s, b)
    case Csi =>
      var t := WithParser(s, p.(esc := p.esc + [b]));
      if 0x40 <= b <= 0x7e then ToState(HandleCsi(t, p.esc + [b]), Ground) else t
    case Osc =>
      if b == 0x07 || EscBackslash(data) then EndOsc(s) else WithParser(s, p.(osc := p.osc + [b]))
    case CharsetG0 => Designate(s, b)
    case CharsetG1 => Designate(s, b)
  }

  predicate EscBackslash(data: seq<byte>) {
    |data| > 1 && data[0] == 0x1b && data[1] == 0x5c
  }

  /** How many bytes one turn of the loop takes. */
  function Taken(state: ParserState, data: seq<byte>): (n: nat)
    requires data != []
    ensures 1 <= n <= |data|
  {
    if state == Ground && data[0] != 0x1b && data[0] >= 0x20 && data[0] != 0x7f then DecodeRune(data).size
    else if state == Osc && EscBackslash(data) then 2
    else 1
  }

  /** The state after all of `data`. */
  function Feed(s: Term, data: seq<byte>): (t: Term)
    requires WellFormed(s)
    ensures WellFormed(t) && SameSize(s, t)
    decreases |data|
  {
    hide Effect, Taken, FramesOk, CursorOk;
    if data == [] then s else Feed(Effect(s, data), data[Taken(s.regs.parser.state, data)..])
  }
}
