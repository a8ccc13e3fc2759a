/** The emulator in memory: registers updated in place and two buffers that share no row. */
module TerminalEmulator {
  import opened MachineTypes
  import opened TerminalText
  import opened TerminalScreen
  import opened TerminalModel
  import opened TerminalBuffer
  import opened TerminalRuns

  /** The rows of a buffer erased around the cursor. */
  method EraseRows(b: ScreenBuffer, r: Regs, mode: nat)
    requires b.Valid(r.size.rows, r.size.cols) && CursorOk(r.cursor, r.size)
    modifies b, b.Rows()
    ensures b.View() == Screen(ErasedRows(old(b.View()).lines, r, mode), if mode == 3 then [] else old(b.hist))
    ensures b.Valid(r.size.rows, r.size.cols) && forall l :: l in b.Rows() ==> l in old(b.Rows()) || fresh(l)
  {
    if mode == 2 || mode == 3 {
      b.BlankEntries(0, |b.lines|, r.pen.attr, r.size.cols);
      if mode == 3 {
        b.hist := [];
      }
    } else if mode == 1 {
      EraseSpan(b, r, mode, 0, r.cursor.y + 1);
    } else {
      EraseSpan(b, r, mode, r.cursor.y, |b.lines|);
    }
  }

  /** The rows from `first` up to `end`, each cleared up to, from, or across the cursor. */
  method EraseSpan(b: ScreenBuffer, r: Regs, mode: nat, first: nat, end: nat)
    requires b.Valid(r.size.rows, r.size.cols) && CursorOk(r.cursor, r.size) && mode != 2 && mode != 3
    requires if mode == 1 then first == 0 && end == r.cursor.y + 1 else first == r.cursor.y && end == |b.lines|
    modifies b.Rows()
    ensures Contents(b.lines) == ErasedRows(old(b.View()).lines, r, mode)
  {
    var y := first;
    while y < end
      invariant first <= y <= end
      invariant forall k :: 0 <= k < |b.lines| ==>
        b.lines[k][..] == if first <= k < y then ErasedRow(old(b.lines[k][..]), k, r, mode) else old(b.lines[k][..])
    {
      if mode == 1 {
        var stop := if y == r.cursor.y then r.cursor.x + 1 else r.size.cols;
        ClearRange(b.lines[y], 0, stop, r.pen.attr);
      } else {
        var start := if y == r.cursor.y then r.cursor.x else 0;
        ClearRange(b.lines[y], start, r.size.cols, r.pen.attr);
      }
      y := y + 1;
    }
  }

  /** A reset state is well formed, with the two screens blank. */
  lemma FreshIs(z: Size, parser: Parser)
    requires z.rows > 0 && z.cols > 0
    ensures var t := Fresh(z, [], parser);
            t == Term(t.regs, NewScreen(z.rows, z.cols), NewScreen(z.rows, z.cols)) && WellFormed(t)
  {
  }

  class Emulator {
    var size: Size
    var region: Region
    var cursor: Cursor
    var saved: Cursor
    var altSaved: Cursor
    var modes: Modes
    var pen: Pen
    var last: Last
    var title: seq<byte>
    var parser: Parser
    var rawTail: seq<byte>
    var bytesRead: int
    var main: ScreenBuffer
    var alt: ScreenBuffer

    ghost function Registers(): Regs
      reads this
    {
      Regs(size, region, cursor, saved, altSaved, modes, pen, last, title, parser)
    }

    ghost function State(): Term
      reads this, main, alt, main.lines, alt.lines
    {
      Term(Registers(), main.View(), alt.View())
    }

    /** Rows are pairwise distinct within a buffer and across the two. */
    ghost predicate Storage()
      reads this`main, this`alt, this`size, main, alt
    {
      main != alt && main.Valid(size.rows, size.cols) && alt.Valid(size.rows, size.cols)
      && main.Rows() !! alt.Rows()
    }

    ghost predicate Valid()
      reads this, main, alt, main.lines, alt.lines
    {
      Storage() && WellFormed(State())
    }

    /** Buffers and rows are the old ones or new. */
    twostate predicate Owned()
      reads this, main, alt
    {
      (main == old(main) || fresh(main)) && (alt == old(alt) || fresh(alt))
      && (forall r :: r in main.Rows() ==> r in old(main.Rows()) || fresh(r))
      && (forall r :: r in alt.Rows() ==> r in old(alt.Rows()) || fresh(r))
    }

    constructor (cols: int, rows: int, limit: int, marks: set<Rune>)
      ensures Emu(State(), rawTail, bytesRead) == TerminalRuns.New(cols, rows, limit, marks)
      ensures Valid() && fresh(main) && fresh(alt) && fresh(main.Rows()) && fresh(alt.Rows())
    {
      hide ScreenOk, NewScreen, Distinct, Shaped, ScreenBuffer.View, WellFormed;
      var z := NewSize(cols, rows, limit, marks);
      size, region := z, Region(0, z.rows - 1);
      cursor, saved, altSaved := HOME, HOME, HOME;
      modes := Modes(true, false, false, false, true);
      pen := Pen(DEFAULT_ATTR, 0, false, false);
      last := Last(0, Attr(false, false, false, 0, 0), false);
      title, parser, rawTail, bytesRead := [], IDLE, [], 0;
      main := new ScreenBuffer(z.rows, z.cols);
      alt := new ScreenBuffer(z.rows, z.cols);
    }

    /* ---------------------------------------------------------------- */
    /* Cursor movement, scrolling and printing.                           */
    /* ---------------------------------------------------------------- */

    method ScrollUpOnce()
      requires Valid()
      modifies main, alt
      ensures State() == TerminalModel.ScrollUpOnce(old(State()))
      ensures Valid() && Owned()
    {
      hide ScreenOk, ScrolledUp;
      if modes.altScreen {
        alt.ScrollRegion(region.top, region.bottom, size.limit, pen.attr, size.cols);
      } else {
        main.ScrollRegion(region.top, region.bottom, size.limit, pen.attr, size.cols);
      }
    }

    method ScrollDownOnce()
      requires Valid()
      modifies main, alt
      ensures State() == TerminalModel.ScrollDownOnce(old(State()))
      ensures Valid() && Owned()
    {
      hide ScreenOk, ScrolledDown;
      if modes.altScreen {
        alt.ScrollRegionDown(region.top, region.bottom, pen.attr, size.cols);
      } else {
        main.ScrollRegionDown(region.top, region.bottom, pen.attr, size.cols);
      }
    }

    method LineFeed()
      requires Valid()
      modifies this`cursor, main, alt
      ensures State() == TerminalModel.LineFeed(old(State()))
      ensures Valid() && Owned()
    {
      hide ScreenOk, TerminalModel.ScrollUpOnce;
      if cursor.y == region.bottom {
        ScrollUpOnce();
      } else if cursor.y < size.rows - 1 {
        cursor := cursor.(y := cursor.y + 1);
      }
    }

    method ReverseIndex()
      requires Valid()
      modifies this`cursor, main, alt
      ensures State() == TerminalModel.ReverseIndex(old(State()))
      ensures Valid() && Owned()
    {
      hide ScreenOk, TerminalModel.ScrollDownOnce;
      if cursor.y != region.top {
        if cursor.y > 0 {
          cursor := cursor.(y := cursor.y - 1);
        }
      } else {
        ScrollDownOnce();
      }
    }

    /** The pending wrap, and the wrap of a wide character that does not fit. */
    method Place(width: nat)
      requires Valid()
      modifies this`cursor, main, alt
      ensures State() == TerminalModel.Placed(old(State()), width)
      ensures Valid() && Owned()
    {
      hide ScreenOk, TerminalModel.LineFeed, Storage, ScreenBuffer.View;
      if cursor.x >= size.cols {
        if modes.autoWrap {
          cursor := cursor.(x := 0);
          LineFeed();
        } else {
          cursor := cursor.(x := size.cols - 1);
        }
      }
      if cursor.x + width > size.cols && modes.autoWrap {
        cursor := cursor.(x := 0);
        LineFeed();
      }
    }

    /** The character on its cell or cells of the cursor's row. */
    method Put(c: Rune, width: nat)
      requires Valid() && cursor.x < size.cols && width <= 2
      modifies main.Rows(), alt.Rows()
      ensures State() == WithRow(old(State()), cursor.y, PrintedRow(old(State()).regs, CursorRow(old(State())), c, width))
      ensures Valid() && Owned()
    {
      hide ScreenOk, Inserted, Printed;
      if modes.altScreen {
        alt.PrintAt(cursor.y, cursor.x, c, width, modes.insert, pen.attr);
      } else {
        main.PrintAt(cursor.y, cursor.x, c, width, modes.insert, pen.attr);
      }
    }

    /** The cursor moves past what was printed; past the last column only while wrapping is on. */
    method Advance(c: Rune, width: nat)
      modifies this`cursor, this`last
      ensures cursor == Advanced(old(Registers()), width) && last == Last(c, pen.attr, true)
    {
      last := Last(c, pen.attr, true);
      cursor := cursor.(x := cursor.x + width);
      if cursor.x >= size.cols {
        if modes.autoWrap {
          cursor := cursor.(x := size.cols);
        } else {
          cursor := cursor.(x := size.cols - 1);
        }
      }
    }

    method PrintRune(c: Rune)
      requires Valid()
      modifies this`cursor, this`last, main, alt, main.Rows(), alt.Rows()
      ensures State() == TerminalModel.PrintRune(old(State()), c)
      ensures Valid() && Owned()
    {
      hide ScreenOk, Placed, PrintedRow, WithRow, Advanced, Storage, ScreenBuffer.View;
      var width := RuneWidth(c, size.marks);
      if width > 0 {
        Place(width);
        var c' := MapCharset(pen, c);
        Put(c', width);
        Advance(c', width);
      }
    }

    method Control(b: byte)
      requires Valid()
      modifies this`cursor, this`pen, main, alt
      ensures State() == TerminalModel.Control(old(State()), b)
      ensures Valid() && Owned()
    {
      hide ScreenOk, TerminalModel.LineFeed, Storage, ScreenBuffer.View;
      if b == 0x08 {
        if cursor.x > 0 {
          cursor := cursor.(x := cursor.x - 1);
        }
      } else if b == 0x09 {
        var next := (cursor.x / 8 + 1) * 8;
        if next >= size.cols {
          next := size.cols - 1;
        }
        cursor := cursor.(x := next);
      } else if b == 0x0a || b == 0x0b || b == 0x0c {
        LineFeed();
      } else if b == 0x0d {
        cursor := cursor.(x := 0);
      } else if b == 0x0e {
        pen := pen.(activeSet := 1);
      } else if b == 0x0f {
        pen := pen.(activeSet := 0);
      }
    }

    method Reset()
      requires Valid()
      modifies this
      ensures State() == TerminalModel.Reset(old(State()))
      ensures Valid() && Owned() && rawTail == old(rawTail) && bytesRead == old(bytesRead)
    {
      FreshIs(size, parser);
      hide ScreenOk, NewScreen, WellFormed, Storage, ScreenBuffer.View, Fresh;
      ClearRegisters();
      NewBuffers();
    }

    method NewBuffers()
      modifies this`main, this`alt
      ensures Storage() && main.View() == alt.View() == NewScreen(size.rows, size.cols)
      ensures fresh(main) && fresh(alt) && fresh(main.Rows()) && fresh(alt.Rows())
    {
      hide NewScreen, Distinct, Shaped, ScreenBuffer.View;
      main := new ScreenBuffer(size.rows, size.cols);
      alt := new ScreenBuffer(size.rows, size.cols);
    }

    method ClearRegisters()
      requires size.rows > 0 && size.cols > 0
      modifies this`cursor, this`saved, this`altSaved, this`pen, this`region, this`modes, this`last, this`title
      ensures Registers() == Fresh(size, [], parser).regs
    {
      cursor, saved, altSaved := HOME, HOME, HOME;
      pen := Pen(DEFAULT_ATTR, 0, false, false);
      region := Region(0, size.rows - 1);
      modes := Modes(true, false, false, false, true);
      last := Last(0, Attr(false, false, false, 0, 0), false);
      title := [];
    }

    method SaveCursor()
      modifies this`saved
      ensures Registers() == TerminalModel.SaveCursor(old(Registers()))
    {
      saved := cursor;
    }

    method RestoreCursor()
      requires size.cols > 0 && size.rows > 0
      modifies this`cursor
      ensures Registers() == TerminalModel.RestoreCursor(old(Registers()))
    {
      cursor := ClampTo(saved, size);
    }

    /* ---------------------------------------------------------------- */
    /* Control sequences that change cells.                               */
    /* ---------------------------------------------------------------- */

    method EraseDisplay(mode: nat)
      requires Valid()
      modifies main, alt, main.Rows(), alt.Rows()
      ensures State() == TerminalModel.EraseDisplay(old(State()), mode)
      ensures Valid() && Owned()
    {
      hide ScreenOk, ErasedRows;
      if modes.altScreen {
        EraseRows(alt, Regs(size, region, cursor, saved, altSaved, modes, pen, last, title, parser), mode);
      } else {
        EraseRows(main, Regs(size, region, cursor, saved, altSaved, modes, pen, last, title, parser), mode);
      }
    }

    method ClearInRow(start: int, end: int)
      requires Valid()
      modifies main.Rows(), alt.Rows()
      ensures State() == WithRow(old(State()), cursor.y, Cleared(CursorRow(old(State())), start, end, pen.attr))
      ensures Valid() && Owned()
    {
      hide ScreenOk, Cleared;
      if modes.altScreen {
        alt.ClearCells(cursor.y, start, end, pen.attr);
      } else {
        main.ClearCells(cursor.y, start, end, pen.attr);
      }
    }

    method EraseLine(mode: nat)
      requires Valid()
      modifies main.Rows(), alt.Rows()
      ensures State() == TerminalModel.EraseLine(old(State()), mode)
      ensures Valid() && Owned()
    {
      hide ScreenOk, Cleared, WithRow, CursorRow, Storage, ScreenBuffer.View;
      if mode == 1 {
        ClearInRow(0, cursor.x + 1);
      } else if mode == 2 {
        ClearInRow(0, size.cols);
      } else {
        ClearInRow(cursor.x, size.cols);
      }
    }

    method InsertCharacter(n: nat)
      requires Valid()
      modifies main.Rows(), alt.Rows()
      ensures State() == WithRow(old(State()), cursor.y, Inserted(CursorRow(old(State())), cursor.x, AtLeastOne(n), pen.attr))
      ensures Valid() && Owned()
    {
      hide ScreenOk, Inserted;
      if modes.altScreen {
        alt.InsertAt(cursor.y, cursor.x, AtLeastOne(n), pen.attr);
      } else {
        main.InsertAt(cursor.y, cursor.x, AtLeastOne(n), pen.attr);
      }
    }

    method DeleteCharacter(n: nat)
      requires Valid()
      modifies main.Rows(), alt.Rows()
      ensures State() == WithRow(old(State()), cursor.y, Deleted(CursorRow(old(State())), cursor.x, AtLeastOne(n), pen.attr))
      ensures Valid() && Owned()
    {
      hide ScreenOk, Deleted;
      if modes.altScreen {
        alt.DeleteAt(cursor.y, cursor.x, AtLeastOne(n), pen.attr);
      } else {
        main.DeleteAt(cursor.y, cursor.x, AtLeastOne(n), pen.attr);
      }
    }

    method InsertLine(n: nat)
      requires Valid()
      modifies main, alt
      ensures State() == TerminalModel.InsertLine(old(State()), AtLeastOne(n))
      ensures Valid() && Owned()
    {
      hide ScreenOk, LinesInserted;
      if modes.altScreen {
        alt.InsertLines(cursor.y, region.bottom, AtLeastOne(n), pen.attr, size.cols);
      } else {
        main.InsertLines(cursor.y, region.bottom, AtLeastOne(n), pen.attr, size.cols);
      }
    }

    method DeleteLine(n: nat)
      requires Valid()
      modifies main, alt
      ensures State() == TerminalModel.DeleteLine(old(State()), AtLeastOne(n))
      ensures Valid() && Owned()
    {
      hide ScreenOk, LinesDeleted;
      if modes.altScreen {
        alt.DeleteLines(cursor.y, region.bottom, AtLeastOne(n), pen.attr, size.cols);
      } else {
        main.DeleteLines(cursor.y, region.bottom, AtLeastOne(n), pen.attr, size.cols);
      }
    }

    method ScrollUp(n: nat)
      requires Valid()
      modifies main, alt
      ensures State() == TerminalModel.ScrollUp(old(State()), AtLeastOne(n))
      ensures Valid() && Owned()
    {
      hide ScreenOk, TerminalModel.ScrollUpOnce, Storage, ScreenBuffer.View;
      var i, count := 0, AtLeastOne(n);
      while i < count
        invariant i <= count && Valid() && Owned()
        invariant TerminalModel.ScrollUp(State(), count - i) == TerminalModel.ScrollUp(old(State()), count)
      {
        ScrollUpOnce();
        i := i + 1;
      }
    }

    method ScrollDown(n: nat)
      requires Valid()
      modifies main, alt
      ensures State() == TerminalModel.ScrollDown(old(State()), AtLeastOne(n))
      ensures Valid() && Owned()
    {
      hide ScreenOk, TerminalModel.ScrollDownOnce, Storage, ScreenBuffer.View;
      var i, count := 0, AtLeastOne(n);
      while i < count
        invariant i <= count && Valid() && Owned()
        invariant TerminalModel.ScrollDown(State(), count - i) == TerminalModel.ScrollDown(old(State()), count)
      {
        ScrollDownOnce();
        i := i + 1;
      }
    }

    method RepeatLast(n: nat)
      requires Valid()
      modifies this`cursor, this`last, this`pen, main, alt, main.Rows(), alt.Rows()
      ensures State() == TerminalModel.RepeatLast(old(State()), AtLeastOne(n))
      ensures Valid() && Owned()
    {
      hide ScreenOk, TerminalModel.PrintRune, Storage, ScreenBuffer.View;
      if last.valid {
        var attr := pen.attr;
        pen := pen.(attr := last.attr);
        ghost var start := State();
        assert start == WithAttr(old(State()), old(last.attr));
        var i, count := 0, AtLeastOne(n);
        while i < count
          invariant i <= count && Valid() && Owned()
          invariant PrintLast(State(), count - i) == PrintLast(start, count)
        {
          PrintRune(last.r);
          i := i + 1;
        }
        pen := pen.(attr := attr);
      }
    }

    method CsiCells(final: byte, params: seq<nat>)
      requires Valid() && EditsCells(final)
      modifies this`cursor, this`last, this`pen, main, alt, main.Rows(), alt.Rows()
      ensures State() == TerminalModel.CsiCells(old(State()), final, params)
      ensures Valid() && Owned()
    {
      hide ScreenOk, Storage, ScreenBuffer.View, WithRow, CursorRow, Inserted, Deleted, Cleared, Param,
           TerminalModel.EraseDisplay, TerminalModel.EraseLine, TerminalModel.InsertLine, TerminalModel.DeleteLine,
           TerminalModel.ScrollUp, TerminalModel.ScrollDown, TerminalModel.RepeatLast;
      var n := Param(params, 0, 1);
      if final == 0x40 {
        InsertCharacter(n);
      } else if final == 0x4a {
        EraseDisplay(Param(params, 0, 0));
      } else if final == 0x4b {
        EraseLine(Param(params, 0, 0));
      } else if final == 0x4c {
        InsertLine(n);
      } else if final == 0x4d {
        DeleteLine(n);
      } else if final == 0x50 {
        DeleteCharacter(n);
      } else if final == 0x53 {
        ScrollUp(n);
      } else if final == 0x54 {
        ScrollDown(n);
      } else if final == 0x58 {
        ClearInRow(cursor.x, cursor.x + AtLeastOne(n));
      } else {
        RepeatLast(n);
      }
    }

    /* ---------------------------------------------------------------- */
    /* Control sequences that change registers.                           */
    /* ---------------------------------------------------------------- */

    method SetSgr(params0: seq<nat>)
      modifies this`pen
      ensures pen == old(pen).(attr := Sgr(old(pen).attr, if params0 == [] then [0] else params0, 0))
    {
      var params := if params0 == [] then [0] else params0;
      var i := 0;
      while i < |params|
        invariant pen == old(pen).(attr := pen.attr)
        invariant Sgr(pen.attr, params, i) == Sgr(old(pen).attr, params, 0)
      {
        var p := params[i];
        if p == 38 || p == 48 {
          var (color, used) := ExtendedColor(params, i);
          if used > 0 {
            pen := pen.(attr := if p == 38 then pen.attr.(fg := color) else pen.attr.(bg := color));
            i := i + used;
          }
        } else {
          pen := pen.(attr := SgrCode(pen.attr, p));
        }
        i := i + 1;
      }
    }

    method SetMode(params: seq<nat>, on: bool)
      modifies this`modes
      ensures modes == old(modes).(insert := if 4 in params then on else old(modes).insert)
    {
      var i := 0;
      while i < |params|
        invariant i <= |params|
        invariant modes == old(modes).(insert := if 4 in params[..i] then on else old(modes).insert)
      {
        if params[i] == 4 {
          modes := modes.(insert := on);
        }
        i := i + 1;
      }
    }

    method SetScrollRegion(top0: int, bottom0: int)
      requires RegionOk(region, size)
      modifies this`region, this`cursor
      ensures Registers() == TerminalModel.SetScrollRegion(old(Registers()), top0, bottom0)
    {
      var top := if top0 < 0 then 0 else top0;
      var bottom := if bottom0 >= size.rows then size.rows - 1 else bottom0;
      if top < bottom {
        region := Region(top, bottom);
        cursor := HOME;
      }
    }

    method CsiRegisters(final: byte, params: seq<nat>)
      requires RegionOk(region, size)
      modifies this`cursor, this`saved, this`region, this`pen, this`modes
      ensures Registers() == CsiRegs(old(Registers()), final, params)
    {
      hide Sgr, Param, TerminalModel.SetScrollRegion, CsiCursor;
      if final == 0x6d {
        SetSgr(params);
      } else if final == 0x72 {
        SetScrollRegion(Param(params, 0, 1) - 1, Param(params, 1, size.rows) - 1);
      } else if final == 0x73 {
        SaveCursor();
      } else if final == 0x75 {
        RestoreCursor();
      } else if final == 0x68 || final == 0x6c {
        SetMode(params, final == 0x68);
      } else {
        MoveCursor(final, params);
      }
    }

    method CursorUp(n0: nat)
      modifies this`cursor
      ensures cursor == Cursor(old(cursor).x, RowUp(old(Registers()), n0))
    {
      var n := AtLeastOne(n0);
      var limit := 0;
      if cursor.y >= region.top && cursor.y <= region.bottom {
        limit := region.top;
      }
      cursor := cursor.(y := cursor.y - n);
      if cursor.y < limit {
        cursor := cursor.(y := limit);
      }
    }

    method CursorDown(n0: nat)
      modifies this`cursor
      ensures cursor == Cursor(old(cursor).x, RowDown(old(Registers()), n0))
    {
      var n := AtLeastOne(n0);
      var limit := size.rows - 1;
      if cursor.y >= region.top && cursor.y <= region.bottom {
        limit := region.bottom;
      }
      cursor := cursor.(y := cursor.y + n);
      if cursor.y > limit {
        cursor := cursor.(y := limit);
      }
    }

    method MoveCursor(final: byte, params: seq<nat>)
      modifies this`cursor
      ensures cursor == CsiCursor(old(Registers()), final, params)
    {
      var n := Param(params, 0, 1);
      if final == 0x41 {
        CursorUp(n);
      } else if final == 0x42 {
        CursorDown(n);
      } else if final == 0x43 {
        cursor := cursor.(x := cursor.x + n);
      } else if final == 0x44 {
        cursor := cursor.(x := cursor.x - n);
      } else if final == 0x45 {
        cursor := cursor.(x := 0);
        CursorDown(n);
      } else if final == 0x46 {
        cursor := cursor.(x := 0);
        CursorUp(n);
      } else if final == 0x47 {
        cursor := cursor.(x := n - 1);
      } else if final == 0x48 || final == 0x66 || final == 0x64 {
        var y := n - 1;
        if modes.origin {
          y := y + region.top;
        }
        cursor := cursor.(y := y);
        if final != 0x64 {
          cursor := cursor.(x := Param(params, 1, 1) - 1);
        }
      }
    }

    method SwitchScreen(on: bool)
      requires Valid()
      modifies this`modes, this`cursor, this`alt
      ensures State() == ToAlternate(old(State()), on)
      ensures Valid() && Owned()
    {
      hide ScreenOk, NewScreen, Distinct, Shaped, ScreenBuffer.View;
      modes := modes.(altScreen := on);
      cursor := HOME;
      if on {
        alt := new ScreenBuffer(size.rows, size.cols);
      }
    }

    method SetPrivateMode1(p: nat, on: bool)
      requires Valid()
      modifies this`modes, this`cursor, this`saved, this`altSaved, this`alt
      ensures State() == TerminalModel.SetPrivateMode1(old(State()), p, on)
      ensures Valid() && Owned()
    {
      hide ScreenOk, Storage, ScreenBuffer.View, ToAlternate, TerminalModel.RestoreCursor, ClampTo;
      if p == 6 {
        modes := modes.(origin := on);
        cursor := HOME;
        if on {
          cursor := cursor.(y := region.top);
        }
      } else if p == 7 {
        modes := modes.(autoWrap := on);
      } else if p == 25 {
        modes := modes.(visible := on);
      } else if p == 47 || p == 1047 {
        SwitchScreen(on);
      } else if p == 1048 {
        if on {
          SaveCursor();
        } else {
          RestoreCursor();
        }
      } else if p == 1049 {
        if on {
          altSaved := cursor;
          SwitchScreen(true);
        } else {
          modes := modes.(altScreen := false);
          cursor := ClampTo(altSaved, size);
        }
      }
    }

    method SetPrivateMode(params: seq<nat>, on: bool)
      requires Valid()
      modifies this`modes, this`cursor, this`saved, this`altSaved, this`alt
      ensures State() == TerminalModel.SetPrivateMode(old(State()), params, on)
      ensures Valid() && Owned()
    {
      hide ScreenOk, Storage, ScreenBuffer.View, TerminalModel.SetPrivateMode1;
      var i := 0;
      assert params[0..] == params;
      while i < |params|
        invariant i <= |params| && Valid() && Owned()
        invariant TerminalModel.SetPrivateMode(State(), params[i..], on) == TerminalModel.SetPrivateMode(old(State()), params, on)
      {
        SetPrivateMode1(params[i], on);
        i := i + 1;
      }
    }

    /* ---------------------------------------------------------------- */
    /* Input.                                                             */
    /* ---------------------------------------------------------------- */

    method HandleCsi(sequence: seq<byte>)
      requires Valid() && sequence != []
      modifies this, main, alt, main.Rows(), alt.Rows()
      ensures State() == TerminalModel.HandleCsi(old(State()), sequence)
      ensures Valid() && Owned() && rawTail == old(rawTail) && bytesRead == old(bytesRead)
    {
      hide ScreenOk, Storage, ScreenBuffer.View, ParseParams, CsiEffect, ClampTo;
      var final := sequence[|sequence| - 1];
      var body := sequence[..|sequence| - 1];
      var private := body != [] && body[0] == 0x3f;
      if private {
        body := body[1..];
      }
      var params := ParseCsiParams(body);
      Dispatch(final, params, private);
      cursor := ClampTo(cursor, size);
    }

    /** A control sequence by its final byte; the cursor is still to be clamped. */
    method Dispatch(final: byte, params: seq<nat>, private: bool)
      requires Valid()
      modifies this, main, alt, main.Rows(), alt.Rows()
      ensures State() == CsiEffect(old(State()), final, params, private)
      ensures Storage() && Owned() && rawTail == old(rawTail) && bytesRead == old(bytesRead)
    {
      hide ScreenOk, Storage, ScreenBuffer.View, TerminalModel.CsiCells, TerminalModel.SetPrivateMode, CsiRegs;
      if EditsCells(final) {
        CsiCells(final, params);
      } else if private && (final == 0x68 || final == 0x6c) {
        SetPrivateMode(params, final == 0x68);
      } else {
        CsiRegisters(final, params);
      }
    }

    method HandleOsc()
      requires Valid()
      modifies this`title, this`parser
      ensures State() == EndOsc(old(State()))
      ensures Valid() && Owned()
    {
      hide WellFormed, Storage, ScreenBuffer.View;
      var text := parser.osc;
      if |text| >= 2 && (text[0] == 0x30 || text[0] == 0x32) && text[1] == 0x3b {
        title := text[2..];
      }
      parser := parser.(state := Ground);
    }

    method HandleEscapeByte(b: byte)
      requires Valid()
      modifies this, main, alt
      ensures State() == HandleEscape(old(State()), b)
      ensures Valid() && Owned() && rawTail == old(rawTail) && bytesRead == old(bytesRead)
    {
      hide WellFormed, Storage, ScreenBuffer.View, TerminalModel.EscapeCommand;
      if b == 0x5b {
        parser := parser.(state := Csi, esc := []);
      } else if b == 0x5d {
        parser := parser.(state := Osc, osc := []);
      } else if b == 0x28 {
        parser := parser.(state := CharsetG0);
      } else if b == 0x29 {
        parser := parser.(state := CharsetG1);
      } else {
        EscapeCommand(b);
        parser := parser.(state := Ground);
      }
    }

    method EscapeCommand(b: byte)
      requires Valid()
      modifies this, main, alt
      ensures State() == TerminalModel.EscapeCommand(old(State()), b)
      ensures Valid() && Owned() && rawTail == old(rawTail) && bytesRead == old(bytesRead)
    {
      hide ScreenOk, Storage, ScreenBuffer.View, TerminalModel.LineFeed, TerminalModel.Reset, TerminalModel.ReverseIndex,
           TerminalModel.RestoreCursor;
      if b == 0x63 {
        Reset();
      } else if b == 0x44 {
        LineFeed();
      } else if b == 0x45 {
        cursor := cursor.(x := 0);
        LineFeed();
      } else if b == 0x4d {
        ReverseIndex();
      } else if b == 0x37 {
        SaveCursor();
      } else if b == 0x38 {
        RestoreCursor();
      }
    }

    method CsiByte(b: byte)
      requires Valid() && parser.state == Csi
      modifies this, main, alt, main.Rows(), alt.Rows()
      ensures State() == Effect(old(State()), [b])
      ensures Valid() && Owned() && rawTail == old(rawTail) && bytesRead == old(bytesRead)
    {
      hide FramesOk, Storage, ScreenBuffer.View, TerminalModel.HandleCsi;
      parser := parser.(esc := parser.esc + [b]);
      assert State() == WithParser(old(State()), parser);
      if 0x40 <= b <= 0x7e {
        HandleCsi(parser.esc);
        parser := parser.(state := Ground);
      }
    }

    /** One turn of the input loop. */
    method Turn(data: seq<byte>) returns (n: nat)
      requires Valid() && data != []
      modifies this, main, alt, main.Rows(), alt.Rows()
      ensures State() == Effect(old(State()), data) && n == Taken(old(parser.state), data)
      ensures Valid() && Owned() && rawTail == old(rawTail) && bytesRead == old(bytesRead)
    {
      hide WellFormed, Storage, ScreenBuffer.View, DecodeRune, TerminalModel.Control, TerminalModel.PrintRune, HandleEscape,
           TerminalModel.HandleCsi, EndOsc;
      var b := data[0];
      n := 1;
      match parser.state
      case Ground =>
        if b == 0x1b {
          parser := parser.(state := Escape, esc := []);
        } else if b < 0x20 || b == 0x7f {
          Control(b);
        } else {
          var d := DecodeRune(data);
          PrintRune(d.rune);
          n := d.size;
        }
      case Escape => HandleEscapeByte(b);
      case Csi =>
        CsiByte(b);
      case Osc =>
        if b == 0x07 {
          HandleOsc();
        } else if EscBackslash(data) {
          HandleOsc();
          n := 2;
        } else {
          parser := parser.(osc := parser.osc + [b]);
        }
      case CharsetG0 =>
        pen := pen.(g0LineDraw := b == 0x30);
        parser := parser.(state := Ground);
      case CharsetG1 =>
        pen := pen.(g1LineDraw := b == 0x30);
        parser := parser.(state := Ground);
    }

    method AppendRawTail(data: seq<byte>)
      modifies this`rawTail
      ensures rawTail == Tail(old(rawTail) + data)
    {
      rawTail := rawTail + data;
      if |rawTail| > RAW_LIMIT {
        rawTail := rawTail[|rawTail| - RAW_LIMIT..];
      }
    }

    method Write(data: seq<byte>) returns (written: nat)
      requires Valid()
      modifies this, main, alt, main.Rows(), alt.Rows()
      ensures Emu(State(), rawTail, bytesRead) == TerminalRuns.Write(old(Emu(State(), rawTail, bytesRead)), data)
      ensures Valid() && Owned() && written == |data|
    {
      hide WellFormed, Storage, ScreenBuffer.View, Effect, Taken, Tail;
      written := |data|;
      bytesRead := bytesRead + |data|;
      AppendRawTail(data);
      var rest := data;
      while |rest| > 0
        invariant Valid() && Owned() && Feed(State(), rest) == Feed(old(State()), data)
        invariant rawTail == Tail(old(rawTail) + data) && bytesRead == old(bytesRead) + |data|
      {
        var n := Turn(rest);
        rest := rest[n..];
      }
    }

    method Call(call: Call)
      requires Valid()
      modifies this, main, alt, main.Rows(), alt.Rows()
      ensures Emu(State(), rawTail, bytesRead) == Do(old(Emu(State(), rawTail, bytesRead)), call)
      ensures Valid() && Owned()
    {
      hide WellFormed, Storage, ScreenBuffer.View, TerminalRuns.Write, TerminalRuns.Resize;
      match call
      case Written(data) => var written := Write(data);
      case ResizedTo(cols, rows) => Resize(cols, rows);
    }

    method Resize(cols: int, rows: int)
      requires Valid()
      modifies this`size, this`region, this`cursor, this`saved, this`altSaved, main, alt
      ensures State() == TerminalRuns.Resize(old(State()), cols, rows)
      ensures Valid() && Owned()
    {
      hide ScreenOk, Resized, ClampTo, Distinct, Shaped, ScreenBuffer.View;
      size := NewSize(cols, rows, size.limit, size.marks);
      main.Resize(size.rows, size.cols, size.limit);
      alt.Resize(size.rows, size.cols, 0);
      cursor := ClampTo(cursor, size);
      saved := ClampTo(saved, size);
      altSaved := ClampTo(altSaved, size);
      region := Region(0, size.rows - 1);
    }

    /** The registers a snapshot holds. */
    method Adopt(sn: Snapshot)
      requires size.cols > 0 && size.rows > 0
      modifies this`cursor, this`modes, this`title, this`rawTail, this`bytesRead
      ensures cursor == ClampTo(sn.cursor, size) && title == sn.title
      ensures rawTail == sn.rawTail && bytesRead == sn.bytesRead
      ensures modes == old(modes).(visible := sn.visible || (sn.bytesRead == 0 && sn.lines == [] && sn.cells == []),
                                   altScreen := sn.altScreen)
    {
      cursor := ClampTo(sn.cursor, size);
      modes := modes.(visible := sn.visible, altScreen := sn.altScreen);
      if !sn.visible && sn.bytesRead == 0 && |sn.lines| == 0 && |sn.cells| == 0 {
        modes := modes.(visible := true);
      }
      title, rawTail, bytesRead := sn.title, sn.rawTail, sn.bytesRead;
    }

    method TakeSnapshot() returns (sn: Snapshot)
      requires Valid()
      ensures sn == Snap(Emu(State(), rawTail, bytesRead))
    {
      hide ScreenOk, Strings, CellsString;
      var b := if modes.altScreen then alt else main;
      var cells := [];
      var y := 0;
      while y < |b.lines|
        invariant y <= |b.lines| && cells == Contents(b.lines)[..y]
      {
        cells := cells + [b.lines[y][..]];
        y := y + 1;
      }
      assert cells == Contents(b.lines);
      var lines := RowStrings(cells);
      var history := RowStrings(b.hist);
      sn := Snapshot(size.cols, size.rows, cursor, modes.visible, modes.altScreen, lines, cells, history,
                     title, rawTail, bytesRead);
    }
  }

  method RowString(row: Row) returns (s: seq<Rune>)
    ensures s == CellsString(row)
  {
    s := [];
    var x := 0;
    while x < |row|
      invariant x <= |row| && s + Inked(row[x..]) == Inked(row)
    {
      if row[x].r != 0 {
        s := s + [row[x].r];
      }
      x := x + 1;
    }
    assert s + [] == s;
    s := TrimRight(s);
  }

  method RowStrings(g: Grid) returns (lines: seq<seq<Rune>>)
    ensures lines == Strings(g)
  {
    hide CellsString;
    lines := [];
    var y := 0;
    while y < |g|
      invariant y <= |g| && lines + Strings(g[y..]) == Strings(g)
    {
      var line := RowString(g[y]);
      lines := lines + [line];
      y := y + 1;
    }
  }

  method LineFromString(s: seq<Rune>, cols: nat, marks: set<Rune>) returns (line: Line)
    ensures fresh(line) && line.Length == cols && line[..] == CellsFromString(s, cols, marks)
  {
    line := BlankLine(cols, DEFAULT_ATTR);
    var x: nat, i := 0, 0;
    while i < |s| && x < cols
      invariant i <= |s| && Spelled(line[..], x, s[i..], marks) == CellsFromString(s, cols, marks)
    {
      ghost var was := line[..];
      line[x] := Cell(s[i], DEFAULT_ATTR);
      assert line[..] == was[x := Cell(s[i], DEFAULT_ATTR)];
      x := x + RuneWidth(s[i], marks);
      i := i + 1;
    }
  }

  /** The first rows of a new buffer replaced by copies of the given cells. */
  method LoadCells(b: ScreenBuffer, cells: Grid, ghost rows: nat, cols: nat)
    requires b.Valid(rows, cols) && b.View() == NewScreen(rows, cols)
    modifies b
    ensures b.Valid(rows, cols) && b.View() == Screen(ResizedLines(cells, rows, cols), [])
    ensures forall r :: r in b.Rows() ==> r in old(b.Rows()) || fresh(r)
  {
    var y := 0;
    while y < |b.lines| && y < |cells|
      invariant y <= |b.lines| && y <= |cells| && b.hist == [] && |b.lines| == rows && Shaped(b.lines, cols)
      invariant forall k :: 0 <= k < y ==> fresh(b.lines[k]) && b.lines[k][..] == Fitted(cells[k], cols)
      invariant forall k :: y <= k < rows ==> b.lines[k] == old(b.lines[k])
      invariant forall j, k :: 0 <= j < k < y ==> b.lines[j] != b.lines[k]
    {
      var line := BlankLine(cols, DEFAULT_ATTR);
      CopyInto(line, cells[y]);
      b.lines := b.lines[y := line];
      y := y + 1;
    }
    assert forall k :: y <= k < rows ==> b.lines[k][..] == BlankRow(cols, DEFAULT_ATTR);
    assert b.View().lines == ResizedLines(cells, rows, cols);
  }

  /** The first rows of a new buffer replaced by lines of text. */
  method LoadText(b: ScreenBuffer, text: seq<seq<Rune>>, ghost rows: nat, cols: nat, marks: set<Rune>)
    requires b.Valid(rows, cols) && b.View() == NewScreen(rows, cols)
    modifies b
    ensures b.Valid(rows, cols) && b.View() == Screen(ResizedLines(FromStrings(text, cols, marks), rows, cols), [])
    ensures forall r :: r in b.Rows() ==> r in old(b.Rows()) || fresh(r)
  {
    NewRows(b, rows, cols);
    hide CellsFromString, ResizedLines, NewScreen, FromStrings;
    var y := 0;
    while y < |b.lines| && y < |text|
      invariant y <= |b.lines| && y <= |text| && b.hist == [] && |b.lines| == rows && Shaped(b.lines, cols)
      invariant forall k :: 0 <= k < y ==> fresh(b.lines[k]) && b.lines[k][..] == CellsFromString(text[k], cols, marks)
      invariant forall k :: y <= k < rows ==> b.lines[k] == old(b.lines[k])
      invariant forall j, k :: 0 <= j < k < y ==> b.lines[j] != b.lines[k]
    {
      var line := LineFromString(text[y], cols, marks);
      b.lines := b.lines[y := line];
      y := y + 1;
    }
    TextShown(Contents(b.lines), text, rows, cols, marks);
  }

  lemma NewRows(b: ScreenBuffer, rows: nat, cols: nat)
    requires b.Valid(rows, cols) && b.View() == NewScreen(rows, cols)
    ensures b.hist == [] && forall k :: 0 <= k < rows ==> b.lines[k][..] == BlankRow(cols, DEFAULT_ATTR)
  {
    assert forall k :: 0 <= k < rows ==> b.View().lines[k] == b.lines[k][..];
  }

  lemma TextShown(g: Grid, text: seq<seq<Rune>>, rows: nat, cols: nat, marks: set<Rune>)
    requires |g| == rows
    requires forall k :: 0 <= k < rows ==>
               g[k] == if k < |text| then CellsFromString(text[k], cols, marks) else BlankRow(cols, DEFAULT_ATTR)
    ensures g == ResizedLines(FromStrings(text, cols, marks), rows, cols)
  {
    hide CellsFromString;
    forall k | 0 <= k < rows
      ensures g[k] == ResizedLines(FromStrings(text, cols, marks), rows, cols)[k]
    {
      if k < |text| {
        assert Fitted(g[k], cols) == g[k];
      }
    }
  }

  method LoadHistory(b: ScreenBuffer, text: seq<seq<Rune>>, cols: nat, limit: int, marks: set<Rune>)
    requires b.hist == []
    modifies b`hist
    ensures b.hist == Trimmed(FromStrings(text, cols, marks), limit)
  {
    hide CellsFromString;
    var i := 0;
    while i < |text|
      invariant i <= |text| && b.hist == FromStrings(text, cols, marks)[..i]
    {
      var line := LineFromString(text[i], cols, marks);
      b.hist := b.hist + [line[..]];
      i := i + 1;
    }
    b.TrimHistory(limit);
  }

  method LoadScreen(b: ScreenBuffer, sn: Snapshot, z: Size, limit: int)
    requires b.Valid(z.rows, z.cols) && b.View() == NewScreen(z.rows, z.cols)
    modifies b
    ensures b.Valid(z.rows, z.cols) && b.View() == RestoredScreen(sn, z, limit)
    ensures forall r :: r in b.Rows() ==> r in old(b.Rows()) || fresh(r)
  {
    hide Distinct, Shaped, ResizedLines, FromStrings, NewScreen;
    if |sn.cells| != 0 {
      LoadCells(b, sn.cells, z.rows, z.cols);
    } else {
      LoadText(b, sn.lines, z.rows, z.cols, z.marks);
    }
    LoadHistory(b, sn.history, z.cols, limit, z.marks);
  }

  method Restore(sn: Snapshot, limit: int, marks: set<Rune>) returns (e: Emulator)
    ensures Emu(e.State(), e.rawTail, e.bytesRead) == TerminalRuns.Restore(sn, limit, marks)
    ensures e.Valid() && fresh(e) && fresh(e.main) && fresh(e.alt) && fresh(e.main.Rows()) && fresh(e.alt.Rows())
  {
    hide ScreenOk, NewScreen, RestoredScreen, Distinct, Shaped, ScreenBuffer.View, ClampTo;
    e := new Emulator(sn.cols, sn.rows, limit, marks);
    e.Adopt(sn);
    if e.modes.altScreen {
      LoadScreen(e.alt, sn, e.size, limit);
    } else {
      LoadScreen(e.main, sn, e.size, limit);
    }
  }

  /**
   Any run of writes and resizes from a new or restored emulator: it ends in the state of the model,
   and no two rows share storage.
   */
  method Drive(start: Start, marks: set<Rune>, calls: seq<Call>) returns (e: Emulator)
    ensures Emu(e.State(), e.rawTail, e.bytesRead) == Run(Begin(start, marks), calls)
    ensures e.Valid()
  {
    hide WellFormed, Emulator.Storage, ScreenBuffer.View, Do, New, TerminalRuns.Restore;
    match start {
      case Created(cols, rows, limit) => e := new Emulator(cols, rows, limit, marks);
      case Restored(sn, limit) => e := Restore(sn, limit, marks);
    }
    var i := 0;
    assert calls[0..] == calls;
    while i < |calls|
      invariant i <= |calls| && e.Valid()
      invariant fresh(e) && fresh(e.main) && fresh(e.alt) && fresh(e.main.Rows()) && fresh(e.alt.Rows())
      invariant Run(Emu(e.State(), e.rawTail, e.bytesRead), calls[i..]) == Run(Begin(start, marks), calls)
    {
      assert calls[i..][1..] == calls[i + 1..];
      e.Call(calls[i]);
      i := i + 1;
    }
    assert calls[i..] == [];
  }

  /** The decimal digits at the front of a field. */
  method ParseNumber(f: seq<byte>) returns (n: nat)
    ensures n == Number(f, 0)
  {
    n := 0;
    var j := 0;
    while j < |f| && Digit(f[j])
      invariant j <= |f| && Number(f[j..], n) == Number(f, 0)
    {
      n := n * 10 + DigitValue(f[j]);
      j := j + 1;
    }
  }

  /** Decimal fields separated by ';' or ':'. */
  method ParseCsiParams(body: seq<byte>) returns (params: seq<nat>)
    ensures params == ParseParams(body)
  {
    hide Fields, Number;
    params := [];
    if body == [] {
      return;
    }
    var fields := Fields(body);
    var i := 0;
    while i < |fields|
      invariant i <= |fields| && params + Numbers(fields[i..]) == Numbers(fields)
    {
      var n := ParseNumber(fields[i]);
      params := params + [n];
      i := i + 1;
    }
  }
}
