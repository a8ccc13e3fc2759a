/** Characters: UTF-8 as an application writes it, widths, the line-drawing set, the text of rows, and resizing. */
module TerminalCharacters {
  import opened MachineTypes
  import opened TerminalText
  import opened TerminalScreen
  import opened TerminalModel
  import opened TerminalRuns
  import opened TerminalInput

  /* ------------------------------------------------------------------ */
  /* UTF-8 (section 3 of RFC 3629).                                       */
  /* ------------------------------------------------------------------ */

  /** Code points that can be encoded: not surrogates. */
  predicate Scalar(c: Rune) { 0 <= c < 0x11_0000 && !(0xd800 <= c < 0xe000) }

  function Utf8(c: Rune): (r: seq<byte>)
    requires Scalar(c)
    ensures 1 <= |r| <= 4
  {
    if c < 0x80 then [c]
    else if c < 0x800 then [0xc0 + c / 0x40, 0x80 + c % 0x40]
    else if c < 0x1_0000 then [0xe0 + c / 0x1000, 0x80 + c / 0x40 % 0x40, 0x80 + c % 0x40]
    else [0xf0 + c / 0x4_0000, 0x80 + c / 0x1000 % 0x40, 0x80 + c / 0x40 % 0x40, 0x80 + c % 0x40]
  }

  /** Two bytes with these parts. */
  lemma DecodeTwo(data: seq<byte>, p: nat, q: nat)
    requires |data| >= 2 && 2 <= p < 0x20 && q < 0x40 && data[0] == 0xc0 + p && data[1] == 0x80 + q
    ensures DecodeRune(data) == Decoded(p * 0x40 + q, 2)
  {
  }

  lemma DecodeThree(data: seq<byte>, p: nat, q: nat, r: nat)
    requires |data| >= 3 && p < 0x10 && q < 0x40 && r < 0x40 && (p == 0 ==> q >= 0x20) && (p == 0xd ==> q < 0x20)
    requires data[0] == 0xe0 + p && data[1] == 0x80 + q && data[2] == 0x80 + r
    ensures DecodeRune(data) == Decoded(p * 0x1000 + q * 0x40 + r, 3)
  {
  }

  lemma DecodeFour(data: seq<byte>, p: nat, q: nat, r: nat, t: nat)
    requires |data| >= 4 && p < 5 && q < 0x40 && r < 0x40 && t < 0x40 && (p == 0 ==> q >= 0x10) && (p == 4 ==> q < 0x10)
    requires data[0] == 0xf0 + p && data[1] == 0x80 + q && data[2] == 0x80 + r && data[3] == 0x80 + t
    ensures DecodeRune(data) == Decoded(p * 0x4_0000 + q * 0x1000 + r * 0x40 + t, 4)
  {
  }

  /** What was encoded is decoded, whatever follows. */
  lemma DecodesBack(c: Rune, rest: seq<byte>)
    requires Scalar(c)
    ensures DecodeRune(Utf8(c) + rest) == Decoded(c, |Utf8(c)|)
  {
    var data := Utf8(c) + rest;
    if c < 0x80 {
      assert data[0] == c;
    } else if c < 0x800 {
      hide DecodeRune;
      DecodeTwo(data, c / 0x40, c % 0x40);
    } else if c < 0x1_0000 {
      hide DecodeRune;
      ThreeBack(c);
      DecodeThree(data, c / 0x1000, c / 0x40 % 0x40, c % 0x40);
    } else {
      hide DecodeRune;
      FourBack(c);
      DecodeFour(data, c / 0x4_0000, c / 0x1000 % 0x40, c / 0x40 % 0x40, c % 0x40);
    }
  }

  lemma ThreeBack(c: nat)
    requires c < 0x1_0000
    ensures c / 0x1000 * 0x1000 + c / 0x40 % 0x40 * 0x40 + c % 0x40 == c && c / 0x1000 < 0x10
  {
    assert c / 0x40 / 0x40 == c / 0x1000;
  }

  lemma FourBack(c: nat)
    requires c < 0x11_0000
    ensures c / 0x4_0000 * 0x4_0000 + c / 0x1000 % 0x40 * 0x1000 + c / 0x40 % 0x40 * 0x40 + c % 0x40 == c && c / 0x4_0000 < 5
  {
    assert c / 0x40 / 0x40 == c / 0x1000 && c / 0x1000 / 0x40 == c / 0x4_0000;
  }

  lemma TwoParts(p: nat, q: nat)
    requires q < 0x40
    ensures var c := p * 0x40 + q; c / 0x40 == p && c % 0x40 == q
  {
  }

  lemma ThreeParts(p: nat, q: nat, r: nat)
    requires q < 0x40 && r < 0x40
    ensures var c := p * 0x1000 + q * 0x40 + r; c / 0x1000 == p && c / 0x40 % 0x40 == q && c % 0x40 == r
  {
    var c := p * 0x1000 + q * 0x40 + r;
    assert c / 0x40 == p * 0x40 + q;
  }

  lemma FourParts(p: nat, q: nat, r: nat, t: nat)
    requires q < 0x40 && r < 0x40 && t < 0x40
    ensures var c := p * 0x4_0000 + q * 0x1000 + r * 0x40 + t;
            c / 0x4_0000 == p && c / 0x1000 % 0x40 == q && c / 0x40 % 0x40 == r && c % 0x40 == t
  {
    var c := p * 0x4_0000 + q * 0x1000 + r * 0x40 + t;
    assert c / 0x40 == p * 0x1000 + q * 0x40 + r;
    assert c / 0x1000 == p * 0x40 + q;
  }

  /** The parts of a character that took several bytes. */
  lemma SizeTells(data: seq<byte>)
    requires data != []
    ensures var d := DecodeRune(data);
            && (d.size == 2 ==> 0xc2 <= data[0] < 0xe0 && 0x80 <= data[1] < 0xc0)
            && (d.size == 3 ==> && 0xe0 <= data[0] < 0xf0 && 0x80 <= data[1] < 0xc0 && 0x80 <= data[2] < 0xc0
                                && (data[0] == 0xe0 ==> data[1] >= 0xa0) && (data[0] == 0xed ==> data[1] < 0xa0))
            && (d.size == 4 ==> && 0xf0 <= data[0] < 0xf5 && 0x80 <= data[1] < 0xc0 && 0x80 <= data[2] < 0xc0 && 0x80 <= data[3] < 0xc0
                                && (data[0] == 0xf0 ==> data[1] >= 0x90) && (data[0] == 0xf4 ==> data[1] < 0x90))
            && (d.size == 1 && data[0] >= 0x80 ==> d.rune == 0xfffd) && (data[0] < 0x80 ==> d == Decoded(data[0], 1))
  {
  }

  /** A character that took several bytes, or is ASCII, was encoded in just those bytes. */
  lemma DecodedIs(data: seq<byte>)
    requires data != [] && (DecodeRune(data).size > 1 || data[0] < 0x80)
    ensures var d := DecodeRune(data); Scalar(d.rune) && data[..d.size] == Utf8(d.rune)
  {
    hide DecodeRune;
    SizeTells(data);
    var n := DecodeRune(data).size;
    if n == 2 {
      DecodeTwo(data, data[0] - 0xc0, data[1] - 0x80);
      TwoParts(data[0] - 0xc0, data[1] - 0x80);
    } else if n == 3 {
      DecodeThree(data, data[0] - 0xe0, data[1] - 0x80, data[2] - 0x80);
      ThreeParts(data[0] - 0xe0, data[1] - 0x80, data[2] - 0x80);
    } else if n == 4 {
      DecodeFour(data, data[0] - 0xf0, data[1] - 0x80, data[2] - 0x80, data[3] - 0x80);
      FourParts(data[0] - 0xf0, data[1] - 0x80, data[2] - 0x80, data[3] - 0x80);
    }
  }

  /** Anything else is one bad byte, and no character begins there. */
  lemma Malformed(data: seq<byte>, c: Rune)
    requires data != [] && data[0] >= 0x80 && DecodeRune(data).size == 1 && Scalar(c)
    ensures DecodeRune(data) == Decoded(0xfffd, 1) && !(Utf8(c) <= data)
  {
    if Utf8(c) <= data {
      assert data == Utf8(c) + data[|Utf8(c)|..];
      DecodesBack(c, data[|Utf8(c)|..]);
    }
  }

  /** A character that is written is printed. */
  lemma CharacterWritten(s: Term, c: Rune)
    requires AtRest(s) && Scalar(c) && c >= 0x20 && c != 0x7f
    ensures Feed(s, Utf8(c)) == PrintRune(s, c)
  {
    hide WellFormed, PrintRune, DecodeRune;
    var data := Utf8(c);
    assert data + [] == data;
    DecodesBack(c, []);
    assert data[0] >= 0x20 && data[0] != 0x7f && data[0] != 0x1b;
    FeedNone(PrintRune(s, c));
  }

  /** A byte that begins no character is printed as the replacement character, and the next byte is looked at afresh. */
  lemma BadByteWritten(s: Term, data: seq<byte>)
    requires AtRest(s) && data != [] && data[0] >= 0x80 && DecodeRune(data).size == 1
    ensures Feed(s, data) == Feed(PrintRune(s, 0xfffd), data[1..])
  {
    SizeTells(data);
    hide WellFormed, PrintRune, DecodeRune, Feed;
    FeedOne(s, data);
  }

  /* ------------------------------------------------------------------ */
  /* Tables.                                                              */
  /* ------------------------------------------------------------------ */

  /** First and last of each range of wide characters. */
  const WIDE: seq<(Rune, Rune)> := [(0x1100, 0x115f), (0x2329, 0x232a), (0x2e80, 0xa4cf), (0xac00, 0xd7a3), (0xf900, 0xfaff),
                                    (0xfe10, 0xfe19), (0xfe30, 0xfe6f), (0xff00, 0xff60), (0xffe0, 0xffe6)]

  predicate Wide(r: Rune) { exists i :: 0 <= i < |WIDE| && WIDE[i].0 <= r <= WIDE[i].1 }

  /** Marks take no column, wide characters two, all others one. */
  lemma WidthIs(r: Rune, marks: set<Rune>)
    ensures RuneWidth(r, marks) == if r == 0 || r in marks then 0 else if Wide(r) then 2 else 1
  {
    if r >= 0x1100 && RuneWidth(r, {}) == 2 {
      var i := if r <= 0x115f then 0 else if r <= 0x232a then 1 else if r <= 0xa4cf then 2 else if r <= 0xd7a3 then 3
               else if r <= 0xfaff then 4 else if r <= 0xfe19 then 5 else if r <= 0xfe6f then 6 else if r <= 0xff60 then 7 else 8;
      assert WIDE[i].0 <= r <= WIDE[i].1;
    }
  }

  /** Letters of the line-drawing set, and the characters they stand for. */
  const LETTERS := "`afgjklmnqtuvwx"
  const BOXES := "\U{25C6}\U{2592}\U{B0}\U{B1}\U{2518}\U{2510}\U{250C}\U{2514}\U{253C}\U{2500}\U{251C}\U{2524}\U{2534}\U{252C}\U{2502}"

  lemma LineDrawingIs(r: Rune)
    ensures |LETTERS| == |BOXES|
    ensures forall i :: 0 <= i < |LETTERS| && r == LETTERS[i] as int ==> LineDrawing(r) == BOXES[i] as int
    ensures (forall i :: 0 <= i < |LETTERS| ==> r != LETTERS[i] as int) ==> LineDrawing(r) == r
  {
    if LineDrawing(r) != r {
      assert exists i :: 0 <= i < |LETTERS| && r == LETTERS[i] as int by {
        var i := if r == 0x60 then 0 else if r == 0x61 then 1 else if r == 0x66 then 2 else if r == 0x67 then 3
                 else if r == 0x6a then 4 else if r == 0x6b then 5 else if r == 0x6c then 6 else if r == 0x6d then 7
                 else if r == 0x6e then 8 else if r == 0x71 then 9 else if r == 0x74 then 10 else if r == 0x75 then 11
                 else if r == 0x76 then 12 else if r == 0x77 then 13 else 14;
        assert r == LETTERS[i] as int;
      }
    }
  }

  /* ------------------------------------------------------------------ */
  /* Text of rows.                                                        */
  /* ------------------------------------------------------------------ */

  /** Narrow characters in the default colours. */
  predicate PlainRow(row: Row, marks: set<Rune>) {
    forall i :: 0 <= i < |row| ==> RuneWidth(row[i].r, marks) == 1 && row[i].attr == DEFAULT_ATTR
  }

  lemma {:induction false} InkedPlain(row: Row, marks: set<Rune>)
    requires PlainRow(row, marks)
    ensures |Inked(row)| == |row| && forall i :: 0 <= i < |row| ==> Inked(row)[i] == row[i].r
  {
    if row != [] {
      assert RuneWidth(row[0].r, marks) == 1;
      InkedPlain(row[1..], marks);
    }
  }

  lemma {:induction false} TrimRightIs(s: seq<Rune>)
    ensures var t := TrimRight(s);
            && t <= s && (t != [] ==> t[|t| - 1] != 0x20) && forall i :: |t| <= i < |s| ==> s[i] == 0x20
  {
    if s != [] && s[|s| - 1] == 0x20 {
      TrimRightIs(s[..|s| - 1]);
    }
  }

  lemma {:induction false} SpelledPlain(row: Row, x: nat, s: seq<Rune>, marks: set<Rune>)
    requires x + |s| <= |row| && forall i :: 0 <= i < |s| ==> RuneWidth(s[i], marks) == 1
    ensures forall k :: 0 <= k < |row| ==>
              Spelled(row, x, s, marks)[k] == if x <= k < x + |s| then Cell(s[k - x], DEFAULT_ATTR) else row[k]
    decreases |s|
  {
    hide RuneWidth;
    if s != [] {
      assert RuneWidth(s[0], marks) == 1;
      SpelledPlain(row[x := Cell(s[0], DEFAULT_ATTR)], x + 1, s[1..], marks);
    }
  }

  /** A row of plain text is the same after it was written as text and read again. */
  lemma TextComesBack(row: Row, marks: set<Rune>)
    requires PlainRow(row, marks)
    ensures CellsFromString(CellsString(row), |row|, marks) == row
  {
    hide RuneWidth, Spelled;
    var text := CellsString(row);
    InkedPlain(row, marks);
    TrimRightIs(Inked(row));
    SpelledPlain(BlankRow(|row|, DEFAULT_ATTR), 0, text, marks);
  }

  /** The text of a row: its characters without second halves of wide ones, up to the last that is no blank. */
  lemma RowText(row: Row)
    ensures var text := CellsString(row);
            && text <= Inked(row) && (text != [] ==> text[|text| - 1] != 0x20)
            && forall i :: |text| <= i < |Inked(row)| ==> Inked(row)[i] == 0x20
  {
    TrimRightIs(Inked(row));
  }

  /* ------------------------------------------------------------------ */
  /* Resizing.                                                            */
  /* ------------------------------------------------------------------ */

  /** Cell by cell: what was there and still fits stays in its place, everything else is blank. */
  lemma ResizeKeeps(g: Grid, rows: nat, cols: nat, x: nat, y: nat)
    requires x < cols && y < rows
    ensures ResizedLines(g, rows, cols)[y][x]
         == if y < |g| && x < |g[y]| then g[y][x] else Cell(0x20, Attr(false, false, false, -1, -1))
  {
    assert ResizedLines(g, rows, cols)[y] == if y < |g| then Fitted(g[y], cols) else BlankRow(cols, DEFAULT_ATTR);
  }

  /** As many of the first rows as the screen has become shorter go to the history, which keeps its newest rows. */
  lemma ResizeRemembers(b: Screen, rows: nat, cols: nat, limit: nat)
    ensures var cut := if |b.lines| > rows then |b.lines| - rows else 0;
            var all := b.hist + b.lines[..cut];
            Resized(b, rows, cols, limit).hist == if limit == 0 then [] else if |all| > limit then all[|all| - limit..] else all
  {
    assert b.lines[..0] == [] && b.hist + [] == b.hist;
  }

  /** Nothing but blanks, and no history. */
  predicate Blanked(b: Screen, cols: int, rows: int) {
    && b.hist == [] && |b.lines| == rows
    && forall y :: 0 <= y < rows ==>
         |b.lines[y]| == cols && forall x :: 0 <= x < cols ==> b.lines[y][x] == Cell(0x20, Attr(false, false, false, -1, -1))
  }

  /** A new terminal: 80 by 24 unless told otherwise, blank, the cursor at home and visible, and lines wrap. */
  lemma NewTerminal(cols: int, rows: int, limit: int, marks: set<Rune>)
    ensures var e := New(cols, rows, limit, marks);
            var w, h, r := if cols <= 0 then 80 else cols, if rows <= 0 then 24 else rows, e.term.regs;
            && r.size == Size(w, h, if limit < 0 then 0 else limit, marks) && r.region == Region(0, h - 1)
            && r.cursor == Cursor(0, 0) && r.saved == Cursor(0, 0) && r.altSaved == Cursor(0, 0)
            && r.modes == Modes(true, false, false, false, true) && r.pen == Pen(Attr(false, false, false, -1, -1), 0, false, false)
            && !r.last.valid && r.title == [] && r.parser.state == Ground
            && Blanked(e.term.main, w, h) && Blanked(e.term.alt, w, h) && e.rawTail == [] && e.bytesRead == 0
  {
  }

  /** Both screens take the new size; the cursors stay on the screen; the margins are those of the screen. */
  lemma ResizedTerminal(s: Term, cols: int, rows: int)
    requires WellFormed(s)
    ensures var t := Resize(s, cols, rows);
            var w, h := if cols <= 0 then 80 else cols, if rows <= 0 then 24 else rows;
            && t.regs.size == s.regs.size.(cols := w, rows := h) && t.regs.region == Region(0, h - 1)
            && t.regs == s.regs.(size := t.regs.size, region := t.regs.region, cursor := t.regs.cursor, saved := t.regs.saved,
                                 altSaved := t.regs.altSaved)
            && OnScreen(s.regs.cursor, t.regs.cursor, w, h) && OnScreen(s.regs.saved, t.regs.saved, w, h)
            && OnScreen(s.regs.altSaved, t.regs.altSaved, w, h)
            && t.main == Resized(s.main, h, w, s.regs.size.limit) && t.alt == Resized(s.alt, h, w, 0)
  {
    hide ScreenOk, Resized;
  }

  /** The nearest place on the screen. */
  predicate OnScreen(was: Cursor, now: Cursor, cols: int, rows: int) {
    && now.x == (if was.x < 0 then 0 else if was.x >= cols then cols - 1 else was.x)
    && now.y == (if was.y < 0 then 0 else if was.y >= rows then rows - 1 else was.y)
  }

  /** A resize changes nothing but the terminal, which then has that many columns and rows. */
  lemma CallResizes(e: Emu, cols: int, rows: int)
    requires WellFormed(e.term)
    ensures var f := Do(e, ResizedTo(cols, rows));
            && f.rawTail == e.rawTail && f.bytesRead == e.bytesRead && f.term == Resize(e.term, cols, rows)
            && f.term.regs.size.cols == (if cols <= 0 then 80 else cols)
            && f.term.regs.size.rows == (if rows <= 0 then 24 else rows)
  {
    ResizedTerminal(e.term, cols, rows);
  }
}
