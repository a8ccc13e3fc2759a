/** Modes, escape sequences, control bytes and titles, from the bytes an application writes to what they change. */
module TerminalModes {
  import opened MachineTypes
  import opened TerminalText
  import opened TerminalScreen
  import opened TerminalModel
  import opened TerminalInput
  import opened TerminalSequences

  /* ------------------------------------------------------------------ */
  /* Private modes.                                                       */
  /* ------------------------------------------------------------------ */

  /** Whether 'h' or 'l' was written. */
  function Letter(on: bool): byte { if on then 0x68 else 0x6c }

  /** CSI ? n h or l, but for the parser and a pending wrap. */
  lemma PrivateMode(s: Term, n: nat, on: bool)
    requires AtRest(s)
    ensures var t := Feed(s, PrivateSequence([n], Letter(on)));
            var e := SetPrivateMode1(WithParser(s, Parser(Csi, [0x3f] + Parameters([n]) + [Letter(on)], s.regs.parser.osc)), n, on);
            t == Ended(e)
  {
    hide Feed, SetPrivateMode1, ScreenOk, ClampTo, Parameters;
    PrivateIs(s, [n], Letter(on));
    var p := WithParser(s, Parser(Csi, [0x3f] + Parameters([n]) + [Letter(on)], s.regs.parser.osc));
    var e := SetPrivateMode1(p, n, on);
    assert SetPrivateMode(e, [], on) == e;
    assert [n][1..] == [];
    assert SetPrivateMode(p, [n], on) == e;
  }

  /** Registers after a mode that leaves the screens alone. */
  predicate Now(s: Term, t: Term, modes: Modes, cursor: Cursor) {
    t == s.(regs := s.regs.(modes := modes, cursor := cursor, parser := t.regs.parser)) && t.regs.parser.state == Ground
  }

  /** ?6: origin mode, with the cursor at its origin. */
  lemma OriginMode(s: Term, on: bool)
    requires AtRest(s)
    ensures Now(s, Feed(s, PrivateSequence([6], Letter(on))), s.regs.modes.(origin := on), Cursor(0, if on then s.regs.region.top else 0))
  {
    hide Feed, ScreenOk;
    PrivateMode(s, 6, on);
  }

  /** ?7: lines wrap. */
  lemma WrapMode(s: Term, on: bool)
    requires AtRest(s)
    ensures Now(s, Feed(s, PrivateSequence([7], Letter(on))), s.regs.modes.(autoWrap := on), Cursor(Column(s), s.regs.cursor.y))
  {
    hide Feed, ScreenOk;
    PrivateMode(s, 7, on);
  }

  /** ?25: the cursor is visible. */
  lemma VisibleMode(s: Term, on: bool)
    requires AtRest(s)
    ensures Now(s, Feed(s, PrivateSequence([25], Letter(on))), s.regs.modes.(visible := on), Cursor(Column(s), s.regs.cursor.y))
  {
    hide Feed, ScreenOk;
    PrivateMode(s, 25, on);
  }

  /** Every cell is a blank in the default colours, and there is no history. */
  predicate Empty(b: Screen, z: Size) {
    && b.hist == [] && |b.lines| == z.rows
    && forall y :: 0 <= y < z.rows ==>
         |b.lines[y]| == z.cols && forall x :: 0 <= x < z.cols ==> b.lines[y][x] == Cell(0x20, Attr(false, false, false, -1, -1))
  }

  /** ?47 and ?1047: the alternate screen, empty and with the cursor at home, or the main screen again. */
  lemma AlternateMode(s: Term, n: nat, on: bool)
    requires AtRest(s) && (n == 47 || n == 1047)
    ensures var t := Feed(s, PrivateSequence([n], Letter(on)));
            && t.regs == s.regs.(modes := s.regs.modes.(altScreen := on), cursor := Cursor(0, 0), parser := t.regs.parser)
            && t.regs.parser.state == Ground && t.main == s.main && (if on then Empty(t.alt, s.regs.size) else t.alt == s.alt)
  {
    hide Feed, ScreenOk;
    PrivateMode(s, n, on);
  }

  /** ?1048: the cursor is saved, or comes back. */
  lemma CursorMode(s: Term, on: bool)
    requires AtRest(s)
    ensures var t := Feed(s, PrivateSequence([1048], Letter(on)));
            && t.main == s.main && t.alt == s.alt && t.regs.parser.state == Ground
            && t.regs == if on then s.regs.(saved := s.regs.cursor, cursor := Cursor(Column(s), s.regs.cursor.y), parser := t.regs.parser)
                         else s.regs.(cursor := Cursor(Most(0, Least(s.regs.saved.x, s.regs.size.cols - 1)),
                                                       Most(0, Least(s.regs.saved.y, s.regs.size.rows - 1))), parser := t.regs.parser)
  {
    hide Feed, ScreenOk;
    PrivateMode(s, 1048, on);
  }

  /** ?1049: the alternate screen, empty, with a cursor of its own; switched off, the main screen and its cursor come back. */
  lemma FullScreenMode(s: Term, on: bool)
    requires AtRest(s)
    ensures var t := Feed(s, PrivateSequence([1049], Letter(on)));
            && t.main == s.main && t.regs.parser.state == Ground && (if on then Empty(t.alt, s.regs.size) else t.alt == s.alt)
            && t.regs == s.regs.(modes := s.regs.modes.(altScreen := on), altSaved := if on then s.regs.cursor else s.regs.altSaved,
                                 cursor := if on then Cursor(0, 0)
                                           else Cursor(Most(0, Least(s.regs.altSaved.x, s.regs.size.cols - 1)),
                                                       Most(0, Least(s.regs.altSaved.y, s.regs.size.rows - 1))),
                                 parser := t.regs.parser)
  {
    hide Feed, ScreenOk;
    PrivateMode(s, 1049, on);
  }

  /** Other private modes are not known. */
  lemma UnknownMode(s: Term, n: nat, on: bool)
    requires AtRest(s) && n !in {6, 7, 25, 47, 1047, 1048, 1049}
    ensures Points(s, Feed(s, PrivateSequence([n], Letter(on))), Column(s), s.regs.cursor.y)
  {
    hide Feed, ScreenOk;
    PrivateMode(s, n, on);
  }

  /** Several modes in one sequence are set one after the other. */
  lemma ModesInTurn(s: Term, n: nat, more: seq<nat>, on: bool)
    requires WellFormed(s)
    ensures SetPrivateMode(s, [n] + more, on) == SetPrivateMode(SetPrivateMode1(s, n, on), more, on)
  {
    hide SetPrivateMode1, ScreenOk;
    assert ([n] + more)[1..] == more;
  }

  /* ------------------------------------------------------------------ */
  /* Escape sequences.                                                    */
  /* ------------------------------------------------------------------ */

  /** ESC b, for a byte that ends the sequence at once. */
  lemma EscapeIs(s: Term, b: byte)
    requires AtRest(s) && b != 0x5b && b != 0x5d && b != 0x28 && b != 0x29
    ensures var p := WithParser(s, Parser(Escape, [], s.regs.parser.osc));
            Feed(s, [0x1b, b]) == ToState(EscapeCommand(p, b), Ground)
  {
    hide WellFormed, EscapeCommand, ToState, Feed;
    FeedOne(s, [0x1b, b]);
    var p := WithParser(s, Parser(Escape, [], s.regs.parser.osc));
    assert [0x1b, b][1..] == [b] && [b][1..] == [];
    FeedOne(p, [b]);
    FeedNone(Effect(p, [b]));
  }

  /** The same state, but for the parser, which is at rest. */
  predicate Same(t: Term, u: Term) {
    t == u.(regs := u.regs.(parser := t.regs.parser)) && t.regs.parser.state == Ground
  }

  /** The parser has no part in line feeds. */
  lemma FeedsAlike(s: Term, p: Parser)
    requires WellFormed(s)
    ensures LineFeed(WithParser(s, p)) == WithParser(LineFeed(s), p)
    ensures ReverseIndex(WithParser(s, p)) == WithParser(ReverseIndex(s), p)
  {
    hide ShiftedUp, ShiftedDown, Trimmed;
  }

  /** ESC D: a line feed. */
  lemma IndexSequence(s: Term)
    requires AtRest(s)
    ensures Same(Feed(s, [0x1b, 0x44]), LineFeed(s))
  {
    hide Feed, ScreenOk, LineFeed;
    EscapeIs(s, 0x44);
    FeedsAlike(s, Parser(Escape, [], s.regs.parser.osc));
  }

  /** ESC E: to the beginning of the next line. */
  lemma NextLineSequence(s: Term)
    requires AtRest(s)
    ensures WellFormed(WithCursor(s, 0, s.regs.cursor.y)) && Same(Feed(s, [0x1b, 0x45]), LineFeed(WithCursor(s, 0, s.regs.cursor.y)))
  {
    hide Feed, ScreenOk, LineFeed;
    EscapeIs(s, 0x45);
    FeedsAlike(WithCursor(s, 0, s.regs.cursor.y), Parser(Escape, [], s.regs.parser.osc));
  }

  /** ESC M: a reverse line feed. */
  lemma ReverseIndexSequence(s: Term)
    requires AtRest(s)
    ensures Same(Feed(s, [0x1b, 0x4d]), ReverseIndex(s))
  {
    hide Feed, ScreenOk, ReverseIndex;
    EscapeIs(s, 0x4d);
    FeedsAlike(s, Parser(Escape, [], s.regs.parser.osc));
  }

  /** ESC 7 saves the cursor. */
  lemma SaveSequence(s: Term)
    requires AtRest(s)
    ensures Same(Feed(s, [0x1b, 0x37]), s.(regs := s.regs.(saved := s.regs.cursor)))
  {
    hide Feed, ScreenOk;
    EscapeIs(s, 0x37);
  }

  /** ESC 8 brings it back. */
  lemma RestoreSequence(s: Term)
    requires AtRest(s)
    ensures Same(Feed(s, [0x1b, 0x38]),
                 s.(regs := s.regs.(cursor := Cursor(Most(0, Least(s.regs.saved.x, s.regs.size.cols - 1)),
                                                     Most(0, Least(s.regs.saved.y, s.regs.size.rows - 1))))))
  {
    hide Feed, WellFormed, ClampTo, Most, Least, EscapeCommand;
    EscapeIs(s, 0x38);
    RestoreIs(WithParser(s, Parser(Escape, [], s.regs.parser.osc)));
  }

  lemma RestoreIs(s: Term)
    requires WellFormed(s)
    ensures EscapeCommand(s, 0x38)
         == s.(regs := s.regs.(cursor := Cursor(Most(0, Least(s.regs.saved.x, s.regs.size.cols - 1)),
                                                Most(0, Least(s.regs.saved.y, s.regs.size.rows - 1)))))
  {
    ClampIs(s.regs.saved, s.regs.size);
    hide ScreenOk, ClampTo, Most, Least;
  }

  lemma ClampIs(c: Cursor, z: Size)
    requires z.cols > 0 && z.rows > 0
    ensures ClampTo(c, z) == Cursor(Most(0, Least(c.x, z.cols - 1)), Most(0, Least(c.y, z.rows - 1)))
  {
  }

  /** ESC c: everything as in a new terminal of this size. */
  lemma ResetSequence(s: Term)
    requires AtRest(s)
    ensures var t, z := Feed(s, [0x1b, 0x63]), s.regs.size;
            && Empty(t.main, z) && Empty(t.alt, z) && t.regs.size == z && t.regs.region == Region(0, z.rows - 1)
            && t.regs.cursor == Cursor(0, 0) && t.regs.saved == Cursor(0, 0) && t.regs.altSaved == Cursor(0, 0)
            && t.regs.modes == Modes(true, false, false, false, true)
            && t.regs.pen == Pen(Attr(false, false, false, -1, -1), 0, false, false)
            && !t.regs.last.valid && t.regs.title == [] && t.regs.parser.state == Ground
  {
    hide Feed, ScreenOk;
    EscapeIs(s, 0x63);
  }

  /** Other bytes after ESC do nothing. */
  lemma UnknownEscape(s: Term, b: byte)
    requires AtRest(s) && b !in {0x5b, 0x5d, 0x28, 0x29, 0x44, 0x45, 0x4d, 0x37, 0x38, 0x63}
    ensures Same(Feed(s, [0x1b, b]), s)
  {
    hide Feed, ScreenOk;
    EscapeIs(s, b);
  }

  /** ESC ( and ESC ) with a byte: the line-drawing set in G0 or G1 for '0', the plain one otherwise. */
  lemma CharsetSequences(s: Term, b: byte)
    requires AtRest(s)
    ensures Same(Feed(s, [0x1b, 0x28, b]), s.(regs := s.regs.(pen := s.regs.pen.(g0LineDraw := b == 0x30))))
    ensures Same(Feed(s, [0x1b, 0x29, b]), s.(regs := s.regs.(pen := s.regs.pen.(g1LineDraw := b == 0x30))))
  {
    hide WellFormed, Feed;
    CharsetIs(s, 0x28, b);
    CharsetIs(s, 0x29, b);
  }

  lemma CharsetIs(s: Term, g: byte, b: byte)
    requires AtRest(s) && (g == 0x28 || g == 0x29)
    ensures var p := WithParser(s, Parser(if g == 0x28 then CharsetG0 else CharsetG1, [], s.regs.parser.osc));
            Feed(s, [0x1b, g, b]) == Designate(p, b)
  {
    hide WellFormed, Feed, Designate;
    var data := [0x1b, g, b];
    FeedOne(s, data);
    assert data[1..] == [g, b] && [g, b][1..] == [b] && [b][1..] == [];
    var p := WithParser(s, Parser(Escape, [], s.regs.parser.osc));
    FeedOne(p, [g, b]);
    var q := Effect(p, [g, b]);
    assert q == WithParser(s, Parser(if g == 0x28 then CharsetG0 else CharsetG1, [], s.regs.parser.osc));
    FeedOne(q, [b]);
    FeedNone(Effect(q, [b]));
  }

  /* ------------------------------------------------------------------ */
  /* Titles.                                                              */
  /* ------------------------------------------------------------------ */

  /** No byte of the text ends an operating-system command. */
  predicate NoTerminator(text: seq<byte>) {
    forall i :: 0 <= i < |text| ==> text[i] != 0x07 && text[i] != 0x1b
  }

  lemma {:induction false} OscBody(s: Term, text: seq<byte>, end: seq<byte>)
    requires WellFormed(s) && s.regs.parser.state == Osc && NoTerminator(text) && (end == [0x07] || end == [0x1b, 0x5c])
    ensures var p := s.regs.parser; Feed(s, text + end) == EndOsc(WithParser(s, p.(osc := p.osc + text)))
    decreases |text|
  {
    hide WellFormed, EndOsc;
    var p, data := s.regs.parser, text + end;
    if text == [] {
      assert data == end && p.osc + text == p.osc;
      assert data[Taken(Osc, data)..] == [];
      FeedNone(EndOsc(s));
    } else {
      hide Feed;
      FeedOne(s, data);
      assert data[1..] == text[1..] + end;
      OscBody(WithParser(s, p.(osc := p.osc + [text[0]])), text[1..], end);
      assert p.osc + [text[0]] + text[1..] == p.osc + text;
      SameParser(s, p.(osc := p.osc + [text[0]]), p.(osc := p.osc + text));
    }
  }

  /** ESC ] command ; text, ended by BEL or ESC backslash: commands 0 and 2 set the title, others do nothing. */
  lemma TitleSequence(s: Term, command: byte, text: seq<byte>, end: seq<byte>)
    requires AtRest(s) && Digit(command) && NoTerminator(text) && (end == [0x07] || end == [0x1b, 0x5c])
    ensures var t := Feed(s, [0x1b, 0x5d] + ([command, 0x3b] + text + end));
            Same(t, s.(regs := s.regs.(title := if command == 0x30 || command == 0x32 then text else s.regs.title)))
  {
    hide WellFormed, Feed;
    var body := [command, 0x3b] + text;
    var data := [0x1b, 0x5d] + (body + end);
    FeedOne(s, data);
    assert data[1..] == [0x5d] + (body + end) && data[1..][1..] == body + end;
    var p := WithParser(s, Parser(Escape, [], s.regs.parser.osc));
    FeedOne(p, data[1..]);
    var q := WithParser(s, Parser(Osc, [], []));
    assert Effect(p, data[1..]) == q;
    OscBody(q, body, end);
    assert [] + body == body && body[2..] == text;
  }

  /* ------------------------------------------------------------------ */
  /* Control bytes.                                                       */
  /* ------------------------------------------------------------------ */

  lemma ControlIs(s: Term, b: byte)
    requires AtRest(s) && (b < 0x20 || b == 0x7f) && b != 0x1b
    ensures Feed(s, [b]) == Control(s, b)
  {
    hide WellFormed, Feed, Control;
    FeedOne(s, [b]);
    assert [b][1..] == [];
    FeedNone(Control(s, b));
  }

  /** Backspace, tab, return; line feed, vertical tab and form feed; shift out and in. The rest do nothing. */
  lemma ControlBytes(s: Term, b: byte)
    requires AtRest(s) && (b < 0x20 || b == 0x7f) && b != 0x1b
    ensures var t, c := Feed(s, [b]), s.regs.cursor;
            && (b == 0x08 ==> t == s.(regs := s.regs.(cursor := Cursor(Most(0, c.x - 1), c.y))))
            && (b == 0x09 ==> t == s.(regs := s.regs.(cursor := Cursor(Least(8 * (c.x / 8) + 8, s.regs.size.cols - 1), c.y))))
            && (0x0a <= b <= 0x0c ==> t == LineFeed(s))
            && (b == 0x0d ==> t == s.(regs := s.regs.(cursor := Cursor(0, c.y))))
            && (b == 0x0e ==> t == s.(regs := s.regs.(pen := s.regs.pen.(activeSet := 1))))
            && (b == 0x0f ==> t == s.(regs := s.regs.(pen := s.regs.pen.(activeSet := 0))))
            && (!(0x08 <= b <= 0x0f) ==> t == s)
  {
    hide Feed, LineFeed, ScreenOk;
    ControlIs(s, b);
  }
}
