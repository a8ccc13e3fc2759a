/** What each control sequence does, from the bytes an application writes to the cursor and the cells. */
module TerminalSequences {
  import opened MachineTypes
  import opened TerminalScreen
  import opened TerminalModel
  import opened TerminalInput

  function Least(a: int, b: int): int { if a < b then a else b }

  function Most(a: int, b: int): int { if a < b then b else a }

  /** Parameter `i`; zero and nothing stand for `otherwise`. */
  function Given(params: seq<nat>, i: nat, otherwise: nat): nat {
    if i < |params| && params[i] > 0 then params[i] else otherwise
  }

  /** Nothing but the cursor has changed. */
  predicate Points(s: Term, t: Term, x: int, y: int) {
    t == s.(regs := s.regs.(cursor := Cursor(x, y), parser := t.regs.parser)) && t.regs.parser.state == Ground
  }

  /** The last column the cursor can be in after a control sequence. */
  function Column(s: Term): int { Least(s.regs.cursor.x, s.regs.size.cols - 1) }

  /** Between its margins a cursor does not leave them; outside, it stops at the edge of the screen. */
  function Ceiling(r: Regs): int { if r.region.top <= r.cursor.y <= r.region.bottom then r.region.top else 0 }

  function Floor(r: Regs): int { if r.region.top <= r.cursor.y <= r.region.bottom then r.region.bottom else r.size.rows - 1 }

  /** Rows count from the top margin in origin mode. */
  function Origin(r: Regs): int { if r.modes.origin then r.region.top else 0 }

  /** A sequence whose final byte edits no cells. */
  lemma RegistersOnly(s: Term, params: seq<nat>, final: byte)
    requires AtRest(s) && 0x40 <= final <= 0x7e && !EditsCells(final)
    ensures var t := Feed(s, ControlSequence(params, final));
            var p := Parser(Csi, Parameters(params) + [final], s.regs.parser.osc);
            var r := CsiRegs(s.regs.(parser := p), final, params);
            t == s.(regs := r.(cursor := ClampTo(r.cursor, r.size), parser := r.parser.(state := Ground)))
  {
    hide Feed, CsiRegs, ClampTo, ScreenOk;
    SequenceIs(s, params, final);
  }

  /** Final bytes that can move nothing but the cursor. */
  predicate MovesCursor(final: byte) { !EditsCells(final) && final !in {0x68, 0x6c, 0x6d, 0x72, 0x73, 0x75} }

  lemma CursorOnly(s: Term, params: seq<nat>, final: byte)
    requires AtRest(s) && 0x40 <= final <= 0x7e && MovesCursor(final)
    ensures var c := ClampTo(CsiCursor(s.regs, final, params), s.regs.size);
            Points(s, Feed(s, ControlSequence(params, final)), c.x, c.y)
  {
    hide Feed, ControlSequence, Parameters, CsiCursor, ClampTo, ScreenOk, Sgr, SetScrollRegion, SaveCursor, RestoreCursor;
    RegistersOnly(s, params, final);
    CursorApart(s.regs, Parser(Csi, Parameters(params) + [final], s.regs.parser.osc), final, params);
  }

  lemma CursorApart(r: Regs, p: Parser, final: byte, params: seq<nat>)
    ensures CsiCursor(r.(parser := p), final, params) == CsiCursor(r, final, params)
  {
  }

  /** CSI n A: up. */
  lemma CursorUp(s: Term, params: seq<nat>)
    requires AtRest(s)
    ensures Points(s, Feed(s, ControlSequence(params, 0x41)), Column(s),
                   Most(Ceiling(s.regs), s.regs.cursor.y - Given(params, 0, 1)))
  {
    hide Feed, ControlSequence, Parameters;
    CursorOnly(s, params, 0x41);
  }

  /** CSI n B: down. */
  lemma CursorDown(s: Term, params: seq<nat>)
    requires AtRest(s)
    ensures Points(s, Feed(s, ControlSequence(params, 0x42)), Column(s),
                   Least(Floor(s.regs), s.regs.cursor.y + Given(params, 0, 1)))
  {
    hide Feed, ControlSequence, Parameters;
    CursorOnly(s, params, 0x42);
  }

  /** CSI n C: right. */
  lemma CursorForward(s: Term, params: seq<nat>)
    requires AtRest(s)
    ensures Points(s, Feed(s, ControlSequence(params, 0x43)),
                   Least(s.regs.cursor.x + Given(params, 0, 1), s.regs.size.cols - 1), s.regs.cursor.y)
  {
    hide Feed, ControlSequence, Parameters;
    CursorOnly(s, params, 0x43);
  }

  /** CSI n D: left. */
  lemma CursorBackward(s: Term, params: seq<nat>)
    requires AtRest(s)
    ensures Points(s, Feed(s, ControlSequence(params, 0x44)), Most(0, s.regs.cursor.x - Given(params, 0, 1)), s.regs.cursor.y)
  {
    hide Feed, ControlSequence, Parameters;
    CursorOnly(s, params, 0x44);
  }

  /** CSI n E: to the first column, n rows down. */
  lemma NextLine(s: Term, params: seq<nat>)
    requires AtRest(s)
    ensures Points(s, Feed(s, ControlSequence(params, 0x45)), 0, Least(Floor(s.regs), s.regs.cursor.y + Given(params, 0, 1)))
  {
    hide Feed, ControlSequence, Parameters;
    CursorOnly(s, params, 0x45);
  }

  /** CSI n F: to the first column, n rows up. */
  lemma PreviousLine(s: Term, params: seq<nat>)
    requires AtRest(s)
    ensures Points(s, Feed(s, ControlSequence(params, 0x46)), 0, Most(Ceiling(s.regs), s.regs.cursor.y - Given(params, 0, 1)))
  {
    hide Feed, ControlSequence, Parameters;
    CursorOnly(s, params, 0x46);
  }

  /** CSI n G: to column n. */
  lemma ToColumn(s: Term, params: seq<nat>)
    requires AtRest(s)
    ensures Points(s, Feed(s, ControlSequence(params, 0x47)), Least(Given(params, 0, 1), s.regs.size.cols) - 1, s.regs.cursor.y)
  {
    hide Feed, ControlSequence, Parameters;
    CursorOnly(s, params, 0x47);
  }

  /** CSI row ; column H, or f. */
  lemma ToPosition(s: Term, params: seq<nat>, final: byte)
    requires AtRest(s) && (final == 0x48 || final == 0x66)
    ensures Points(s, Feed(s, ControlSequence(params, final)), Least(Given(params, 1, 1), s.regs.size.cols) - 1,
                   Least(Given(params, 0, 1) + Origin(s.regs), s.regs.size.rows) - 1)
  {
    hide Feed, ControlSequence, Parameters;
    CursorOnly(s, params, final);
  }

  /** CSI row d. */
  lemma ToRow(s: Term, params: seq<nat>)
    requires AtRest(s)
    ensures Points(s, Feed(s, ControlSequence(params, 0x64)), Column(s),
                   Least(Given(params, 0, 1) + Origin(s.regs), s.regs.size.rows) - 1)
  {
    hide Feed, ControlSequence, Parameters;
    CursorOnly(s, params, 0x64);
  }

  /** CSI top ; bottom r: margins at least two rows apart take effect and home the cursor. */
  lemma SetMargins(s: Term, params: seq<nat>)
    requires AtRest(s)
    ensures var t := Feed(s, ControlSequence(params, 0x72));
            var top, bottom := Given(params, 0, 1), Least(Given(params, 1, s.regs.size.rows), s.regs.size.rows);
            if top < bottom
            then t == s.(regs := s.regs.(region := Region(top - 1, bottom - 1), cursor := Cursor(0, 0), parser := t.regs.parser))
                 && t.regs.parser.state == Ground
            else Points(s, t, Column(s), s.regs.cursor.y)
  {
    hide Feed, ScreenOk, CsiRegs;
    RegistersOnly(s, params, 0x72);
    MarginRegs(s.regs.(parser := Parser(Csi, Parameters(params) + [0x72], s.regs.parser.osc)), params);
  }

  lemma MarginRegs(r: Regs, params: seq<nat>)
    requires RegionOk(r.region, r.size)
    ensures var top, bottom := Given(params, 0, 1), Least(Given(params, 1, r.size.rows), r.size.rows);
            CsiRegs(r, 0x72, params) == if top < bottom then r.(region := Region(top - 1, bottom - 1), cursor := Cursor(0, 0)) else r
  {
  }

  /** CSI s: the cursor is saved, a pending wrap included. */
  lemma SavePosition(s: Term, params: seq<nat>)
    requires AtRest(s)
    ensures var t := Feed(s, ControlSequence(params, 0x73));
            && t == s.(regs := s.regs.(saved := s.regs.cursor, cursor := Cursor(Column(s), s.regs.cursor.y), parser := t.regs.parser))
            && t.regs.parser.state == Ground
  {
    hide Feed, ScreenOk, ControlSequence, Parameters, Sgr;
    RegistersOnly(s, params, 0x73);
  }

  /** CSI u: back to where it was saved, as far as that is on the screen. */
  lemma RestorePosition(s: Term, params: seq<nat>)
    requires AtRest(s)
    ensures Points(s, Feed(s, ControlSequence(params, 0x75)), Most(0, Least(s.regs.saved.x, s.regs.size.cols - 1)),
                   Most(0, Least(s.regs.saved.y, s.regs.size.rows - 1)))
  {
    hide Feed, ScreenOk, ControlSequence, Parameters, Sgr;
    RegistersOnly(s, params, 0x75);
  }

  /** CSI 4 h and CSI 4 l: insert mode on and off; other modes are not known. */
  lemma InsertMode(s: Term, params: seq<nat>, final: byte)
    requires AtRest(s) && (final == 0x68 || final == 0x6c)
    ensures var t := Feed(s, ControlSequence(params, final));
            var insert := if 4 in params then final == 0x68 else s.regs.modes.insert;
            && t == s.(regs := s.regs.(modes := s.regs.modes.(insert := insert), cursor := Cursor(Column(s), s.regs.cursor.y),
                                       parser := t.regs.parser))
            && t.regs.parser.state == Ground
  {
    hide Feed, ScreenOk, ControlSequence, Parameters, Sgr;
    RegistersOnly(s, params, final);
  }

  /** The final bytes that mean something. */
  predicate Known(final: byte) {
    || 0x40 <= final <= 0x48 || 0x4a <= final <= 0x4d || final == 0x50 || final == 0x53 || final == 0x54 || final == 0x58
    || final == 0x62 || final == 0x64 || final == 0x66 || final == 0x68 || final == 0x6c || final == 0x6d || final == 0x72
    || final == 0x73 || final == 0x75
  }

  /** All others only end a pending wrap. */
  lemma UnknownSequence(s: Term, params: seq<nat>, final: byte)
    requires AtRest(s) && 0x40 <= final <= 0x7e && !Known(final)
    ensures Points(s, Feed(s, ControlSequence(params, final)), Column(s), s.regs.cursor.y)
  {
    hide Feed, ControlSequence, Parameters;
    CursorOnly(s, params, final);
  }

  /* ------------------------------------------------------------------ */
  /* Rendition.                                                           */
  /* ------------------------------------------------------------------ */

  /** The pen after CSI ... m. */
  lemma RenditionIs(s: Term, params: seq<nat>)
    requires AtRest(s)
    ensures var t := Feed(s, ControlSequence(params, 0x6d));
            && t == s.(regs := s.regs.(pen := s.regs.pen.(attr := t.regs.pen.attr), cursor := Cursor(Column(s), s.regs.cursor.y),
                                       parser := t.regs.parser))
            && t.regs.parser.state == Ground
            && t.regs.pen.attr == Sgr(s.regs.pen.attr, if params == [] then [0] else params, 0)
  {
    hide Feed, Sgr;
    RegistersOnly(s, params, 0x6d);
  }

  /** One code: what it sets, and that it leaves the rest. */
  lemma Rendition(s: Term, n: nat)
    requires AtRest(s) && n != 38 && n != 48
    ensures var a, b := s.regs.pen.attr, Feed(s, ControlSequence([n], 0x6d)).regs.pen.attr;
            && (n == 0 ==> b == Attr(false, false, false, -1, -1))
            && (n == 1 ==> b == a.(bold := true)) && (n == 22 ==> b == a.(bold := false))
            && (n == 4 ==> b == a.(underline := true)) && (n == 24 ==> b == a.(underline := false))
            && (n == 7 ==> b == a.(inverse := true)) && (n == 27 ==> b == a.(inverse := false))
            && (30 <= n < 38 ==> b == a.(fg := n - 30)) && (90 <= n < 98 ==> b == a.(fg := n - 82)) && (n == 39 ==> b == a.(fg := -1))
            && (40 <= n < 48 ==> b == a.(bg := n - 40)) && (100 <= n < 108 ==> b == a.(bg := n - 92)) && (n == 49 ==> b == a.(bg := -1))
            && (n !in {0, 1, 4, 7, 22, 24, 27, 39, 49} && !(30 <= n < 48) && !(90 <= n < 98) && !(100 <= n < 108) ==> b == a)
  {
    hide Feed;
    RenditionIs(s, [n]);
    assert Sgr(SgrCode(s.regs.pen.attr, n), [n], 1) == SgrCode(s.regs.pen.attr, n);
  }

  /** Without a code everything is reset. */
  lemma RenditionReset(s: Term)
    requires AtRest(s)
    ensures Feed(s, ControlSequence([], 0x6d)).regs.pen.attr == Attr(false, false, false, -1, -1)
  {
    hide Feed;
    RenditionIs(s, []);
    assert Sgr(DEFAULT_ATTR, [0], 1) == DEFAULT_ATTR;
  }

  /** A foreground (38) or background (48) colour. */
  function Coloured(a: Attr, code: nat, color: int): Attr { if code == 38 then a.(fg := color) else a.(bg := color) }

  /** CSI 38 ; 5 ; k m and CSI 48 ; 5 ; k m: a colour of the palette. */
  lemma PaletteColor(s: Term, code: nat, k: nat)
    requires AtRest(s) && (code == 38 || code == 48)
    ensures Feed(s, ControlSequence([code, 5, k], 0x6d)).regs.pen.attr == Coloured(s.regs.pen.attr, code, Least(k, 255))
  {
    hide Feed;
    var p, a := [code, 5, k], s.regs.pen.attr;
    RenditionIs(s, p);
    assert forall b :: Sgr(b, p, 3) == b;
  }

  /** CSI 38 ; 2 ; r ; g ; b m and CSI 48 ; 2 ; r ; g ; b m: a colour by its parts. */
  lemma TrueColor(s: Term, code: nat, red: nat, green: nat, blue: nat)
    requires AtRest(s) && (code == 38 || code == 48) && red < 256 && green < 256 && blue < 256
    ensures Feed(s, ControlSequence([code, 2, red, green, blue], 0x6d)).regs.pen.attr
         == Coloured(s.regs.pen.attr, code, 0x100_0000 + red * 0x1_0000 + green * 0x100 + blue)
  {
    hide Feed;
    var p := [code, 2, red, green, blue];
    RenditionIs(s, p);
    assert forall b :: Sgr(b, p, 5) == b;
  }

  /** With an empty colour space in front of the parts. */
  lemma TrueColorInSpace(s: Term, code: nat, red: nat, green: nat, blue: nat)
    requires AtRest(s) && (code == 38 || code == 48) && red < 256 && green < 256 && blue < 256
    ensures Feed(s, ControlSequence([code, 2, 0, red, green, blue], 0x6d)).regs.pen.attr
         == Coloured(s.regs.pen.attr, code, 0x100_0000 + red * 0x1_0000 + green * 0x100 + blue)
  {
    hide Feed;
    var p := [code, 2, 0, red, green, blue];
    RenditionIs(s, p);
    assert forall b :: Sgr(b, p, 6) == b;
  }

  /** Codes that stand alone can be written in one sequence or in several. */
  lemma {:induction false} SgrSplit(a: Attr, p: seq<nat>, q: seq<nat>, i: nat)
    requires (forall k :: 0 <= k < |p| ==> p[k] != 38 && p[k] != 48) && i <= |p|
    ensures Sgr(a, p + q, i) == Sgr(Sgr(a, p, i), p + q, |p|)
    decreases |p| - i
  {
    if i < |p| {
      assert (p + q)[i] == p[i];
      SgrSplit(SgrCode(a, p[i]), p, q, i + 1);
    }
  }

  lemma {:induction false} SgrShift(a: Attr, p: seq<nat>, q: seq<nat>, j: nat)
    ensures Sgr(a, p + q, |p| + j) == Sgr(a, q, j)
    decreases |q| - j
  {
    if j < |q| {
      assert (p + q)[|p| + j] == q[j];
      if q[j] == 38 || q[j] == 48 {
        ColorShift(p, q, j);
        var (color, used) := ExtendedColor(q, j);
        if used == 0 {
          SgrShift(a, p, q, j + 1);
        } else {
          SgrShift(if q[j] == 38 then a.(fg := color) else a.(bg := color), p, q, j + used + 1);
        }
      } else {
        SgrShift(SgrCode(a, q[j]), p, q, j + 1);
      }
    }
  }

  lemma ColorShift(p: seq<nat>, q: seq<nat>, j: nat)
    ensures ExtendedColor(p + q, |p| + j) == ExtendedColor(q, j)
  {
    assert forall k :: 0 <= k < |q| ==> (p + q)[|p| + k] == q[k];
  }

  /** So codes in one sequence take effect one after the other. */
  lemma RenditionJoins(s: Term, p: seq<nat>, q: seq<nat>)
    requires AtRest(s) && p != [] && q != [] && forall k :: 0 <= k < |p| ==> p[k] != 38 && p[k] != 48
    ensures AtRest(Feed(s, ControlSequence(p, 0x6d)))
    ensures Feed(s, ControlSequence(p + q, 0x6d)).regs.pen.attr
         == Feed(Feed(s, ControlSequence(p, 0x6d)), ControlSequence(q, 0x6d)).regs.pen.attr
  {
    hide Feed, Sgr, ControlSequence;
    RenditionIs(s, p);
    RenditionIs(s, p + q);
    RenditionIs(Feed(s, ControlSequence(p, 0x6d)), q);
    var a := s.regs.pen.attr;
    SgrSplit(a, p, q, 0);
    SgrShift(Sgr(a, p, 0), p, q, 0);
  }

  /** A colour as an application writes it: from the palette, by its parts, or by its parts after an empty colour space. */
  predicate WholeColor(p: seq<nat>) {
    && |p| >= 2 && (p[0] == 38 || p[0] == 48)
    && ((|p| == 3 && p[1] == 5) || (|p| == 5 && p[1] == 2 && p[2] != 0) || (|p| == 6 && p[1] == 2 && p[2] == 0))
  }

  lemma ColorAlone(p: seq<nat>, q: seq<nat>)
    requires WholeColor(p)
    ensures ExtendedColor(p + q, 0) == ExtendedColor(p, 0) && ExtendedColor(p, 0).1 + 1 == |p|
  {
    assert forall i :: 0 <= i < |p| ==> (p + q)[i] == p[i];
  }

  /** Codes after such a colour take effect after it. */
  lemma ColorThen(s: Term, p: seq<nat>, q: seq<nat>)
    requires AtRest(s) && WholeColor(p) && q != []
    ensures AtRest(Feed(s, ControlSequence(p, 0x6d)))
    ensures Feed(s, ControlSequence(p + q, 0x6d)).regs.pen.attr
         == Feed(Feed(s, ControlSequence(p, 0x6d)), ControlSequence(q, 0x6d)).regs.pen.attr
  {
    hide Feed, ControlSequence, ExtendedColor;
    RenditionIs(s, p);
    RenditionIs(s, p + q);
    RenditionIs(Feed(s, ControlSequence(p, 0x6d)), q);
    var a := s.regs.pen.attr;
    ColorAlone(p, q);
    ColorAlone(p, []);
    assert p + [] == p && (p + q)[0] == p[0];
    var b := Coloured(a, p[0], ExtendedColor(p, 0).0);
    assert Sgr(b, p, |p|) == b;
    assert Sgr(a, p, 0) == b;
    assert Sgr(a, p + q, 0) == Sgr(b, p + q, |p|);
    SgrShift(b, p, q, 0);
  }

  /** With a red part of zero the code after the colour is taken for its last part, the zero for an empty colour space. */
  lemma RedZero(s: Term, code: nat, green: nat, blue: nat, k: nat)
    requires AtRest(s) && (code == 38 || code == 48) && green < 256 && blue < 256
    ensures Feed(s, ControlSequence([code, 2, 0, green, blue, k], 0x6d)).regs.pen.attr
         == Coloured(s.regs.pen.attr, code, 0x100_0000 + green * 0x1_0000 + blue * 0x100 + Least(k, 255))
  {
    hide Feed;
    var p := [code, 2, 0, green, blue, k];
    RenditionIs(s, p);
    assert forall b :: Sgr(b, p, 6) == b;
  }

  /** So a colour by its parts and the code after it are taken in turn exactly when the red part is not zero. */
  lemma PartsThenCodeIff(s: Term, code: nat, red: nat, green: nat, blue: nat, k: nat)
    requires AtRest(s) && (code == 38 || code == 48) && red < 256 && green < 256 && blue < 256
    ensures AtRest(Feed(s, ControlSequence([code, 2, red, green, blue], 0x6d)))
    ensures Feed(s, ControlSequence([code, 2, red, green, blue, k], 0x6d)).regs.pen.attr
         == Feed(Feed(s, ControlSequence([code, 2, red, green, blue], 0x6d)), ControlSequence([k], 0x6d)).regs.pen.attr
       <==> red != 0
  {
    hide Feed, ControlSequence;
    var p := [code, 2, red, green, blue];
    assert [code, 2, red, green, blue, k] == p + [k];
    RenditionIs(s, p);
    if red != 0 {
      ColorThen(s, p, [k]);
    } else {
      RedZero(s, code, green, blue, k);
      TrueColor(s, code, 0, green, blue);
      var t := Feed(s, ControlSequence(p, 0x6d));
      if k == 38 || k == 48 {
        NoColor(t, k, []);
        assert [k] + [] == [k];
      } else {
        Rendition(t, k);
        PartsTell(green, blue, k);
      }
    }
  }

  lemma PartsTell(green: nat, blue: nat, k: nat)
    requires green < 256 && blue < 256
    ensures 0x100_0000 + green * 0x100 + blue == 0x100_0000 + green * 0x1_0000 + blue * 0x100 + Least(k, 255) ==> k == 0
  {
    var n := Least(k, 255);
    if green * 0x100 + blue == green * 0x1_0000 + blue * 0x100 + n {
      assert green == 0;
    }
  }

  /** 38 or 48 that begins no colour does not count. */
  lemma NoColor(s: Term, code: nat, q: seq<nat>)
    requires AtRest(s) && (code == 38 || code == 48)
    requires q == [] || (q[0] != 5 && q[0] != 2) || |q| == 1 || (q[0] == 2 && |q| < 4)
    ensures Feed(s, ControlSequence([code] + q, 0x6d)).regs.pen.attr
         == if q == [] then s.regs.pen.attr else Feed(s, ControlSequence(q, 0x6d)).regs.pen.attr
  {
    hide Feed, ControlSequence;
    var p, a := [code] + q, s.regs.pen.attr;
    RenditionIs(s, p);
    RenditionIs(s, q);
    assert ExtendedColor(p, 0).1 == 0;
    assert Sgr(a, p, 0) == Sgr(a, p, 1);
    SgrShift(a, [code], q, 0);
  }

  /* ------------------------------------------------------------------ */
  /* Cells.                                                               */
  /* ------------------------------------------------------------------ */

  /** The cell at a place of the screen on show, and a blank one in the pen's colours. */
  function Shown(s: Term, x: int, y: int): Cell
    requires FramesOk(s) && 0 <= x < s.regs.size.cols && 0 <= y < s.regs.size.rows
  {
    Active(s).lines[y][x]
  }

  function Space(s: Term): Cell { Cell(0x20, s.regs.pen.attr) }

  /** Only cells of the screen on show have changed, and the cursor if a wrap was pending. */
  predicate Edited(s: Term, t: Term) {
    && FramesOk(t) && t.regs == s.regs.(cursor := Cursor(Column(s), s.regs.cursor.y), parser := t.regs.parser)
    && t.regs.parser.state == Ground && Active(t).hist == Active(s).hist
    && (if s.regs.modes.altScreen then t.main == s.main else t.alt == s.alt)
  }

  /** A sequence that edits cells. */
  lemma CellsOnly(s: Term, params: seq<nat>, final: byte)
    requires AtRest(s) && 0x40 <= final <= 0x7e && EditsCells(final)
    ensures var t := Feed(s, ControlSequence(params, final));
            var p := Parser(Csi, Parameters(params) + [final], s.regs.parser.osc);
            var e := CsiCells(WithParser(s, p), final, params);
            t == e.(regs := e.regs.(cursor := ClampTo(e.regs.cursor, e.regs.size), parser := e.regs.parser.(state := Ground)))
  {
    hide Feed, CsiCells, ClampTo, ScreenOk;
    SequenceIs(s, params, final);
  }

  /** The state after a sequence that left `e`: the cursor on the screen, the parser at rest. */
  function Ended(e: Term): Term
    requires e.regs.size.cols > 0 && e.regs.size.rows > 0
  {
    e.(regs := e.regs.(cursor := ClampTo(e.regs.cursor, e.regs.size), parser := e.regs.parser.(state := Ground)))
  }

  /** Row `c.y` has become `row`. */
  lemma RowEdited(s: Term, p: Parser, row: Row)
    requires AtRest(s) && |row| == s.regs.size.cols
    ensures var t := Ended(WithRow(WithParser(s, p), s.regs.cursor.y, row));
            && Edited(s, t)
            && (forall x, y :: 0 <= x < s.regs.size.cols && 0 <= y < s.regs.size.rows ==>
                  Shown(t, x, y) == if y == s.regs.cursor.y then row[x] else Shown(s, x, y))
  {
  }

  lemma InsertedAt(row: Row, at: nat, n: nat, attr: Attr, x: nat)
    requires x < |row|
    ensures Inserted(row, at, n, attr)[x] == if x < at then row[x] else if x < at + n then Cell(0x20, attr) else row[x - n]
  {
  }

  lemma DeletedAt(row: Row, at: nat, n: nat, attr: Attr, x: nat)
    requires x < |row|
    ensures Deleted(row, at, n, attr)[x] == if x < at then row[x] else if x + n < |row| then row[x + n] else Cell(0x20, attr)
  {
  }

  lemma ClearedAt(row: Row, start: int, end: int, attr: Attr, x: nat)
    requires x < |row|
    ensures Cleared(row, start, end, attr)[x] == if start <= x < end then Cell(0x20, attr) else row[x]
  {
  }

  /** What the row of the cursor has become. */
  lemma RowSequence(s: Term, params: seq<nat>, final: byte)
    requires AtRest(s) && (final == 0x40 || final == 0x50 || final == 0x58 || final == 0x4b)
    ensures var t, n, c, a := Feed(s, ControlSequence(params, final)), Given(params, 0, 1), s.regs.cursor, s.regs.pen.attr;
            var row, mode := CursorRow(s), Given(params, 0, 0);
            var cols := s.regs.size.cols;
            var row' := if final == 0x40 then Inserted(row, c.x, n, a)
                        else if final == 0x50 then Deleted(row, c.x, n, a)
                        else if final == 0x58 then Cleared(row, c.x, c.x + n, a)
                        else if mode == 1 then Cleared(row, 0, c.x + 1, a)
                        else if mode == 2 then Cleared(row, 0, cols, a)
                        else Cleared(row, c.x, cols, a);
            t == Ended(WithRow(WithParser(s, Parser(Csi, Parameters(params) + [final], s.regs.parser.osc)), c.y, row'))
  {
    hide Feed, Inserted, Deleted, Cleared, ClampTo, ScreenOk, ControlSequence, Parameters, CsiCells, CursorRow;
    CellsOnly(s, params, final);
    RowCells(WithParser(s, Parser(Csi, Parameters(params) + [final], s.regs.parser.osc)), params, final);
    SameRow(s, Parser(Csi, Parameters(params) + [final], s.regs.parser.osc));
  }

  lemma SameRow(s: Term, p: Parser)
    requires WellFormed(s)
    ensures CursorRow(WithParser(s, p)) == CursorRow(s)
  {
  }

  /** The sequences that edit the row of the cursor. */
  lemma RowCells(s: Term, params: seq<nat>, final: byte)
    requires WellFormed(s) && (final == 0x40 || final == 0x50 || final == 0x58 || final == 0x4b)
    ensures var n, c, a, row := Given(params, 0, 1), s.regs.cursor, s.regs.pen.attr, CursorRow(s);
            CsiCells(s, final, params)
            == if final == 0x40 then WithRow(s, c.y, Inserted(row, c.x, n, a))
               else if final == 0x50 then WithRow(s, c.y, Deleted(row, c.x, n, a))
               else if final == 0x58 then WithRow(s, c.y, Cleared(row, c.x, c.x + n, a))
               else EraseLine(s, Given(params, 0, 0))
  {
    hide Inserted, Deleted, Cleared, ScreenOk, EraseLine, WithRow, CursorRow;
  }

  /** The cell that belongs at a place once `n` blanks are inserted at the cursor. */
  function PushedRight(s: Term, n: nat, x: int, y: int): Cell
    requires WellFormed(s) && 0 <= x < s.regs.size.cols && 0 <= y < s.regs.size.rows
  {
    var c := s.regs.cursor;
    if y != c.y || x < c.x then Shown(s, x, y) else if x < c.x + n then Space(s) else Shown(s, x - n, y)
  }

  /** The cell that belongs at a place once `n` cells are deleted at the cursor. */
  function PulledLeft(s: Term, n: nat, x: int, y: int): Cell
    requires WellFormed(s) && 0 <= x < s.regs.size.cols && 0 <= y < s.regs.size.rows
  {
    var c := s.regs.cursor;
    if y != c.y || x < c.x then Shown(s, x, y) else if x + n < s.regs.size.cols then Shown(s, x + n, y) else Space(s)
  }

  /** CSI n @: n blanks at the cursor push the rest of the row to the right. */
  lemma InsertsCharacters(s: Term, params: seq<nat>)
    requires AtRest(s)
    ensures var t, n, c := Feed(s, ControlSequence(params, 0x40)), Given(params, 0, 1), s.regs.cursor;
            && Edited(s, t)
            && (forall x, y :: 0 <= x < s.regs.size.cols && 0 <= y < s.regs.size.rows ==>
                  Shown(t, x, y) == PushedRight(s, n, x, y))
  {
    hide Feed, Inserted, Edited, Ended, WithRow, ControlSequence, Parameters;
    var t, n, c := Feed(s, ControlSequence(params, 0x40)), Given(params, 0, 1), s.regs.cursor;
    var row := Inserted(CursorRow(s), c.x, n, s.regs.pen.attr);
    RowSequence(s, params, 0x40);
    RowEdited(s, Parser(Csi, Parameters(params) + [0x40], s.regs.parser.osc), row);
    forall x, y | 0 <= x < s.regs.size.cols && 0 <= y < s.regs.size.rows
      ensures Shown(t, x, y) == PushedRight(s, n, x, y)
    {
      InsertedAt(CursorRow(s), c.x, n, s.regs.pen.attr, x);
    }
  }

  /** CSI n P: n cells go, the rest of the row comes up from the right, and blanks follow. */
  lemma DeletesCharacters(s: Term, params: seq<nat>)
    requires AtRest(s)
    ensures var t, n, c := Feed(s, ControlSequence(params, 0x50)), Given(params, 0, 1), s.regs.cursor;
            && Edited(s, t)
            && (forall x, y :: 0 <= x < s.regs.size.cols && 0 <= y < s.regs.size.rows ==>
                  Shown(t, x, y) == PulledLeft(s, n, x, y))
  {
    hide Feed, Deleted, Edited, Ended, WithRow, ControlSequence, Parameters;
    var t, n, c := Feed(s, ControlSequence(params, 0x50)), Given(params, 0, 1), s.regs.cursor;
    var row := Deleted(CursorRow(s), c.x, n, s.regs.pen.attr);
    RowSequence(s, params, 0x50);
    RowEdited(s, Parser(Csi, Parameters(params) + [0x50], s.regs.parser.osc), row);
    forall x, y | 0 <= x < s.regs.size.cols && 0 <= y < s.regs.size.rows
      ensures Shown(t, x, y) == PulledLeft(s, n, x, y)
    {
      DeletedAt(CursorRow(s), c.x, n, s.regs.pen.attr, x);
    }
  }

  /** CSI n X: n cells from the cursor on become blank. */
  lemma ErasesCharacters(s: Term, params: seq<nat>)
    requires AtRest(s)
    ensures var t, n, c := Feed(s, ControlSequence(params, 0x58)), Given(params, 0, 1), s.regs.cursor;
            && Edited(s, t)
            && (forall x, y :: 0 <= x < s.regs.size.cols && 0 <= y < s.regs.size.rows ==>
                  Shown(t, x, y) == if y == c.y && c.x <= x < c.x + n then Space(s) else Shown(s, x, y))
  {
    hide Feed, Cleared, Edited, Ended, WithRow, ControlSequence, Parameters;
    var t, n, c := Feed(s, ControlSequence(params, 0x58)), Given(params, 0, 1), s.regs.cursor;
    var row := Cleared(CursorRow(s), c.x, c.x + n, s.regs.pen.attr);
    RowSequence(s, params, 0x58);
    RowEdited(s, Parser(Csi, Parameters(params) + [0x58], s.regs.parser.osc), row);
    forall x, y | 0 <= x < s.regs.size.cols && 0 <= y < s.regs.size.rows
      ensures Shown(t, x, y) == if y == c.y && c.x <= x < c.x + n then Space(s) else Shown(s, x, y)
    {
      ClearedAt(CursorRow(s), c.x, c.x + n, s.regs.pen.attr, x);
    }
  }

  /** CSI n K: the row from the cursor on, up to the cursor (1), or all of it (2). */
  lemma ErasesLine(s: Term, params: seq<nat>)
    requires AtRest(s)
    ensures var t, mode, c := Feed(s, ControlSequence(params, 0x4b)), Given(params, 0, 0), s.regs.cursor;
            && Edited(s, t)
            && (forall x, y :: 0 <= x < s.regs.size.cols && 0 <= y < s.regs.size.rows ==>
                  var erased := if mode == 1 then x <= c.x else if mode == 2 then true else c.x <= x;
                  Shown(t, x, y) == if y == c.y && erased then Space(s) else Shown(s, x, y))
  {
    hide Feed, Cleared, Edited, Ended, WithRow, ControlSequence, Parameters;
    var t, mode, c := Feed(s, ControlSequence(params, 0x4b)), Given(params, 0, 0), s.regs.cursor;
    var lo, hi := if mode == 1 || mode == 2 then 0 else c.x, if mode == 1 then c.x + 1 else s.regs.size.cols;
    RowSequence(s, params, 0x4b);
    RowEdited(s, Parser(Csi, Parameters(params) + [0x4b], s.regs.parser.osc), Cleared(CursorRow(s), lo, hi, s.regs.pen.attr));
    forall x, y | 0 <= x < s.regs.size.cols && 0 <= y < s.regs.size.rows
      ensures var erased := if mode == 1 then x <= c.x else if mode == 2 then true else c.x <= x;
              Shown(t, x, y) == if y == c.y && erased then Space(s) else Shown(s, x, y)
    {
      ClearedAt(CursorRow(s), lo, hi, s.regs.pen.attr, x);
    }
  }

  /** From the cursor on, up to it (1), or everywhere (2 and 3), in reading order. */
  predicate Erased(mode: nat, c: Cursor, x: int, y: int) {
    if mode == 1 then y < c.y || (y == c.y && x <= c.x) else if mode == 2 || mode == 3 then true else y > c.y || (y == c.y && c.x <= x)
  }

  /** CSI n J: the screen from the cursor on, up to the cursor (1), or all of it (2); with 3 the history goes as well. */
  lemma ErasesDisplay(s: Term, params: seq<nat>)
    requires AtRest(s)
    ensures var t, mode, c := Feed(s, ControlSequence(params, 0x4a)), Given(params, 0, 0), s.regs.cursor;
            && FramesOk(t) && t.regs == s.regs.(cursor := Cursor(Column(s), s.regs.cursor.y), parser := t.regs.parser)
            && t.regs.parser.state == Ground && Active(t).hist == (if mode == 3 then [] else Active(s).hist)
            && (if s.regs.modes.altScreen then t.main == s.main else t.alt == s.alt)
            && (forall x, y :: 0 <= x < s.regs.size.cols && 0 <= y < s.regs.size.rows ==>
                  Shown(t, x, y) == if Erased(mode, c, x, y) then Space(s) else Shown(s, x, y))
  {
    hide Feed, ControlSequence, Parameters, CsiCells, EraseDisplay;
    CellsOnly(s, params, 0x4a);
    var p := Parser(Csi, Parameters(params) + [0x4a], s.regs.parser.osc);
    DisplayCells(WithParser(s, p), params);
    DisplayErased(s, p, Given(params, 0, 0));
  }

  lemma DisplayCells(s: Term, params: seq<nat>)
    requires WellFormed(s)
    ensures CsiCells(s, 0x4a, params) == EraseDisplay(s, Given(params, 0, 0))
  {
    hide EraseDisplay;
  }

  lemma DisplayErased(s: Term, p: Parser, mode: nat)
    requires AtRest(s)
    ensures var t, c := Ended(EraseDisplay(WithParser(s, p), mode)), s.regs.cursor;
            && FramesOk(t) && t.regs == s.regs.(cursor := Cursor(Column(s), s.regs.cursor.y), parser := p.(state := Ground))
            && Active(t).hist == (if mode == 3 then [] else Active(s).hist)
            && (if s.regs.modes.altScreen then t.main == s.main else t.alt == s.alt)
            && (forall x, y :: 0 <= x < s.regs.size.cols && 0 <= y < s.regs.size.rows ==>
                  Shown(t, x, y) == if Erased(mode, c, x, y) then Space(s) else Shown(s, x, y))
  {
  }
}
