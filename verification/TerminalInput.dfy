/**
 What an application writes to the terminal: control sequences with decimal parameters (section 5.4
 of ECMA-48), escape sequences, and characters in UTF-8 (section 3 of RFC 3629).
 */
module TerminalInput {
  import opened MachineTypes
  import opened TerminalText
  import opened TerminalModel

  /* ------------------------------------------------------------------ */
  /* Numbers and parameter lists.                                         */
  /* ------------------------------------------------------------------ */

  function Decimal(n: nat): (r: seq<byte>)
    ensures |r| >= 1 && forall i :: 0 <= i < |r| ==> Digit(r[i])
  {
    if n < 10 then [0x30 + n] else Decimal(n / 10) + [0x30 + n % 10]
  }

  /** Parameters with ';' between them. */
  function Parameters(params: seq<nat>): (r: seq<byte>)
    ensures forall i :: 0 <= i < |r| ==> Digit(r[i]) || r[i] == 0x3b
    ensures params != [] ==> r != []
  {
    if params == [] then []
    else if |params| == 1 then Decimal(params[0])
    else Decimal(params[0]) + [0x3b] + Parameters(params[1..])
  }

  predicate AllDigits(s: seq<byte>) {
    forall i :: 0 <= i < |s| ==> Digit(s[i])
  }

  lemma {:induction false} NumberJoin(a: seq<byte>, d: byte, n: nat)
    requires AllDigits(a) && Digit(d)
    ensures Number(a + [d], n) == Number(a, n) * 10 + DigitValue(d)
    decreases |a|
  {
    if a == [] {
      assert (a + [d])[1..] == [];
      assert Number([], n * 10 + DigitValue(d)) == n * 10 + DigitValue(d);
    } else {
      assert (a + [d])[1..] == a[1..] + [d];
      NumberJoin(a[1..], d, n * 10 + DigitValue(a[0]));
    }
  }

  lemma {:induction false} DecimalBack(n: nat)
    ensures Number(Decimal(n), 0) == n
  {
    if n < 10 {
      assert Decimal(n)[1..] == [];
      assert Number([], n) == n;
    } else {
      DecimalBack(n / 10);
      NumberJoin(Decimal(n / 10), 0x30 + n % 10, 0);
    }
  }

  /** A field of digits in front of a separator. */
  lemma {:induction false} FieldsFirst(a: seq<byte>, rest: seq<byte>)
    requires AllDigits(a)
    ensures Fields(a + [0x3b] + rest) == [a] + Fields(rest)
    decreases |a|
  {
    var s := a + [0x3b] + rest;
    if a == [] {
      assert s[1..] == rest;
    } else {
      assert s[1..] == a[1..] + [0x3b] + rest;
      FieldsFirst(a[1..], rest);
      assert [a[0]] + a[1..] == a;
      assert ([a[1..]] + Fields(rest))[1..] == Fields(rest);
    }
  }

  lemma {:induction false} FieldsLast(a: seq<byte>)
    requires AllDigits(a)
    ensures Fields(a) == [a]
    decreases |a|
  {
    if a != [] {
      FieldsLast(a[1..]);
      assert [a[0]] + a[1..] == a;
    }
  }

  /** The parameters an application writes are the ones the terminal reads. */
  lemma {:induction false} ParametersBack(params: seq<nat>)
    requires params != []
    ensures Numbers(Fields(Parameters(params))) == params
  {
    var a := Decimal(params[0]);
    DecimalBack(params[0]);
    if |params| == 1 {
      FieldsLast(a);
      var one := [a];
      assert one[1..] == [] && Numbers(one[1..]) == [];
    } else {
      ParametersBack(params[1..]);
      FieldsFirst(a, Parameters(params[1..]));
      assert ([a] + Fields(Parameters(params[1..])))[1..] == Fields(Parameters(params[1..]));
      assert [params[0]] + params[1..] == params;
    }
  }

  lemma ParamsRead(params: seq<nat>)
    ensures ParseParams(Parameters(params)) == params
  {
    if params != [] {
      ParametersBack(params);
    }
  }

  /* ------------------------------------------------------------------ */
  /* Control sequences.                                                   */
  /* ------------------------------------------------------------------ */

  /** ESC [, parameters, and the byte that says what is meant. */
  function ControlSequence(params: seq<nat>, final: byte): seq<byte> {
    [0x1b, 0x5b] + (Parameters(params) + [final])
  }

  /** The same with '?' in front of the parameters. */
  function PrivateSequence(params: seq<nat>, final: byte): seq<byte> {
    [0x1b, 0x5b] + ([0x3f] + Parameters(params) + [final])
  }

  /** Bytes that do not end a control sequence. */
  predicate Inner(s: seq<byte>) {
    forall i :: 0 <= i < |s| ==> s[i] < 0x40
  }

  predicate AtRest(s: Term) { WellFormed(s) && s.regs.parser.state == Ground }

  lemma FeedOne(s: Term, data: seq<byte>)
    requires WellFormed(s) && data != [] && Taken(s.regs.parser.state, data) == 1
    ensures Feed(s, data) == Feed(Effect(s, data), data[1..])
  {
    hide Effect, Taken, WellFormed;
  }

  lemma {:induction false} FeedBody(s: Term, body: seq<byte>, final: byte)
    requires WellFormed(s) && s.regs.parser.state == Csi && Inner(body) && 0x40 <= final <= 0x7e
    ensures var p := s.regs.parser;
            Feed(s, body + [final])
            == ToState(HandleCsi(WithParser(s, p.(esc := p.esc + body + [final])), p.esc + body + [final]), Ground)
    decreases |body|
  {
    hide WellFormed, HandleCsi, ToState;
    var p, data := s.regs.parser, body + [final];
    FeedOne(s, data);
    if body == [] {
      assert data[1..] == [] && p.esc + body + [final] == p.esc + [final];
      FeedNone(Effect(s, data));
    } else {
      var t := WithParser(s, p.(esc := p.esc + [body[0]]));
      assert data[1..] == body[1..] + [final];
      FeedBody(t, body[1..], final);
      assert p.esc + [body[0]] + body[1..] + [final] == p.esc + body + [final];
      SameParser(s, p.(esc := p.esc + [body[0]]), p.(esc := p.esc + body + [final]));
    }
  }

  lemma FeedNone(s: Term)
    requires WellFormed(s)
    ensures Feed(s, []) == s
  {
    hide WellFormed;
  }

  lemma SameParser(s: Term, p: Parser, q: Parser)
    ensures WithParser(WithParser(s, p), q) == WithParser(s, q)
  {
  }

  /** A whole sequence: it is handled with the parameters and the final byte that were written. */
  lemma FeedSequence(s: Term, body: seq<byte>, final: byte)
    requires AtRest(s) && Inner(body) && 0x40 <= final <= 0x7e
    ensures var p := Parser(Csi, body + [final], s.regs.parser.osc);
            Feed(s, [0x1b, 0x5b] + (body + [final])) == ToState(HandleCsi(WithParser(s, p), body + [final]), Ground)
  {
    hide WellFormed, HandleCsi, ToState, Feed;
    var p0, data := s.regs.parser, [0x1b, 0x5b] + (body + [final]);
    FeedOne(s, data);
    var t := WithParser(s, p0.(state := Escape, esc := []));
    assert data[1..] == [0x5b] + (body + [final]);
    FeedOne(t, data[1..]);
    var u := WithParser(t, t.regs.parser.(state := Csi, esc := []));
    assert data[1..][1..] == body + [final];
    FeedBody(u, body, final);
    assert [] + body + [final] == body + [final];
    SameParser(s, p0.(state := Escape, esc := []), t.regs.parser.(state := Csi, esc := []));
    SameParser(s, u.regs.parser, Parser(Csi, body + [final], p0.osc));
  }

  /** What a sequence does, but for the parser: the effect of its final byte, and the cursor kept on the screen. */
  lemma SequenceIs(s: Term, params: seq<nat>, final: byte)
    requires AtRest(s) && 0x40 <= final <= 0x7e
    ensures var p := Parser(Csi, Parameters(params) + [final], s.regs.parser.osc);
            var e := CsiEffect(WithParser(s, p), final, params, false);
            Feed(s, ControlSequence(params, final))
            == ToState(WithRegs(e, e.regs.(cursor := ClampTo(e.regs.cursor, e.regs.size))), Ground)
  {
    hide WellFormed, Feed, CsiEffect, ToState, ClampTo;
    var body := Parameters(params);
    FeedSequence(s, body, final);
    ParamsRead(params);
    assert (body + [final])[..|body|] == body;
  }

  lemma PrivateIs(s: Term, params: seq<nat>, final: byte)
    requires AtRest(s) && 0x40 <= final <= 0x7e
    ensures var p := Parser(Csi, [0x3f] + Parameters(params) + [final], s.regs.parser.osc);
            var e := CsiEffect(WithParser(s, p), final, params, true);
            Feed(s, PrivateSequence(params, final))
            == ToState(WithRegs(e, e.regs.(cursor := ClampTo(e.regs.cursor, e.regs.size))), Ground)
  {
    hide WellFormed, Feed, CsiEffect, ToState, ClampTo;
    var body := [0x3f] + Parameters(params);
    FeedSequence(s, body, final);
    ParamsRead(params);
    assert (body + [final])[..|body|] == body && body[1..] == Parameters(params);
  }

  /** Only h and l mind the question mark. */
  lemma PrefixIgnored(s: Term, params: seq<nat>, final: byte)
    requires AtRest(s) && 0x40 <= final <= 0x7e && final != 0x68 && final != 0x6c
    ensures var p := Parser(Csi, [0x3f] + Parameters(params) + [final], s.regs.parser.osc);
            var e := CsiEffect(WithParser(s, p), final, params, false);
            Feed(s, PrivateSequence(params, final))
            == ToState(WithRegs(e, e.regs.(cursor := ClampTo(e.regs.cursor, e.regs.size))), Ground)
  {
    hide Feed, ToState, ClampTo, CsiCells, CsiRegs, SetPrivateMode, ScreenOk;
    PrivateIs(s, params, final);
  }
}
