/** When splitting the terminal's input across two writes matters. */
module TerminalSplit {
  import opened MachineTypes
  import opened TerminalText
  import opened TerminalModel
  import opened TerminalRuns

  /* ------------------------------------------------------------------ */
  /* Splitting the input.                                                 */
  /* ------------------------------------------------------------------ */

  /** Reading `a + b` from `s`, some turn of the loop ends exactly after `a`. */
  predicate CleanSplit(s: Term, a: seq<byte>, b: seq<byte>)
    requires WellFormed(s)
    decreases |a|
  {
    a == []
    || (var n := Taken(s.regs.parser.state, a + b);
        n <= |a| && CleanSplit(Effect(s, a + b), a[n..], b))
  }

  /** A turn that ends inside `a` does not look beyond it. */
  lemma TurnInside(s: Term, a: seq<byte>, b: seq<byte>)
    requires WellFormed(s) && a != [] && Taken(s.regs.parser.state, a + b) <= |a|
    ensures Taken(s.regs.parser.state, a) == Taken(s.regs.parser.state, a + b)
    ensures Effect(s, a) == Effect(s, a + b)
  {
    hide DecodeRune, PrintRune, WellFormed, HandleEscape, HandleCsi, EndOsc, Control, Designate;
    assert (a + b)[0] == a[0] && (|a| > 1 ==> (a + b)[1] == a[1]);
    if s.regs.parser.state == Ground && a[0] != 0x1b && a[0] >= 0x20 && a[0] != 0x7f {
      DecodePrefix(a, b);
    }
  }

  /** At a clean split, writing in two pieces is writing at once. */
  lemma {:induction false} SplitFeed(s: Term, a: seq<byte>, b: seq<byte>)
    requires WellFormed(s) && CleanSplit(s, a, b)
    ensures Feed(Feed(s, a), b) == Feed(s, a + b)
    decreases |a|
  {
    hide Effect, Taken, WellFormed;
    if a == [] {
      assert a + b == b;
    } else {
      var n := Taken(s.regs.parser.state, a + b);
      TurnInside(s, a, b);
      SplitFeed(Effect(s, a + b), a[n..], b);
      assert a[n..] + b == (a + b)[n..];
    }
  }

  lemma SplitWrite(e: Emu, a: seq<byte>, b: seq<byte>)
    requires WellFormed(e.term) && CleanSplit(e.term, a, b)
    ensures Write(Write(e, a), b) == Write(e, a + b)
  {
    hide Feed, Tail, CleanSplit, WellFormed;
    SplitFeed(e.term, a, b);
    TailTwice(e.rawTail, a, b);
  }

  lemma TailTwice(s: seq<byte>, a: seq<byte>, b: seq<byte>)
    ensures Tail(Tail(s + a) + b) == Tail(s + (a + b))
  {
    hide Tail;
    TailOfTail(s + a, b);
    assert s + a + b == s + (a + b);
  }

  /** The split falls inside a valid multi-byte character that starts at `k`. */
  predicate CutsCharacter(s: Term, a: seq<byte>, b: seq<byte>, k: nat)
    requires WellFormed(s) && k < |a|
  {
    Feed(s, a[..k]).regs.parser.state == Ground && a[k] >= 0x80 && k + DecodeRune(a[k..] + b).size > |a|
  }

  /** The split falls between ESC and backslash in an operating-system command. */
  predicate CutsTerminator(s: Term, a: seq<byte>, b: seq<byte>, k: nat)
    requires WellFormed(s) && k < |a|
  {
    Feed(s, a[..k]).regs.parser.state == Osc && k + 1 == |a| && a[k] == 0x1b && b != [] && b[0] == 0x5c
  }

  /** Every split is clean but for these two. */
  lemma {:induction false} UncleanSplits(s: Term, a: seq<byte>, b: seq<byte>) returns (k: nat)
    requires WellFormed(s) && !CleanSplit(s, a, b)
    ensures k < |a| && (CutsCharacter(s, a, b, k) || CutsTerminator(s, a, b, k)) && CleanSplit(s, a[..k], a[k..] + b)
    decreases |a|
  {
    hide Effect, WellFormed, DecodeRune;
    var state := s.regs.parser.state;
    var n := Taken(state, a + b);
    if n > |a| {
      k := 0;
      assert a[..0] == [] && a[0..] == a;
      UncleanTurn(state, a, b);
    } else {
      TurnInside(s, a, b);
      var k' := UncleanSplits(Effect(s, a + b), a[n..], b);
      k := n + k';
      FeedFirst(s, a, b, n, k');
      Shift(a, b, n, k');
    }
  }

  lemma Shift(a: seq<byte>, b: seq<byte>, n: nat, k: nat)
    requires n + k <= |a|
    ensures a[n..][k..] == a[n + k..] && a[..n + k][n..] == a[n..][..k] && a[..n + k] + (a[n + k..] + b) == a + b
  {
  }

  lemma UncleanTurn(state: ParserState, a: seq<byte>, b: seq<byte>)
    requires a != [] && Taken(state, a + b) > |a|
    ensures (state == Ground && a[0] >= 0x80 && DecodeRune(a + b).size > |a|)
            || (state == Osc && |a| == 1 && a[0] == 0x1b && b != [] && b[0] == 0x5c)
  {
    assert (a + b)[0] == a[0] && (|a| == 1 && b != [] ==> (a + b)[1] == b[0]);
  }

  /** The first turn of a longer input can be taken apart. */
  lemma FeedFirst(s: Term, a: seq<byte>, b: seq<byte>, n: nat, k: nat)
    requires WellFormed(s) && a != [] && n == Taken(s.regs.parser.state, a + b) <= |a| && n + k <= |a|
    ensures Feed(s, a[..n + k]) == Feed(Effect(s, a + b), a[n..][..k])
  {
    hide Effect, WellFormed;
    var front, back := a[..n + k], a[n + k..] + b;
    assert front + back == a + b;
    TurnInside(s, front, back);
    assert front[n..] == a[n..][..k];
    hide Taken;
  }

  /** Where the split cuts neither a character nor a terminator, two writes leave the emulator as one does. */
  lemma SplitAnywhere(e: Emu, a: seq<byte>, b: seq<byte>)
    requires WellFormed(e.term)
    requires forall k :: 0 <= k < |a| ==> !CutsCharacter(e.term, a, b, k) && !CutsTerminator(e.term, a, b, k)
    ensures Write(Write(e, a), b) == Write(e, a + b)
  {
    hide CutsCharacter, CutsTerminator, WellFormed;
    if !CleanSplit(e.term, a, b) {
      var k := UncleanSplits(e.term, a, b);
    }
    SplitWrite(e, a, b);
  }

  /* ------------------------------------------------------------------ */
  /* Both exceptions are real.                                            */
  /* ------------------------------------------------------------------ */

  /** Bytes that decode to nothing, one by one. */
  predicate Undecodable(x: seq<byte>) {
    x == [] || (x[0] >= 0x80 && DecodeRune(x) == Decoded(RUNE_ERROR, 1) && Undecodable(x[1..]))
  }

  lemma {:induction false} UndecodablePrints(s: Term, x: seq<byte>)
    requires WellFormed(s) && s.regs.parser.state == Ground && Undecodable(x) && RUNE_ERROR !in s.regs.size.marks
    ensures Feed(s, x).regs.parser.state == Ground && SameSize(s, Feed(s, x))
    ensures x != [] ==> Feed(s, x).regs.last.r == RUNE_ERROR
    decreases |x|
  {
    hide DecodeRune, WellFormed;
    if x != [] {
      Prints(s, RUNE_ERROR);
      assert Effect(s, x) == PrintRune(s, RUNE_ERROR) && Taken(Ground, x) == 1;
      UndecodablePrints(Effect(s, x), x[1..]);
    }
  }

  lemma Prints(s: Term, c: Rune)
    requires WellFormed(s) && RuneWidth(c, s.regs.size.marks) > 0 && c >= 0x80
    ensures PrintRune(s, c).regs.last.r == c && PrintRune(s, c).regs.parser == s.regs.parser
  {
    hide Placed, PrintedRow, Advanced, WithRow;
  }

  /** A cut character decodes to nothing on either side of the cut. */
  lemma CutUndecodable(a: seq<byte>, b: seq<byte>)
    requires a != [] && b != [] && DecodeRune(a + b).size == |a| + |b|
    ensures Undecodable(a) && Undecodable(b)
  {
    var x := a + b;
    WholeCharacter(x);
    assert a[0] == x[0];
    ContinuationUndecodable(x[1..]);
    SuffixUndecodable(x[1..], |a| - 1);
    assert x[1..][|a| - 1..] == b;
    assert forall i :: 0 <= i < |a| - 1 ==> a[1..][i] == x[i + 1];
    ContinuationUndecodable(a[1..]);
  }

  /** A multi-byte character: its first byte announces its length, the rest continue it. */
  lemma WholeCharacter(x: seq<byte>)
    requires |x| > 1 && DecodeRune(x).size == |x|
    ensures SequenceLength(x[0]) == |x| && x[0] >= 0x80 && DecodeRune(x).rune >= 0x80
    ensures forall i :: 1 <= i < |x| ==> Continuation(x[i])
  {
  }

  lemma {:induction false} SuffixUndecodable(x: seq<byte>, k: nat)
    requires k <= |x| && Undecodable(x)
    ensures Undecodable(x[k..])
  {
    if k > 0 {
      SuffixUndecodable(x[1..], k - 1);
      assert x[1..][k - 1..] == x[k..];
    } else {
      assert x[0..] == x;
    }
  }

  lemma {:induction false} ContinuationUndecodable(x: seq<byte>)
    requires forall i :: 0 <= i < |x| ==> Continuation(x[i])
    ensures Undecodable(x)
    decreases |x|
  {
    if x != [] {
      ContinuationUndecodable(x[1..]);
    }
  }

  /** A character that begins in `a` and ends in `b`: what of it lies in `a` decodes to nothing. */
  lemma CutFront(a: seq<byte>, b: seq<byte>)
    requires a != [] && DecodeRune(a + b).size > |a|
    ensures Undecodable(a) && b != [] && Continuation(b[0])
  {
    hide DecodeRune, Continuation, Undecodable;
    var n := DecodeRune(a + b).size;
    CutSlices(a, b, n);
    var rest, later := b[..n - |a|], b[n - |a|..];
    DecodePrefix(a + rest, later);
    CutUndecodable(a, rest);
    WholeCharacter(a + rest);
  }

  lemma CutSlices(a: seq<byte>, b: seq<byte>, n: nat)
    requires |a| < n <= |a| + |b|
    ensures var rest, later := b[..n - |a|], b[n - |a|..];
            a + b == (a + rest) + later && rest != [] && |a + rest| == n && (a + rest)[|a|] == b[0]
  {
  }

  /** A byte that continues no character and is no backslash starts a turn of the loop. */
  lemma TurnStarts(s: Term, a: seq<byte>, b: seq<byte>)
    requires WellFormed(s) && b != [] && !Continuation(b[0]) && b[0] != 0x5c
    ensures CleanSplit(s, a, b)
  {
    if !CleanSplit(s, a, b) {
      var k := UncleanSplits(s, a, b);
      CutFront(a[k..], b);
    }
  }

  lemma AfterPrefix(s: Term, front: seq<byte>, x: seq<byte>)
    requires WellFormed(s) && x != [] && !Continuation(x[0]) && x[0] != 0x5c
    ensures Feed(s, front + x) == Feed(Feed(s, front), x)
  {
    TurnStarts(s, front, x);
    SplitFeed(s, front, x);
  }

  /** After any input that leaves a command open: right after the backslash the split shows, the command is not ended. */
  lemma TerminatorSplitShows(s: Term, front: seq<byte>)
    requires WellFormed(s) && Feed(s, front).regs.parser.state == Osc
    ensures Feed(Feed(s, front + [0x1b]), [0x5c]).regs.parser.state == Osc
    ensures Feed(s, front + [0x1b, 0x5c]).regs.parser.state == Ground
  {
    hide Feed, WellFormed;
    AfterPrefix(s, front, [0x1b]);
    AfterPrefix(s, front, [0x1b, 0x5c]);
    TerminatorAlone(Feed(s, front));
  }

  lemma TerminatorAlone(s: Term)
    requires WellFormed(s) && s.regs.parser.state == Osc
    ensures Feed(Feed(s, [0x1b]), [0x5c]).regs.parser.state == Osc
    ensures Feed(s, [0x1b, 0x5c]).regs.parser.state == Ground
  {
    var one := Effect(s, [0x1b]);
    assert Feed(s, [0x1b]) == Feed(one, []) == one;
    assert Feed(one, [0x5c]) == Feed(Effect(one, [0x5c]), []);
    assert Feed(s, [0x1b, 0x5c]) == Feed(Effect(s, [0x1b, 0x5c]), []);
  }

  /** After any input: right after a printable character that was cut the split shows, the last character is another. */
  lemma CharacterSplitShows(s: Term, front: seq<byte>, a: seq<byte>, b: seq<byte>)
    requires WellFormed(s) && Feed(s, front).regs.parser.state == Ground && RUNE_ERROR !in s.regs.size.marks
    requires a != [] && b != [] && DecodeRune(a + b).size == |a| + |b|
    requires var c := DecodeRune(a + b).rune; c != RUNE_ERROR && RuneWidth(c, s.regs.size.marks) > 0
    ensures Feed(Feed(s, front + a), b) != Feed(s, front + (a + b))
  {
    hide DecodeRune, Feed, WellFormed, RuneWidth, Continuation;
    LeadByte(a, b);
    AfterPrefix(s, front, a);
    AfterPrefix(s, front, a + b);
    CharacterAlone(Feed(s, front), a, b);
  }

  lemma LeadByte(a: seq<byte>, b: seq<byte>)
    requires a != [] && b != [] && DecodeRune(a + b).size == |a| + |b|
    ensures (a + b)[0] == a[0] && !Continuation(a[0]) && a[0] != 0x5c
  {
    WholeCharacter(a + b);
  }

  lemma CharacterAlone(s: Term, a: seq<byte>, b: seq<byte>)
    requires WellFormed(s) && s.regs.parser.state == Ground && RUNE_ERROR !in s.regs.size.marks
    requires a != [] && b != [] && DecodeRune(a + b).size == |a| + |b|
    requires var c := DecodeRune(a + b).rune; c != RUNE_ERROR && RuneWidth(c, s.regs.size.marks) > 0
    ensures Feed(Feed(s, a), b) != Feed(s, a + b)
  {
    var x, c := a + b, DecodeRune(a + b).rune;
    CutUndecodable(a, b);
    WholeCharacter(x);
    UndecodablePrints(s, a);
    UndecodablePrints(Feed(s, a), b);
    assert x[0] == a[0] && a[0] >= 0x80;
    hide DecodeRune, WellFormed, Undecodable;
    Prints(s, c);
    assert Effect(s, x) == PrintRune(s, c) && Taken(Ground, x) == |x|;
    assert Feed(s, x) == Feed(PrintRune(s, c), []);
  }

  /** Later input can make up for it: here a second command replaces what the first was left with. */
  lemma LaterInputHides(s: Term)
    requires WellFormed(s) && s.regs.parser == Parser(Osc, [], [])
    ensures CutsTerminator(s, [0x1b], [0x5c, 0x07, 0x1b, 0x5d, 0x07], 0)
    ensures Feed(Feed(s, [0x1b]), [0x5c, 0x07, 0x1b, 0x5d, 0x07]) == Feed(s, [0x1b, 0x5c, 0x07, 0x1b, 0x5d, 0x07])
  {
    hide WellFormed, EndOsc, ToState, Feed, WithParser;
    var x, rest := [0x5c, 0x07, 0x1b, 0x5d, 0x07], [0x07, 0x1b, 0x5d, 0x07];
    var next := [0x1b, 0x5d, 0x07];
    assert [0x1b] + x == [0x1b, 0x5c, 0x07, 0x1b, 0x5d, 0x07] && [] + [0x1b] == [0x1b] && [0x1b] + [0x5c] == [0x1b, 0x5c];
    assert [0x1b][..0] == [] && [0x1b][1..] == [] && x[1..] == rest && rest[1..] == next && ([0x1b] + x)[2..] == rest;
    FeedNothing(s);
    var one := WithParser(s, Parser(Osc, [], [0x1b]));
    OscTurn(s, [0x1b]);
    FeedNothing(one);
    Ended(s);
    OscTurn(one, x);
    var two := WithParser(s, Parser(Osc, [], [0x1b, 0x5c]));
    OscTurn(two, rest);
    OscTurn(s, [0x1b] + x);
    BellTurn(EndOsc(s), rest);
    NextCommand(EndOsc(two));
    NextCommand(EndOsc(s));
  }

  lemma FeedNothing(s: Term)
    requires WellFormed(s)
    ensures Feed(s, []) == s
  {
  }

  /** One turn inside an operating-system command. */
  lemma OscTurn(s: Term, x: seq<byte>)
    requires WellFormed(s) && s.regs.parser.state == Osc && x != []
    ensures Feed(s, x)
         == if EscBackslash(x) then Feed(EndOsc(s), x[2..])
            else if x[0] == 0x07 then Feed(EndOsc(s), x[1..])
            else Feed(WithParser(s, s.regs.parser.(osc := s.regs.parser.osc + [x[0]])), x[1..])
  {
    hide WellFormed, EndOsc, WithParser;
  }

  lemma BellTurn(s: Term, x: seq<byte>)
    requires WellFormed(s) && s.regs.parser.state == Ground && x != [] && x[0] == 0x07
    ensures Feed(s, x) == Feed(s, x[1..])
  {
    assert Control(s, 0x07) == s;
    hide WellFormed, Control, PrintRune, HandleEscape, HandleCsi, EndOsc, ToState, WithParser, Designate, DecodeRune;
  }

  lemma Ended(s: Term)
    requires WellFormed(s) && s.regs.parser == Parser(Osc, [], [])
    ensures var one, two := WithParser(s, Parser(Osc, [], [0x1b])), WithParser(s, Parser(Osc, [], [0x1b, 0x5c]));
            && one.regs.parser == Parser(Osc, [], [0x1b]) && two.regs.parser == Parser(Osc, [], [0x1b, 0x5c])
            && WithParser(one, Parser(Osc, [], [0x1b, 0x5c])) == two
            && EndOsc(s) == WithParser(s, Parser(Ground, [], []))
            && EndOsc(two) == WithParser(s, Parser(Ground, [], [0x1b, 0x5c]))
            && EndOsc(s).regs.parser.state == Ground && EndOsc(two).regs.parser.state == Ground
            && WithParser(EndOsc(s), Parser(Ground, [], [])) == WithParser(EndOsc(two), Parser(Ground, [], []))
  {
  }

  lemma EscapeTurn(s: Term, x: seq<byte>)
    requires WellFormed(s) && x != []
    ensures s.regs.parser.state == Ground && x[0] == 0x1b ==>
              Feed(s, x) == Feed(WithParser(s, s.regs.parser.(state := Escape, esc := [])), x[1..])
    ensures s.regs.parser.state == Escape && x[0] == 0x5d ==>
              Feed(s, x) == Feed(WithParser(s, s.regs.parser.(state := Osc, osc := [])), x[1..])
  {
    hide WellFormed, Control, PrintRune, HandleCsi, EndOsc, ToState, WithParser, Designate, DecodeRune, EscapeCommand;
  }

  /** An empty command: only the parser changes, and not what it holds of earlier commands. */
  lemma NextCommand(s: Term)
    requires WellFormed(s) && s.regs.parser.state == Ground
    ensures Feed(s, [0x1b, 0x5d, 0x07]) == WithParser(s, Parser(Ground, [], []))
  {
    hide WellFormed, Feed;
    var x := [0x1b, 0x5d, 0x07];
    assert x[1..] == [0x5d, 0x07] && x[1..][1..] == [0x07] && [0x07][1..] == [];
    EscapeTurn(s, x);
    var p := s.regs.parser.(state := Escape, esc := []);
    var one := WithParser(s, p);
    EscapeTurn(one, x[1..]);
    var two := WithParser(one, p.(state := Osc, osc := []));
    OscTurn(two, [0x07]);
    FeedNothing(EndOsc(two));
  }
}
