/**
 The program name is read by other rules than the arguments: backslashes do not escape
 in it. This decides exactly which program names leave the arguments after them intact.
 */
module CommandLineProgram {
  import opened CommandLine

  /* ------------------------------------------------------------------ */
  /* Reading a quoted program name.                                       */
  /* ------------------------------------------------------------------ */

  /** A blank read outside quotes. */
  predicate OpenBlank(a: string, quoted: bool) {
    a != "" && ((!quoted && Blank(a[0])) || OpenBlank(a[1..], if a[0] == '"' then !quoted else quoted))
  }

  /** Whether quotes are open after `a`. */
  predicate Toggled(a: string, quoted: bool) {
    if a == "" then quoted else Toggled(a[1..], if a[0] == '"' then !quoted else quoted)
  }

  /** What follows the first blank outside quotes. */
  function AfterBlank(a: string, quoted: bool): (v: string)
    requires OpenBlank(a, quoted)
    ensures |v| < |a|
  {
    if !quoted && Blank(a[0]) then a[1..] else AfterBlank(a[1..], if a[0] == '"' then !quoted else quoted)
  }

  lemma {:induction false} SkipSlashes(k: nat, s: string, quoted: bool)
    ensures AfterProgram(Slashes(k) + s, quoted) == AfterProgram(s, quoted)
  {
    if k > 0 {
      assert (Slashes(k) + s)[1..] == Slashes(k - 1) + s;
      SkipSlashes(k - 1, s, quoted);
    } else {
      assert Slashes(0) + s == s;
    }
  }

  lemma SkipPiece(k: nat, c: char, t: string, quoted: bool)
    requires c != '\\'
    ensures AfterProgram(Slashes(k) + [c] + t, quoted)
            == if c == '"' then AfterProgram(t, !quoted) else if !quoted && Blank(c) then t else AfterProgram(t, quoted)
  {
    hide Slashes;
    assert Slashes(k) + [c] + t == Slashes(k) + ([c] + t) && ([c] + t)[1..] == t;
    SkipSlashes(k, [c] + t, quoted);
  }

  lemma {:induction false} ProgramBody(a: string, n: nat, t: string, quoted: bool)
    ensures AfterProgram(Body(a, n) + "\"" + t, quoted)
            == if OpenBlank(a, quoted) then Body(AfterBlank(a, quoted), 0) + "\"" + t
               else AfterProgram(t, !Toggled(a, quoted))
    decreases |a|
  {
    hide Slashes, Body, AfterProgram;
    BodyFirst(a, n, t);
    if a == "" {
      SkipPiece(2 * n, '"', t, quoted);
      assert Slashes(2 * n) + "\"" + t == Slashes(2 * n) + ['"'] + t;
    } else if a[0] == '\\' {
      ProgramBody(a[1..], n + 1, t, quoted);
    } else {
      var tail := Body(a[1..], 0) + "\"" + t;
      if a[0] == '"' {
        ProgramBody(a[1..], 0, t, !quoted);
        SkipPiece(2 * n + 1, '"', tail, quoted);
        assert Slashes(2 * n + 1) + "\"" + tail == Slashes(2 * n + 1) + ['"'] + tail;
      } else {
        ProgramBody(a[1..], 0, t, quoted);
        SkipPiece(n, a[0], tail, quoted);
      }
    }
  }

  lemma {:induction false} ProgramPlain(a: string, t: string, quoted: bool)
    requires !NeedsQuotes(a)
    ensures AfterProgram(a + t, quoted) == AfterProgram(t, quoted) && !OpenBlank(a, true) && Toggled(a, true)
  {
    if a != "" {
      assert (a + t)[1..] == a[1..] + t;
      ProgramPlain(a[1..], t, quoted);
    } else {
      assert a + t == t;
    }
  }

  lemma ProgramQuoted(a: string, t: string, quoted: bool)
    requires NeedsQuotes(a)
    ensures AfterProgram(Escape(a) + t, quoted) == AfterProgram(Body(a, 0) + "\"" + t, !quoted)
  {
    hide Body;
    var s := Escape(a) + t;
    assert s == "\"" + (Body(a, 0) + "\"" + t);
    assert s[1..] == Body(a, 0) + "\"" + t;
  }

  lemma ProgramEmpty(t: string, quoted: bool)
    ensures AfterProgram("\"\"" + t, quoted) == AfterProgram(t, quoted)
  {
    var s := "\"\"" + t;
    assert s[1..] == "\"" + t && s[1..][1..] == t;
  }

  lemma ProgramEscaped(a: string, t: string, quoted: bool)
    ensures AfterProgram(Escape(a) + t, quoted)
            == if !NeedsQuotes(a) then AfterProgram(t, quoted)
               else if OpenBlank(a, !quoted) then Body(AfterBlank(a, !quoted), 0) + "\"" + t
               else AfterProgram(t, !Toggled(a, !quoted))
  {
    hide AfterProgram, Body, OpenBlank, Toggled, AfterBlank;
    if a == "" {
      ProgramEmpty(t, quoted);
    } else if !NeedsQuotes(a) {
      ProgramPlain(a, t, quoted);
    } else {
      ProgramQuoted(a, t, quoted);
      ProgramBody(a, 0, t, !quoted);
    }
  }

  /* ------------------------------------------------------------------ */
  /* Counting.                                                            */
  /* ------------------------------------------------------------------ */

  function Blanks(s: string): (n: nat)
    ensures n <= |s|
  {
    if s == "" then 0 else Blanks(s[1..]) + if Blank(s[0]) then 1 else 0
  }

  function Weight(s: string): nat { |s| - Blanks(s) }

  function AllBlanks(ss: seq<string>): nat {
    if ss == [] then 0 else Blanks(ss[0]) + AllBlanks(ss[1..])
  }

  function AllWeight(ss: seq<string>): nat {
    if ss == [] then 0 else Weight(ss[0]) + AllWeight(ss[1..])
  }

  lemma {:induction false} BlanksJoin(s: string, t: string)
    ensures Blanks(s + t) == Blanks(s) + Blanks(t)
  {
    if s != "" {
      assert (s + t)[1..] == s[1..] + t;
      BlanksJoin(s[1..], t);
    } else {
      assert s + t == t;
    }
  }

  lemma {:induction false} SlashesBlanks(n: nat)
    ensures Blanks(Slashes(n)) == 0
  {
    if n > 0 {
      SlashesBlanks(n - 1);
      assert Slashes(n)[1..] == Slashes(n - 1);
    }
  }

  lemma {:induction false} PlainBlanks(a: string)
    requires !NeedsQuotes(a)
    ensures Blanks(a) == 0
  {
    if a != "" {
      PlainBlanks(a[1..]);
    }
  }

  lemma {:induction false} AfterBlankBlanks(a: string, quoted: bool)
    requires OpenBlank(a, quoted)
    ensures Blanks(AfterBlank(a, quoted)) < Blanks(a)
  {
    if !(!quoted && Blank(a[0])) {
      AfterBlankBlanks(a[1..], if a[0] == '"' then !quoted else quoted);
    }
  }

  lemma {:induction false} AllBlanksJoin(a: seq<string>, b: seq<string>)
    ensures AllBlanks(a + b) == AllBlanks(a) + AllBlanks(b)
  {
    if a != [] {
      assert (a + b)[1..] == a[1..] + b;
      AllBlanksJoin(a[1..], b);
    } else {
      assert a + b == b;
    }
  }

  /* ------------------------------------------------------------------ */
  /* Arguments read with quotes the wrong way round.                      */
  /* ------------------------------------------------------------------ */

  /** The rest of a line with an argument already open. */
  function ParseOpen(s: string, n: nat, quoted: bool): (l: seq<string>)
    ensures |l| >= 1
  {
    var p := ParseArg(s, n, quoted);
    [p.arg] + ParseArgs(p.rest)
  }

  function OntoFirst(x: string, l: seq<string>): (r: seq<string>)
    requires |l| >= 1
    ensures |r| == |l|
  {
    [x + l[0]] + l[1..]
  }

  lemma OntoFirstCounts(x: string, l: seq<string>)
    requires |l| >= 1
    ensures AllBlanks(OntoFirst(x, l)) == Blanks(x) + AllBlanks(l)
    ensures AllWeight(OntoFirst(x, l)) == Weight(x) + AllWeight(l)
  {
    BlanksJoin(x, l[0]);
    assert OntoFirst(x, l)[1..] == l[1..];
  }

  lemma OpenPrepend(s: string, t: string, x: string, quoted: bool, after: bool)
    requires ParseArg(s, 0, quoted) == Prepend(x, ParseArg(t, 0, after))
    ensures ParseOpen(s, 0, quoted) == OntoFirst(x, ParseOpen(t, 0, after))
  {
  }

  lemma PieceCounts(n: nat, c: char)
    requires !Blank(c)
    ensures Blanks(Slashes(n) + [c]) == 0 && Weight(Slashes(n) + [c]) == n + 1
    ensures Blanks(Slashes(n)) == 0 && Weight(Slashes(n)) == n
  {
    SlashesBlanks(n);
    BlanksJoin(Slashes(n), [c]);
  }

  lemma ArgsOpen(s: string)
    requires s != "" && !Blank(s[0])
    ensures ParseArgs(s) == ParseOpen(s, 0, false)
  {
  }

  lemma {:induction false} BodyStart(v: string, n: nat, t: string)
    requires n > 0 || v == "" || !Blank(v[0])
    ensures !Blank((Body(v, n) + "\"" + t)[0])
    decreases |v|
  {
    if v != "" && v[0] == '\\' {
      BodyStart(v[1..], n + 1, t);
    }
  }

  /** How a list read from the text of `v` and what follows compares to the list of what follows. */
  predicate Spread(l: seq<string>, g: seq<string>, v: string, n: nat) {
    |l| <= |g| + Blanks(v) && AllBlanks(l) == AllBlanks(g) && AllWeight(l) == Weight(v) + n + AllWeight(g)
  }

  /** A body read outside quotes falls apart at its blanks; its closing quote opens. */
  lemma {:induction false} BodyOpen(v: string, n: nat, t: string)
    ensures Spread(ParseOpen(Body(v, n) + "\"" + t, 0, false), ParseOpen(t, 0, true), v, n)
    ensures n == 0 ==> Spread(ParseArgs(Body(v, 0) + "\"" + t), ParseOpen(t, 0, true), v, 0)
    decreases |v|
  {
    hide Slashes, Body, ParseArg, ParseOpen, ParseArgs, OntoFirst, Weight, AllBlanks, AllWeight;
    BodyFirst(v, n, t);
    var s := Body(v, n) + "\"" + t;
    if v == "" {
      ReadToggle(n, t, false);
      Grows(s, t, Slashes(n), false, true);
      PieceCounts(n, '"');
      EmptyCounts();
    } else {
      Counts(v);
      if v[0] == '\\' {
        BodyOpen(v[1..], n + 1, t);
      } else {
        var tail := Body(v[1..], 0) + "\"" + t;
        BodyOpen(v[1..], 0, t);
        if v[0] == '"' {
          ReadLiteralQuote(n, tail, false);
          Grows(s, tail, Slashes(n) + ['"'], false, false);
          PieceCounts(n, '"');
        } else if Blank(v[0]) {
          BlankSplits(n, v[0], tail);
        } else {
          ReadChar(n, v[0], tail, false);
          Grows(s, tail, Slashes(n) + [v[0]], false, false);
          PieceCounts(n, v[0]);
        }
      }
    }
    if n == 0 && (v == "" || !Blank(v[0])) {
      BodyStart(v, 0, t);
      ArgsOpen(s);
    }
  }

  lemma Grows(s: string, t: string, x: string, quoted: bool, after: bool)
    requires ParseArg(s, 0, quoted) == Prepend(x, ParseArg(t, 0, after))
    ensures var l, g := ParseOpen(s, 0, quoted), ParseOpen(t, 0, after);
            |l| == |g| && AllBlanks(l) == Blanks(x) + AllBlanks(g) && AllWeight(l) == Weight(x) + AllWeight(g)
  {
    OpenPrepend(s, t, x, quoted, after);
    OntoFirstCounts(x, ParseOpen(t, 0, after));
  }

  lemma Counts(v: string)
    requires v != ""
    ensures Blanks(v) == Blanks(v[1..]) + (if Blank(v[0]) then 1 else 0)
    ensures Weight(v) == Weight(v[1..]) + (if Blank(v[0]) then 0 else 1)
  {
  }

  lemma EmptyCounts()
    ensures Blanks("") == 0 && Weight("") == 0
  {
  }

  /** A blank outside quotes ends the argument. */
  lemma BlankSplits(n: nat, c: char, tail: string)
    requires Blank(c)
    ensures var s, l := Slashes(n) + [c] + tail, ParseOpen(Slashes(n) + [c] + tail, 0, false);
            && |l| == 1 + |ParseArgs(tail)| && AllBlanks(l) == AllBlanks(ParseArgs(tail))
            && AllWeight(l) == n + AllWeight(ParseArgs(tail))
            && (n == 0 ==> l == [""] + ParseArgs(tail) && ParseArgs(s) == ParseArgs(tail))
  {
    var t := [c] + tail;
    var s := Slashes(n) + [c] + tail;
    assert s == Slashes(n) + t && t[1..] == tail;
    ReadSlashes(n, t, 0, false);
    assert ParseArg(s, 0, false) == Parsed(Slashes(n), t);
    assert ParseArgs(t) == ParseArgs(tail);
    SlashesBlanks(n);
    var l := [Slashes(n)] + ParseArgs(tail);
    assert l[1..] == ParseArgs(tail);
    if n == 0 {
      assert s == t;
    }
  }

  lemma SpaceInQuotes(u: string)
    ensures ParseArg(" " + u, 0, true) == Prepend(" ", ParseArg(u, 0, true))
  {
    assert (" " + u)[1..] == u;
  }

  lemma {:induction false} BodyNoQuoteFirst(v: string, n: nat, t: string)
    requires v != "" || n > 0
    ensures (Body(v, n) + "\"" + t)[0] != '"'
    decreases |v|
  {
    if v != "" && v[0] == '\\' {
      BodyNoQuoteFirst(v[1..], n + 1, t);
    }
  }

  /** An opening quote met inside quotes closes them. */
  lemma QuotedCloses(b: string, rest: string)
    requires NeedsQuotes(b)
    ensures ParseArg(Escape(b) + rest, 0, true) == Prepend("", ParseArg(Body(b, 0) + "\"" + rest, 0, false))
  {
    var s := Escape(b) + rest;
    var t := Body(b, 0) + "\"" + rest;
    assert s == "\"" + t && s[1..] == t;
    BodyNoQuoteFirst(b, 0, rest);
    assert s[1] == t[0];
  }

  lemma EmptyInQuotes(rest: string)
    ensures ParseArg("\"\"" + rest, 0, true) == Prepend("\"", ParseArg(rest, 0, true))
  {
    var s := "\"\"" + rest;
    assert s[2..] == rest;
  }

  /** How much of `b` shows up when it is read inside quotes. */
  lemma EscapedInQuotes(b: string, rest: string)
    requires Ends(rest)
    ensures var l, g := ParseOpen(Escape(b) + rest, 0, true), ParseOpen(rest, 0, true);
            |l| <= |g| + Blanks(b) && AllBlanks(l) == AllBlanks(g) && AllWeight(l) >= Weight(b) + AllWeight(g)
  {
    hide ParseArg, ParseArgs, ParseOpen, Body, AllBlanks, AllWeight, Weight;
    EmptyCounts();
    if b == "" {
      EmptyInQuotes(rest);
      Grows("\"\"" + rest, rest, "\"", true, true);
      PieceCounts(0, '"');
      assert Slashes(0) + ['"'] == "\"";
    } else if !NeedsQuotes(b) {
      PlainReads(b, rest, 0, true);
      NoSlashes(b);
      Grows(b + rest, rest, b, true, true);
      PlainBlanks(b);
    } else {
      QuotedCloses(b, rest);
      Grows(Escape(b) + rest, Body(b, 0) + "\"" + rest, "", true, false);
      BodyOpen(b, 0, rest);
    }
  }

  /** Arguments read from inside quotes: their blanks separate, the spaces between them do not. */
  lemma {:induction false} Flipped(bs: seq<string>)
    ensures var g := ParseOpen(Tail(bs), 0, true);
            |g| <= 1 + AllBlanks(bs) && AllBlanks(g) == |bs| && AllWeight(g) >= AllWeight(bs)
    decreases |bs|
  {
    if bs == [] {
      assert ParseOpen("", 0, true) == [""];
    } else {
      TailFirst(bs);
      hide ParseArg, ParseOpen, Escape, Weight, Blanks, Tail;
      var rest := Tail(bs[1..]);
      var u := Escape(bs[0]) + rest;
      TailEnds(bs[1..]);
      Flipped(bs[1..]);
      EscapedInQuotes(bs[0], rest);
      SpaceInQuotes(u);
      Grows(" " + u, u, " ", true, true);
      OneSpace();
    }
  }

  lemma TailFirst(bs: seq<string>)
    requires bs != []
    ensures Tail(bs) == " " + (Escape(bs[0]) + Tail(bs[1..]))
  {
    hide Escape;
    assert " " + (Escape(bs[0]) + Tail(bs[1..])) == " " + Escape(bs[0]) + Tail(bs[1..]);
  }

  lemma OneSpace()
    ensures Blanks(" ") == 1 && Weight(" ") == 0
  {
  }

  /** Read from inside quotes, a list is never read back as itself. */
  lemma {:induction false} FlippedDiffers(bs: seq<string>)
    ensures ParseOpen(Tail(bs), 0, true) != bs
    decreases |bs|
  {
    hide ParseArg, ParseArgs, ParseOpen, Escape;
    if bs != [] {
      var b, rest := bs[0], Tail(bs[1..]);
      var u := Escape(b) + rest;
      assert Tail(bs) == " " + u;
      SpaceInQuotes(u);
      OpenPrepend(" " + u, u, " ", true, true);
      var l := ParseOpen(Tail(bs), 0, true);
      assert l == OntoFirst(" ", ParseOpen(u, 0, true));
      if l[0] == b {
        assert b[0] == ' ';
        SpaceFirst(b, rest);
        assert b == " " + "" == " ";
        LoneSpace(rest);
        FlippedDiffers(bs[1..]);
        assert l[1..] == ([""] + ParseOpen(rest, 0, true))[1..] == ParseOpen(rest, 0, true);
      }
    }
  }

  lemma LoneSpace(rest: string)
    ensures ParseOpen(Escape(" ") + rest, 0, true) == [""] + ParseOpen(rest, 0, true)
  {
    SpaceFirst(" ", rest);
    assert " "[1..] == "";
    hide ParseArg;
    var s := Slashes(0) + "\"" + rest;
    assert Body("", 0) + "\"" + rest == s;
    ReadToggle(0, rest, false);
    ArgsOpen(s);
    OpenPrepend(s, rest, "", false, true);
    OntoFirstEmpty(ParseOpen(rest, 0, true));
  }

  lemma OntoFirstEmpty(l: seq<string>)
    requires |l| >= 1
    ensures OntoFirst("", l) == l
  {
    assert "" + l[0] == l[0] && l == [l[0]] + l[1..];
  }

  /** A blank at the start of an argument, read from inside quotes, ends the open one. */
  lemma SpaceFirst(b: string, rest: string)
    requires b != "" && Blank(b[0])
    ensures ParseOpen(Escape(b) + rest, 0, true) == [""] + ParseArgs(Body(b[1..], 0) + "\"" + rest)
  {
    hide ParseArg, ParseArgs, Body;
    QuotedCloses(b, rest);
    OpenPrepend(Escape(b) + rest, Body(b, 0) + "\"" + rest, "", true, false);
    BodyFirst(b, 0, rest);
    BlankSplits(0, b[0], Body(b[1..], 0) + "\"" + rest);
    OntoFirstEmpty(ParseOpen(Body(b, 0) + "\"" + rest, 0, false));
  }

  /* ------------------------------------------------------------------ */
  /* Which program names are safe.                                        */
  /* ------------------------------------------------------------------ */

  /** No blank of the name falls outside quotes, and the quotes are closed if anything follows. */
  predicate SafeName(name: string, more: bool) {
    !OpenBlank(name, true) && (more ==> Toggled(name, true))
  }

  /** A name cut at one of its blanks leaves a list that differs. */
  lemma CutDiffers(v: string, bs: seq<string>)
    ensures ParseArgs(Body(v, 0) + "\"" + Tail(bs)) != bs
  {
    hide ParseArg, ParseOpen, Body, Weight;
    BodyOpen(v, 0, Tail(bs));
    Flipped(bs);
    if ParseArgs(Body(v, 0) + "\"" + Tail(bs)) == bs {
      assert Weight(v) == 0;
      AllBlank(v, Tail(bs));
      FlippedDiffers(bs);
    }
  }

  lemma {:induction false} AllBlank(v: string, t: string)
    requires Weight(v) == 0
    ensures ParseArgs(Body(v, 0) + "\"" + t) == ParseOpen(t, 0, true)
    decreases |v|
  {
    hide ParseArg;
    if v == "" {
      assert Body(v, 0) + "\"" + t == Slashes(0) + "\"" + t;
      ReadToggle(0, t, false);
      ArgsOpen(Slashes(0) + "\"" + t);
      OpenPrepend(Slashes(0) + "\"" + t, t, "", false, true);
      OntoFirstEmpty(ParseOpen(t, 0, true));
    } else {
      BodyFirst(v, 0, t);
      BlankSplits(0, v[0], Body(v[1..], 0) + "\"" + t);
      AllBlank(v[1..], t);
    }
  }

  /** A name that runs on into the arguments and is cut inside argument `j - 1` leaves a list that differs. */
  lemma RunOnDiffers(bs: seq<string>, j: nat, v: string)
    requires 1 <= j <= |bs| && Blanks(v) < Blanks(bs[j - 1])
    ensures ParseArgs(Body(v, 0) + "\"" + Tail(bs[j..])) != bs
  {
    hide ParseArg, ParseArgs, ParseOpen, Body, Weight, Blanks, AllBlanks, AllWeight;
    BodyOpen(v, 0, Tail(bs[j..]));
    Flipped(bs[j..]);
    assert bs == bs[..j] + bs[j..];
    AllBlanksJoin(bs[..j], bs[j..]);
    LastBlanks(bs[..j]);
  }

  lemma {:induction false} LastBlanks(ss: seq<string>)
    requires ss != []
    ensures AllBlanks(ss) >= Blanks(ss[|ss| - 1])
  {
    if |ss| > 1 {
      LastBlanks(ss[1..]);
    }
  }

  /** Where a name that is still open at its end stops. */
  datatype Stop = AtEnd | Between(j: nat) | Inside(j: nat, v: string)

  predicate StopsAt(rest: string, bs: seq<string>, stop: Stop) {
    match stop
    case AtEnd => rest == ""
    case Between(j) => 1 <= j <= |bs| && rest == Line(bs[j..])
    case Inside(j, v) => 1 <= j <= |bs| && Blanks(v) < Blanks(bs[j - 1]) && rest == Body(v, 0) + "\"" + Tail(bs[j..])
  }

  lemma {:induction false} RunsOn(bs: seq<string>) returns (stop: Stop)
    ensures StopsAt(AfterProgram(Tail(bs), true), bs, stop)
    decreases |bs|
  {
    hide Escape, Body, Slashes, Blanks;
    if bs == [] {
      stop := AtEnd;
    } else {
      var b, rest := bs[0], Tail(bs[1..]);
      assert Tail(bs) == " " + (Escape(b) + rest);
      assert (" " + (Escape(b) + rest))[1..] == Escape(b) + rest;
      ProgramEscaped(b, rest, true);
      if NeedsQuotes(b) && OpenBlank(b, false) {
        AfterBlankBlanks(b, false);
        stop := Inside(1, AfterBlank(b, false));
      } else if NeedsQuotes(b) && Toggled(b, false) {
        TailLine(bs[1..]);
        stop := if bs[1..] == [] then AtEnd else Between(1);
      } else {
        var later := RunsOn(bs[1..]);
        stop := match later case AtEnd => AtEnd case Between(j) => Between(j + 1) case Inside(j, v) => Inside(j + 1, v);
        if !later.AtEnd? {
          assert bs[1..][later.j..] == bs[later.j + 1..];
        }
      }
    }
  }

  lemma TailLine(bs: seq<string>)
    ensures AfterProgram(Tail(bs), false) == Line(bs)
  {
    TailIs(bs);
    hide Line, Tail;
    if bs != [] {
      assert (" " + Line(bs))[1..] == Line(bs);
    }
  }

  lemma TailIs(bs: seq<string>)
    ensures if bs == [] then Tail(bs) == "" == Line(bs) else Tail(bs) == " " + Line(bs)
  {
    hide Escape;
    if bs != [] {
      assert " " + (Escape(bs[0]) + Tail(bs[1..])) == " " + Escape(bs[0]) + Tail(bs[1..]);
    }
  }

  /** A name that is still open at its end loses arguments. */
  lemma OpenNameDiffers(bs: seq<string>)
    requires bs != []
    ensures ParseArgs(AfterProgram(Tail(bs), true)) != bs
  {
    hide ParseArg, AfterProgram, Body, Escape;
    var stop := RunsOn(bs);
    match stop
    case AtEnd =>
    case Between(j) => LineReads(bs[j..]);
    case Inside(j, v) => RunOnDiffers(bs, j, v);
  }

  /** Which names put which text in front of the arguments. */
  lemma NameReads(name: string, bs: seq<string>)
    ensures AfterProgram(Line([name] + bs), false)
            == if OpenBlank(name, true) then Body(AfterBlank(name, true), 0) + "\"" + Tail(bs)
               else AfterProgram(Tail(bs), !Toggled(name, true))
  {
    assert ([name] + bs)[1..] == bs;
    ProgramEscaped(name, Tail(bs), false);
    if !NeedsQuotes(name) {
      ProgramPlain(name, Tail(bs), false);
    }
  }

  /** The arguments after the program name come back unchanged exactly when the name is safe. */
  lemma ArgumentsIff(name: string, bs: seq<string>)
    ensures Arguments(Line([name] + bs)) == bs <==> SafeName(name, bs != [])
  {
    hide Line, ParseArg, AfterProgram, Body;
    NameReads(name, bs);
    if OpenBlank(name, true) {
      CutDiffers(AfterBlank(name, true), bs);
    } else if Toggled(name, true) {
      TailLine(bs);
      LineReads(bs);
    } else if bs == [] {
      NothingLeft();
    } else {
      OpenNameDiffers(bs);
    }
  }

  lemma NothingLeft()
    ensures ParseArgs(AfterProgram(Tail([]), true)) == []
  {
  }

  /** A name without quotes is safe. */
  lemma {:induction false} NoQuotesSafe(name: string)
    requires '"' !in name
    ensures SafeName(name, true) && SafeName(name, false)
  {
    if name != "" {
      NoQuotesSafe(name[1..]);
    }
  }

  /** One quote in the name is enough to lose an argument. */
  lemma QuoteInName()
    ensures Arguments(Line(["\"", "x"])) != ["x"]
  {
    assert !Toggled("\"", true);
    assert ["\"", "x"] == ["\""] + ["x"];
    ArgumentsIff("\"", ["x"]);
  }
}
