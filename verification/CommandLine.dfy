/** Windows command lines: the quoting, and the argument rules of the Microsoft C runtime. */
module CommandLine {

  predicate Blank(c: char) { c == ' ' || c == '\t' }

  function Slashes(n: nat): (s: string)
    ensures |s| == n
  {
    if n == 0 then "" else "\\" + Slashes(n - 1)
  }

  /* ------------------------------------------------------------------ */
  /* Quoting.                                                             */
  /* ------------------------------------------------------------------ */

  predicate Special(c: char) { Blank(c) || c == '\n' || c == '\U{000B}' || c == '"' }

  predicate NeedsQuotes(arg: string) { arg != "" && (Special(arg[0]) || NeedsQuotes(arg[1..])) }

  /** What goes between the quotes, with `n` backslashes held back. */
  function Body(arg: string, n: nat): string
    decreases |arg|
  {
    if arg == "" then Slashes(2 * n)
    else if arg[0] == '\\' then Body(arg[1..], n + 1)
    else if arg[0] == '"' then Slashes(2 * n + 1) + "\"" + Body(arg[1..], 0)
    else Slashes(n) + [arg[0]] + Body(arg[1..], 0)
  }

  function Escape(arg: string): string {
    if arg == "" then "\"\"" else if !NeedsQuotes(arg) then arg else "\"" + Body(arg, 0) + "\""
  }

  lemma {:induction false} NeedsQuotesIff(arg: string)
    ensures NeedsQuotes(arg) <==> exists i :: 0 <= i < |arg| && Special(arg[i])
  {
    if arg != "" {
      NeedsQuotesIff(arg[1..]);
      if NeedsQuotes(arg[1..]) {
        var i :| 0 <= i < |arg[1..]| && Special(arg[1..][i]);
        assert Special(arg[i + 1]);
      }
      if i :| 0 <= i < |arg| && Special(arg[i]) && i > 0 {
        assert Special(arg[1..][i - 1]);
      }
    }
  }

  /** An argument is passed as it is exactly when it is not empty and holds no white space or quote. */
  lemma PlainIff(arg: string)
    ensures Escape(arg) == arg
       <==> arg != "" && forall i :: 0 <= i < |arg| ==> arg[i] !in {' ', '\t', '\n', '\U{000B}', '"'}
  {
    NeedsQuotesIff(arg);
    if NeedsQuotes(arg) && Escape(arg) == arg {
      BodyLength(arg, 0);
    }
  }

  lemma {:induction false} BodyLength(arg: string, n: nat)
    ensures |Body(arg, n)| >= |arg| + n
    decreases |arg|
  {
    if arg != "" {
      BodyLength(arg[1..], if arg[0] == '\\' then n + 1 else 0);
    }
  }

  /** Each argument after a space. */
  function Tail(args: seq<string>): string {
    if args == [] then "" else " " + Escape(args[0]) + Tail(args[1..])
  }

  function Line(args: seq<string>): string {
    if args == [] then "" else Escape(args[0]) + Tail(args[1..])
  }

  method EscapeArg(arg: string) returns (r: string)
    ensures r == Escape(arg)
  {
    if arg == "" {
      return "\"\"";
    }
    if !NeedsQuotes(arg) {
      return arg;
    }
    hide Slashes;
    var b, backslashes, i := "\"", 0, 0;
    assert arg[0..] == arg;
    while i < |arg|
      invariant i <= |arg| && b + Body(arg[i..], backslashes) == "\"" + Body(arg, 0)
    {
      assert arg[i..][1..] == arg[i + 1..];
      ghost var rest := Body(arg[i + 1..], 0);
      if arg[i] == '\\' {
        backslashes := backslashes + 1;
      } else if arg[i] == '"' {
        assert b + (Slashes(2 * backslashes + 1) + "\"" + rest) == b + Slashes(2 * backslashes + 1) + "\"" + rest;
        b := b + Slashes(2 * backslashes + 1) + "\"";
        backslashes := 0;
      } else {
        assert b + (Slashes(backslashes) + [arg[i]] + rest) == b + Slashes(backslashes) + [arg[i]] + rest;
        b := b + Slashes(backslashes) + [arg[i]];
        backslashes := 0;
      }
      i := i + 1;
    }
    b := b + Slashes(2 * backslashes);
    r := b + "\"";
  }

  method MakeCommandLine(args: seq<string>) returns (line: string)
    ensures line == Line(args)
  {
    if args == [] {
      return "";
    }
    hide Escape, Tail;
    line := EscapeArg(args[0]);
    var i := 1;
    while i < |args|
      invariant 1 <= i <= |args| && line + Tail(args[i..]) == Line(args)
    {
      var escaped := EscapeArg(args[i]);
      TailStep(args, i, line);
      line := line + " " + escaped;
      i := i + 1;
    }
    NoTail(args);
  }

  lemma TailStep(args: seq<string>, i: nat, line: string)
    requires i < |args|
    ensures line + Tail(args[i..]) == line + " " + Escape(args[i]) + Tail(args[i + 1..])
  {
    hide Escape;
    assert args[i..][1..] == args[i + 1..];
    assert line + (" " + Escape(args[i]) + Tail(args[i + 1..])) == line + " " + Escape(args[i]) + Tail(args[i + 1..]);
  }

  lemma NoTail(args: seq<string>)
    ensures Tail(args[|args|..]) == ""
  {
  }

  /* ------------------------------------------------------------------ */
  /* The argument rules.                                                  */
  /* ------------------------------------------------------------------ */

  /** One argument and what follows it. */
  datatype Parsed = Parsed(arg: string, rest: string)

  function Prepend(s: string, p: Parsed): Parsed { p.(arg := s + p.arg) }

  /**
   An argument in progress, `n` backslashes just read. An even number before a quote
   stands for half as many and the quote opens or closes; an odd number makes the quote
   literal; elsewhere backslashes stand for themselves. Two quotes inside quotes are one.
   */
  function ParseArg(s: string, n: nat, quoted: bool): (p: Parsed)
    ensures |p.rest| <= |s|
    ensures p.rest == "" || Blank(p.rest[0])
    decreases |s|
  {
    if s == "" then Parsed(Slashes(n), "")
    else if s[0] == '\\' then ParseArg(s[1..], n + 1, quoted)
    else if s[0] == '"' then
      if n % 2 == 1 then Prepend(Slashes(n / 2) + "\"", ParseArg(s[1..], 0, quoted))
      else if quoted && |s| > 1 && s[1] == '"' then Prepend(Slashes(n / 2) + "\"", ParseArg(s[2..], 0, quoted))
      else Prepend(Slashes(n / 2), ParseArg(s[1..], 0, !quoted))
    else if !quoted && Blank(s[0]) then Parsed(Slashes(n), s)
    else Prepend(Slashes(n) + [s[0]], ParseArg(s[1..], 0, quoted))
  }

  lemma {:induction false} ParseArgShorter(s: string, n: nat, quoted: bool)
    requires s != "" && (quoted || !Blank(s[0]))
    ensures |ParseArg(s, n, quoted).rest| < |s|
  {
  }

  /** All arguments; blanks between them do not count. */
  function ParseArgs(s: string): seq<string>
    decreases |s|
  {
    if s == "" then []
    else if Blank(s[0]) then ParseArgs(s[1..])
    else
      var p := ParseArg(s, 0, false);
      ParseArgShorter(s, 0, false);
      [p.arg] + ParseArgs(p.rest)
  }

  /** What follows the program name: quotes toggle, backslashes mean nothing, a blank outside quotes ends it. */
  function AfterProgram(s: string, quoted: bool): (rest: string)
    ensures |rest| <= |s|
    decreases |s|
  {
    if s == "" then ""
    else if s[0] == '"' then AfterProgram(s[1..], !quoted)
    else if !quoted && Blank(s[0]) then s[1..]
    else AfterProgram(s[1..], quoted)
  }

  /** The arguments after the program name. */
  function Arguments(line: string): seq<string> { ParseArgs(AfterProgram(line, false)) }

  /* ------------------------------------------------------------------ */
  /* Arguments come back.                                                 */
  /* ------------------------------------------------------------------ */

  lemma {:induction false} ReadSlashes(k: nat, s: string, n: nat, quoted: bool)
    ensures ParseArg(Slashes(k) + s, n, quoted) == ParseArg(s, n + k, quoted)
  {
    if k > 0 {
      assert Slashes(k) + s == "\\" + (Slashes(k - 1) + s);
      assert (Slashes(k) + s)[1..] == Slashes(k - 1) + s;
      ReadSlashes(k - 1, s, n + 1, quoted);
    } else {
      assert Slashes(0) + s == s;
    }
  }

  lemma {:induction false} SlashesJoin(n: nat, m: nat)
    ensures Slashes(n) + Slashes(m) == Slashes(n + m)
  {
    if n > 0 {
      SlashesJoin(n - 1, m);
      assert Slashes(n) + Slashes(m) == "\\" + (Slashes(n - 1) + Slashes(m));
    }
  }

  lemma SlashesMore(n: nat, s: string)
    ensures Slashes(n + 1) + s == Slashes(n) + ("\\" + s)
  {
    SlashesJoin(n, 1);
    assert Slashes(1) == "\\" + Slashes(0) == "\\";
    assert Slashes(n + 1) + s == Slashes(n) + (Slashes(1) + s);
  }

  /** The end of the line, or the space before the next argument. */
  predicate Ends(rest: string) { rest == "" || Blank(rest[0]) }

  lemma PrependTwice(s: string, t: string, p: Parsed)
    ensures Prepend(s, Prepend(t, p)) == Prepend(s + t, p)
  {
    assert s + (t + p.arg) == s + t + p.arg;
  }

  /* The three pieces a body is made of, in either mode. */

  lemma ReadLiteralQuote(n: nat, tail: string, quoted: bool)
    ensures ParseArg(Slashes(2 * n + 1) + "\"" + tail, 0, quoted) == Prepend(Slashes(n) + "\"", ParseArg(tail, 0, quoted))
  {
    hide Slashes;
    var s := "\"" + tail;
    assert Slashes(2 * n + 1) + "\"" + tail == Slashes(2 * n + 1) + s && s[1..] == tail;
    ReadSlashes(2 * n + 1, s, 0, quoted);
  }

  lemma ReadChar(n: nat, c: char, tail: string, quoted: bool)
    requires c != '\\' && c != '"' && (quoted || !Blank(c))
    ensures ParseArg(Slashes(n) + [c] + tail, 0, quoted) == Prepend(Slashes(n) + [c], ParseArg(tail, 0, quoted))
  {
    hide Slashes;
    var s := [c] + tail;
    assert Slashes(n) + [c] + tail == Slashes(n) + s && s[1..] == tail;
    ReadSlashes(n, s, 0, quoted);
  }

  lemma ReadToggle(n: nat, rest: string, quoted: bool)
    requires quoted ==> Ends(rest)
    ensures ParseArg(Slashes(2 * n) + "\"" + rest, 0, quoted) == Prepend(Slashes(n), ParseArg(rest, 0, !quoted))
  {
    hide Slashes;
    var s := "\"" + rest;
    assert Slashes(2 * n) + "\"" + rest == Slashes(2 * n) + s && s[1..] == rest;
    ReadSlashes(2 * n, s, 0, quoted);
  }

  /** The first piece of a body. */
  lemma BodyFirst(a: string, n: nat, rest: string)
    ensures a == "" ==> Body(a, n) + "\"" + rest == Slashes(2 * n) + "\"" + rest
    ensures a != "" && a[0] == '\\' ==> Body(a, n) == Body(a[1..], n + 1)
    ensures a != "" && a[0] == '"' ==>
      Body(a, n) + "\"" + rest == Slashes(2 * n + 1) + "\"" + (Body(a[1..], 0) + "\"" + rest)
    ensures a != "" && a[0] != '\\' && a[0] != '"' ==>
      Body(a, n) + "\"" + rest == Slashes(n) + [a[0]] + (Body(a[1..], 0) + "\"" + rest)
  {
    hide Slashes;
  }

  lemma PrependMore(n: nat, a: string, p: Parsed)
    requires a != ""
    ensures a[0] == '\\' ==> Prepend(Slashes(n + 1) + a[1..], p) == Prepend(Slashes(n) + a, p)
    ensures Prepend(Slashes(n) + [a[0]], Prepend(Slashes(0) + a[1..], p)) == Prepend(Slashes(n) + a, p)
  {
    assert a == [a[0]] + a[1..];
    SlashesMore(n, a[1..]);
    NoSlashes(a[1..]);
    assert Slashes(n) + [a[0]] + (a[1..] + p.arg) == Slashes(n) + a + p.arg;
  }

  /** Inside quotes the body reads back, and the closing quote closes. */
  lemma {:induction false} BodyQuoted(a: string, n: nat, rest: string)
    requires Ends(rest)
    ensures ParseArg(Body(a, n) + "\"" + rest, 0, true) == Prepend(Slashes(n) + a, ParseArg(rest, 0, false))
    decreases |a|
  {
    hide Slashes, ParseArg, Body, Prepend;
    BodyFirst(a, n, rest);
    if a == "" {
      ReadToggle(n, rest, true);
      assert Slashes(n) + a == Slashes(n);
    } else {
      PrependMore(n, a, ParseArg(rest, 0, false));
      if a[0] == '\\' {
        BodyQuoted(a[1..], n + 1, rest);
      } else {
        BodyQuoted(a[1..], 0, rest);
        if a[0] == '"' {
          ReadLiteralQuote(n, Body(a[1..], 0) + "\"" + rest, true);
        } else {
          ReadChar(n, a[0], Body(a[1..], 0) + "\"" + rest, true);
        }
      }
    }
  }

  lemma NoSlashes(s: string)
    ensures Slashes(0) + s == s
  {
  }

  /** An argument without special characters reads as it is, in either mode. */
  lemma {:induction false} PlainReads(a: string, rest: string, n: nat, quoted: bool)
    requires !NeedsQuotes(a) && Ends(rest)
    ensures ParseArg(a + rest, n, quoted) == Prepend(Slashes(n) + a, ParseArg(rest, 0, quoted))
    decreases |a|
  {
    hide Slashes, ParseArg;
    if a == "" {
      assert a + rest == rest && Slashes(n) + a == Slashes(n);
      EndReads(rest, n, quoted);
    } else {
      PlainStep(a[0], a[1..] + rest, n, quoted);
      assert a + rest == [a[0]] + (a[1..] + rest) && a == [a[0]] + a[1..];
      if a[0] == '\\' {
        PlainReads(a[1..], rest, n + 1, quoted);
        SlashesMore(n, a[1..]);
      } else {
        PlainReads(a[1..], rest, 0, quoted);
        NoSlashes(a[1..]);
        PrependTwice(Slashes(n) + [a[0]], a[1..], ParseArg(rest, 0, quoted));
        assert Slashes(n) + [a[0]] + a[1..] == Slashes(n) + a;
      }
    }
  }

  lemma PlainStep(c: char, s: string, n: nat, quoted: bool)
    requires c != '"' && !Blank(c)
    ensures ParseArg([c] + s, n, quoted)
         == if c == '\\' then ParseArg(s, n + 1, quoted) else Prepend(Slashes(n) + [c], ParseArg(s, 0, quoted))
  {
    hide Slashes;
    assert ([c] + s)[1..] == s;
  }

  /** Backslashes before a blank or the end stand for themselves. */
  lemma EndReads(rest: string, n: nat, quoted: bool)
    requires Ends(rest)
    ensures ParseArg(rest, n, quoted) == Prepend(Slashes(n), ParseArg(rest, 0, quoted))
  {
    if rest == "" || !quoted {
      assert Slashes(n) + Slashes(0) == Slashes(n);
    } else {
      PrependTwice(Slashes(n), Slashes(0) + [rest[0]], ParseArg(rest[1..], 0, quoted));
      assert Slashes(n) + (Slashes(0) + [rest[0]]) == Slashes(n) + [rest[0]];
    }
  }

  lemma EscapeReads(a: string, rest: string)
    requires Ends(rest)
    ensures ParseArg(Escape(a) + rest, 0, false) == Parsed(a, rest)
    ensures Escape(a) != "" && !Blank(Escape(a)[0])
  {
    EndArg(rest);
    if a == "" {
      var s := "\"\"" + rest;
      assert s[1..] == "\"" + rest && s[1..][1..] == rest;
      assert ParseArg(s, 0, false) == Prepend("", ParseArg("\"" + rest, 0, true));
      assert ParseArg("\"" + rest, 0, true) == Prepend("", ParseArg(rest, 0, false));
    } else if !NeedsQuotes(a) {
      PlainReads(a, rest, 0, false);
      NoSlashes(a);
    } else {
      var s := "\"" + Body(a, 0) + "\"" + rest;
      assert s[1..] == Body(a, 0) + "\"" + rest;
      BodyQuoted(a, 0, rest);
      NoSlashes(a);
      assert ParseArg(s, 0, false) == Prepend("", ParseArg(s[1..], 0, true));
    }
  }

  lemma EndArg(rest: string)
    requires Ends(rest)
    ensures ParseArg(rest, 0, false) == Parsed("", rest)
  {
  }

  lemma TailEnds(args: seq<string>)
    ensures Ends(Tail(args))
  {
  }

  /** Read as arguments, a quoted list comes back unchanged. */
  lemma {:induction false} LineReads(args: seq<string>)
    ensures ParseArgs(Line(args)) == args && ParseArgs(Tail(args)) == args
    decreases |args|
  {
    hide Escape, ParseArg;
    if args != [] {
      var rest := Tail(args[1..]);
      TailEnds(args[1..]);
      EscapeReads(args[0], rest);
      LineReads(args[1..]);
      var line := Escape(args[0]) + rest;
      assert line[0] == Escape(args[0])[0];
      assert ParseArgs(line) == [args[0]] + ParseArgs(rest);
      assert Tail(args) == " " + line;
      assert Tail(args)[1..] == line;
    }
  }
}
