/**
 Whole runs of the terminal emulator: creation, restoring, writing and resizing, and what
 every reachable state satisfies.
 */
module TerminalRuns {
  import opened MachineTypes
  import opened TerminalText
  import opened TerminalScreen
  import opened TerminalModel

  /** The emulator: a terminal, the last bytes written to it and how many there were. */
  datatype Emu = Emu(term: Term, rawTail: seq<byte>, bytesRead: int)

  const RAW_LIMIT := 0x1_0000

  const IDLE := Parser(Ground, [], [])

  /** The last bytes, at most `RAW_LIMIT` of them. */
  function Tail(s: seq<byte>): (t: seq<byte>)
    ensures |t| == if |s| < RAW_LIMIT then |s| else RAW_LIMIT
  {
    if |s| > RAW_LIMIT then s[|s| - RAW_LIMIT..] else s
  }

  /** Sizes that are not positive fall back to 80 by 24; a negative history limit means none. */
  function NewSize(cols: int, rows: int, limit: int, marks: set<Rune>): (z: Size)
    ensures z.cols > 0 && z.rows > 0
    ensures cols > 0 ==> z.cols == cols
    ensures rows > 0 ==> z.rows == rows
  {
    Size(if cols <= 0 then 80 else cols, if rows <= 0 then 24 else rows, if limit < 0 then 0 else limit, marks)
  }

  function New(cols: int, rows: int, limit: int, marks: set<Rune>): (e: Emu)
    ensures WellFormed(e.term)
  {
    Emu(Fresh(NewSize(cols, rows, limit, marks), [], IDLE), [], 0)
  }

  function Write(e: Emu, data: seq<byte>): (e': Emu)
    requires WellFormed(e.term)
    ensures WellFormed(e'.term)
  {
    Emu(Feed(e.term, data), Tail(e.rawTail + data), e.bytesRead + |data|)
  }

  function Resize(s: Term, cols: int, rows: int): (t: Term)
    requires WellFormed(s)
    ensures WellFormed(t)
  {
    var r := s.regs;
    var z := NewSize(cols, rows, r.size.limit, r.size.marks);
    Term(r.(size := z, region := Region(0, z.rows - 1), cursor := ClampTo(r.cursor, z), saved := ClampTo(r.saved, z),
            altSaved := ClampTo(r.altSaved, z)),
         Resized(s.main, z.rows, z.cols, z.limit), Resized(s.alt, z.rows, z.cols, 0))
  }

  /* ------------------------------------------------------------------ */
  /* Snapshots.                                                           */
  /* ------------------------------------------------------------------ */

  /** Text is a sequence of characters. */
  datatype Snapshot = Snapshot(cols: int, rows: int, cursor: Cursor, visible: bool, altScreen: bool,
                               lines: seq<seq<Rune>>, cells: Grid, history: seq<seq<Rune>>,
                               title: seq<byte>, rawTail: seq<byte>, bytesRead: int)

  function Inked(row: Row): seq<Rune> {
    if row == [] then [] else (if row[0].r == 0 then [] else [row[0].r]) + Inked(row[1..])
  }

  function TrimRight(s: seq<Rune>): seq<Rune> {
    if s != [] && s[|s| - 1] == 0x20 then TrimRight(s[..|s| - 1]) else s
  }

  function CellsString(row: Row): seq<Rune> { TrimRight(Inked(row)) }

  function Strings(g: Grid): seq<seq<Rune>> {
    if g == [] then [] else [CellsString(g[0])] + Strings(g[1..])
  }

  /** `s` written on `row` from column `x`, as far as it fits. */
  function Spelled(row: Row, x: nat, s: seq<Rune>, marks: set<Rune>): (r: Row)
    ensures |r| == |row|
    decreases |s|
  {
    if s == [] || x >= |row| then row
    else Spelled(row[x := Cell(s[0], DEFAULT_ATTR)], x + RuneWidth(s[0], marks), s[1..], marks)
  }

  function CellsFromString(s: seq<Rune>, cols: nat, marks: set<Rune>): (r: Row)
    ensures |r| == cols
  {
    Spelled(BlankRow(cols, DEFAULT_ATTR), 0, s, marks)
  }

  function FromStrings(lines: seq<seq<Rune>>, cols: nat, marks: set<Rune>): (g: Grid)
    ensures |g| == |lines| && forall y :: 0 <= y < |g| ==> g[y] == CellsFromString(lines[y], cols, marks)
  {
    seq(|lines|, y requires 0 <= y < |lines| => CellsFromString(lines[y], cols, marks))
  }

  function Snap(e: Emu): Snapshot
    requires WellFormed(e.term)
  {
    var r, b := e.term.regs, Active(e.term);
    Snapshot(r.size.cols, r.size.rows, r.cursor, r.modes.visible, r.modes.altScreen,
             Strings(b.lines), b.lines, Strings(b.hist), r.title, e.rawTail, e.bytesRead)
  }

  function RestoredScreen(sn: Snapshot, z: Size, limit: int): (b: Screen)
    ensures Rectangular(b.lines, z.rows, z.cols) && |b.hist| <= if limit > 0 then limit else 0
  {
    Screen(ResizedLines(if sn.cells != [] then sn.cells else FromStrings(sn.lines, z.cols, z.marks), z.rows, z.cols),
           Trimmed(FromStrings(sn.history, z.cols, z.marks), limit))
  }

  function Restore(sn: Snapshot, limit: int, marks: set<Rune>): (e: Emu)
    ensures WellFormed(e.term)
  {
    var z := NewSize(sn.cols, sn.rows, limit, marks);
    var base := Fresh(z, sn.title, IDLE);
    var visible := sn.visible || (sn.bytesRead == 0 && sn.lines == [] && sn.cells == []);
    var regs := base.regs.(cursor := ClampTo(sn.cursor, z),
                           modes := base.regs.modes.(visible := visible, altScreen := sn.altScreen));
    Emu(WithActive(base.(regs := regs), RestoredScreen(sn, z, limit)), sn.rawTail, sn.bytesRead)
  }

  /** Restoring a snapshot shows what was shown; only a pending wrap is lost from the cursor. */
  lemma RestoreShowsSnapshot(e: Emu, limit: int)
    requires WellFormed(e.term)
    ensures var r, t := Restore(Snap(e), limit, e.term.regs.size.marks), e.term;
            && Active(r.term).lines == Active(t).lines
            && r.term.regs.size.cols == t.regs.size.cols && r.term.regs.size.rows == t.regs.size.rows
            && r.term.regs.modes.visible == t.regs.modes.visible && r.term.regs.modes.altScreen == t.regs.modes.altScreen
            && r.term.regs.title == t.regs.title && r.rawTail == e.rawTail && r.bytesRead == e.bytesRead
            && (r.term.regs.cursor == t.regs.cursor <==> t.regs.cursor.x < t.regs.size.cols)
  {
    SameSizeResize(Active(e.term).lines, e.term.regs.size.rows, e.term.regs.size.cols);
    hide ResizedLines, Rectangular;
  }

  lemma SameSizeResize(g: Grid, rows: nat, cols: nat)
    requires Rectangular(g, rows, cols)
    ensures ResizedLines(g, rows, cols) == g
  {
    var h := ResizedLines(g, rows, cols);
    assert forall y :: 0 <= y < rows ==> h[y] == Fitted(g[y], cols) == g[y];
  }

  /* ------------------------------------------------------------------ */
  /* Runs.                                                                */
  /* ------------------------------------------------------------------ */

  datatype Start = Created(cols: int, rows: int, limit: int) | Restored(snapshot: Snapshot, limit: int)

  datatype Call = Written(data: seq<byte>) | ResizedTo(cols: int, rows: int)

  function Begin(start: Start, marks: set<Rune>): (e: Emu)
    ensures WellFormed(e.term)
  {
    match start
    case Created(cols, rows, limit) => New(cols, rows, limit, marks)
    case Restored(sn, limit) => Restore(sn, limit, marks)
  }

  function Do(e: Emu, call: Call): (e': Emu)
    requires WellFormed(e.term)
    ensures WellFormed(e'.term)
  {
    match call
    case Written(data) => Write(e, data)
    case ResizedTo(cols, rows) => e.(term := Resize(e.term, cols, rows))
  }

  /** Every state a run reaches is well formed. */
  function Run(e: Emu, calls: seq<Call>): (e': Emu)
    requires WellFormed(e.term)
    ensures WellFormed(e'.term)
    decreases |calls|
  {
    if calls == [] then e else Run(Do(e, calls[0]), calls[1..])
  }

  function AllWritten(calls: seq<Call>): seq<byte> {
    if calls == [] then []
    else (if calls[0].Written? then calls[0].data else []) + AllWritten(calls[1..])
  }

  /** Keeping the tail at each write keeps the tail of everything. */
  lemma TailOfTail(s: seq<byte>, t: seq<byte>)
    ensures Tail(Tail(s) + t) == Tail(s + t)
  {
  }

  predicate AnyWritten(calls: seq<Call>) {
    calls != [] && (calls[0].Written? || AnyWritten(calls[1..]))
  }

  /** The raw tail is the tail of everything written, after what a snapshot brought in; it is first cut by a write. */
  lemma {:induction false} RawTailIsTail(e: Emu, calls: seq<Call>)
    requires WellFormed(e.term)
    ensures Run(e, calls).rawTail == if AnyWritten(calls) then Tail(e.rawTail + AllWritten(calls)) else e.rawTail
    ensures Run(e, calls).bytesRead == e.bytesRead + |AllWritten(calls)|
    decreases |calls|
  {
    hide Do, Tail, WellFormed;
    if calls != [] {
      var c, rest := calls[0], AllWritten(calls[1..]);
      DoRaw(e, c);
      RawTailIsTail(Do(e, c), calls[1..]);
      var data := if c.Written? then c.data else [];
      assert AllWritten(calls) == data + rest;
      assert e.rawTail + data + rest == e.rawTail + (data + rest);
      TailOfTail(e.rawTail + data, rest);
      NoneWritten(calls[1..]);
      assert e.rawTail + data + [] == e.rawTail + data;
      assert e.rawTail + [] == e.rawTail;
    }
  }

  lemma {:induction false} NoneWritten(calls: seq<Call>)
    ensures !AnyWritten(calls) ==> AllWritten(calls) == []
  {
    if calls != [] {
      NoneWritten(calls[1..]);
    }
  }

  lemma DoRaw(e: Emu, c: Call)
    requires WellFormed(e.term)
    ensures var data := if c.Written? then c.data else [];
            && Do(e, c).rawTail == (if c.Written? then Tail(e.rawTail + data) else e.rawTail)
            && Do(e, c).bytesRead == e.bytesRead + |data|
  {
  }

  /** From a new emulator the raw tail is the last 64 KiB of everything written. */
  lemma NewRawTail(cols: int, rows: int, limit: int, marks: set<Rune>, calls: seq<Call>)
    ensures Run(New(cols, rows, limit, marks), calls).rawTail == Tail(AllWritten(calls))
  {
    RawTailIsTail(New(cols, rows, limit, marks), calls);
    NoneWritten(calls);
    assert [] + AllWritten(calls) == AllWritten(calls);
  }
}
