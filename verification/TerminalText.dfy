/** Characters and control-sequence parameters of the terminal emulator. */
module TerminalText {
  import opened MachineTypes

  /** Unicode code points. */
  type Rune = int

  const RUNE_ERROR: Rune := 0xfffd

  /* ------------------------------------------------------------------ */
  /* UTF-8.                                                               */
  /* ------------------------------------------------------------------ */

  /** A decoded character and the bytes it took; one byte on malformed input. */
  datatype Decoded = Decoded(rune: Rune, size: nat)

  /** Length announced by a first byte: 1 for ASCII, 0 for a byte that starts nothing. */
  function SequenceLength(b: byte): nat {
    if b < 0x80 then 1
    else if b < 0xc2 then 0
    else if b < 0xe0 then 2
    else if b < 0xf0 then 3
    else if b < 0xf5 then 4
    else 0
  }

  /** Second bytes that keep the encoding shortest and out of the surrogate range. */
  predicate SecondOk(b: byte, c: byte) {
    var lo := if b == 0xe0 then 0xa0 else if b == 0xf0 then 0x90 else 0x80;
    var hi := if b == 0xed then 0x9f else if b == 0xf4 then 0x8f else 0xbf;
    lo <= c <= hi
  }

  predicate Continuation(b: byte) { 0x80 <= b <= 0xbf }

  /** The payload bits of a continuation byte. */
  function Low6(b: byte): int { b % 0x40 }

  function Lead(b: byte, bits: nat): int
    requires bits > 0
  {
    b % bits
  }

  function DecodeRune(data: seq<byte>): (d: Decoded)
    requires data != []
    ensures 1 <= d.size <= |data| && d.size <= 4
  {
    var b := data[0];
    var n := SequenceLength(b);
    if n == 1 then Decoded(b, 1)
    else if n == 0 || |data| < n || !SecondOk(b, data[1]) then Decoded(RUNE_ERROR, 1)
    else if n == 2 then Decoded(Lead(b, 0x20) * 0x40 + Low6(data[1]), 2)
    else if !Continuation(data[2]) then Decoded(RUNE_ERROR, 1)
    else if n == 3 then Decoded(Lead(b, 0x10) * 0x1000 + Low6(data[1]) * 0x40 + Low6(data[2]), 3)
    else if !Continuation(data[3]) then Decoded(RUNE_ERROR, 1)
    else Decoded(Lead(b, 8) * 0x40000 + Low6(data[1]) * 0x1000 + Low6(data[2]) * 0x40 + Low6(data[3]), 4)
  }

  /** A character that ends inside `a` decodes the same without what follows. */
  lemma DecodePrefix(a: seq<byte>, b: seq<byte>)
    requires a != [] && DecodeRune(a + b).size <= |a|
    ensures DecodeRune(a) == DecodeRune(a + b)
  {
    var whole := a + b;
    assert forall i :: 0 <= i < |a| ==> whole[i] == a[i];
  }

  /* ------------------------------------------------------------------ */
  /* Character cells.                                                     */
  /* ------------------------------------------------------------------ */

  /** Columns taken by a character; `marks` holds the non-spacing marks. */
  function RuneWidth(r: Rune, marks: set<Rune>): nat {
    if r == 0 || r in marks then 0
    else if r >= 0x1100 &&
            (r <= 0x115f || r == 0x2329 || r == 0x232a || 0x2e80 <= r <= 0xa4cf || 0xac00 <= r <= 0xd7a3
             || 0xf900 <= r <= 0xfaff || 0xfe10 <= r <= 0xfe19 || 0xfe30 <= r <= 0xfe6f
             || 0xff00 <= r <= 0xff60 || 0xffe0 <= r <= 0xffe6) then 2
    else 1
  }

  /** The line-drawing set: letters stand for box characters. */
  function LineDrawing(r: Rune): Rune {
    match r
    case 0x60 => 0x25c6
    case 0x61 => 0x2592
    case 0x66 => 0x00b0
    case 0x67 => 0x00b1
    case 0x6a => 0x2518
    case 0x6b => 0x2510
    case 0x6c => 0x250c
    case 0x6d => 0x2514
    case 0x6e => 0x253c
    case 0x71 => 0x2500
    case 0x74 => 0x251c
    case 0x75 => 0x2524
    case 0x76 => 0x2534
    case 0x77 => 0x252c
    case 0x78 => 0x2502
    case _ => r
  }

  /* ------------------------------------------------------------------ */
  /* CSI parameters.                                                      */
  /* ------------------------------------------------------------------ */

  predicate Digit(b: byte) { 0x30 <= b <= 0x39 }

  function DigitValue(b: byte): nat
    requires Digit(b)
  {
    b - 0x30
  }

  /** The leading decimal digits of a field, with the value read so far. */
  function Number(field: seq<byte>, n: nat): nat {
    if field == [] || !Digit(field[0]) then n else Number(field[1..], n * 10 + DigitValue(field[0]))
  }

  /** Fields separated by ';' or ':'. */
  function Fields(body: seq<byte>): (r: seq<seq<byte>>)
    ensures |r| >= 1
  {
    if body == [] then [[]]
    else
      var rest := Fields(body[1..]);
      if body[0] == 0x3b || body[0] == 0x3a then [[]] + rest
      else [[body[0]] + rest[0]] + rest[1..]
  }

  function Numbers(fields: seq<seq<byte>>): seq<nat> {
    if fields == [] then [] else [Number(fields[0], 0)] + Numbers(fields[1..])
  }

  function ParseParams(body: seq<byte>): seq<nat> {
    if body == [] then [] else Numbers(Fields(body))
  }

  /** Parameter `i`; a missing or zero parameter means the fallback. */
  function Param(params: seq<nat>, i: nat, fallback: nat): nat {
    if i >= |params| || params[i] == 0 then fallback else params[i]
  }
}
