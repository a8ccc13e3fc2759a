/** Device trees and the bytes a flattened tree is made of. */
module FdtTree {
  import opened MachineTypes

  type Bytes = seq<byte>

  const U32_LIMIT := 0x1_0000_0000

  datatype Property = Property(strings: seq<Bytes>, u32: seq<uint32>, u64: seq<uint64>, bytes: Bytes, flag: bool)

  datatype Node = Node(name: Bytes, properties: map<Bytes, Property>, children: seq<Node>)

  datatype Kind = StringsKind | U32Kind | U64Kind | BytesKind | FlagKind | NoKind

  function KindOf(p: Property): Kind {
    if |p.strings| > 0 then StringsKind
    else if |p.u32| > 0 then U32Kind
    else if |p.u64| > 0 then U64Kind
    else if |p.bytes| > 0 then BytesKind
    else if p.flag then FlagKind
    else NoKind
  }

  function One(b: bool): nat { if b then 1 else 0 }

  function DefinedCount(p: Property): nat {
    One(|p.strings| > 0) + One(|p.u32| > 0) + One(|p.u64| > 0) + One(|p.bytes| > 0) + One(p.flag)
  }

  /* ------------------------------------------------------------------ */
  /* Big-endian words.                                                    */
  /* ------------------------------------------------------------------ */

  /** The low 32 bits, most significant byte first. */
  function Be32(v: nat): (s: Bytes)
    ensures |s| == 4
  {
    [v / 0x100_0000 % 0x100, v / 0x1_0000 % 0x100, v / 0x100 % 0x100, v % 0x100]
  }

  function Be64(v: nat): (s: Bytes)
    ensures |s| == 8
  {
    Be32(v / U32_LIMIT) + Be32(v)
  }

  function Word(s: Bytes): (v: uint32)
    requires |s| >= 4
  {
    WordValue(s[0], s[1], s[2], s[3])
  }

  function WordValue(a: int, b: int, c: int, d: int): int { a * 0x100_0000 + b * 0x1_0000 + c * 0x100 + d }

  /** Reading a written word gives its low 32 bits. */
  lemma WordBack(v: nat, rest: Bytes)
    ensures Word(Be32(v) + rest) == v % U32_LIMIT
    ensures (Be32(v) + rest)[4..] == rest
  {
    var s := Be32(v) + rest;
    assert s[..4] == Be32(v);
    assert s[0] == s[..4][0] && s[1] == s[..4][1] && s[2] == s[..4][2] && s[3] == s[..4][3];
    Digits(v);
  }

  lemma Digits(v: nat)
    ensures WordValue(v / 0x100_0000 % 0x100, v / 0x1_0000 % 0x100, v / 0x100 % 0x100, v % 0x100) == v % U32_LIMIT
  {
    var a := v / 0x100;
    var b := a / 0x100;
    var c := b / 0x100;
    Quotients(v, a, b, c);
    LowWord(v, a, b, c);
  }

  lemma Quotients(v: nat, a: nat, b: nat, c: nat)
    requires a == v / 0x100 && b == a / 0x100 && c == b / 0x100
    ensures v / 0x1_0000 == b && v / 0x100_0000 == c
  {
  }

  lemma LowWord(v: nat, a: nat, b: nat, c: nat)
    requires v == 0x100 * a + v % 0x100 && a == 0x100 * b + a % 0x100 && b == 0x100 * c + b % 0x100
    ensures v % U32_LIMIT == WordValue(c % 0x100, b % 0x100, a % 0x100, v % 0x100)
  {
    var w := WordValue(c % 0x100, b % 0x100, a % 0x100, v % 0x100);
    assert v == U32_LIMIT * (c / 0x100) + w && 0 <= w < U32_LIMIT;
  }

  /** `n` rounded up to a multiple of four. */
  function Padded(n: nat): (m: nat)
    ensures n <= m < n + 4 && m % 4 == 0
  {
    (n + 3) / 4 * 4
  }

  function Zeros(n: nat): (s: Bytes)
    ensures |s| == n
  {
    seq(n, _ => 0)
  }

  /** `s` with zero bytes up to a multiple of four. */
  function Pad(s: Bytes): (p: Bytes)
    ensures |p| == Padded(|s|) && s <= p
  {
    s + Zeros(Padded(|s|) - |s|)
  }

  /* ------------------------------------------------------------------ */
  /* Property values.                                                     */
  /* ------------------------------------------------------------------ */

  function Terminated(strings: seq<Bytes>): Bytes {
    if strings == [] then [] else strings[0] + [0] + Terminated(strings[1..])
  }

  function Words(vs: seq<nat>): (s: Bytes)
    ensures |s| == 4 * |vs|
  {
    if vs == [] then [] else Be32(vs[0]) + Words(vs[1..])
  }

  function DoubleWords(vs: seq<uint64>): Bytes {
    if vs == [] then [] else Be64(vs[0]) + DoubleWords(vs[1..])
  }

  /** The bytes of a property that has exactly one kind of value. */
  function Value(p: Property): Bytes {
    match KindOf(p)
    case StringsKind => Terminated(p.strings)
    case U32Kind => Words(p.u32)
    case U64Kind => DoubleWords(p.u64)
    case BytesKind => p.bytes
    case FlagKind => []
    case NoKind => []
  }

  /** The cells of a value, four bytes each. */
  function ReadWords(s: Bytes): seq<uint32> {
    if |s| < 4 then [] else [Word(s)] + ReadWords(s[4..])
  }

  function ReadDoubleWords(s: Bytes): seq<int> {
    if |s| < 8 then [] else [Word(s) * U32_LIMIT + Word(s[4..])] + ReadDoubleWords(s[8..])
  }

  lemma {:induction false} WordsBack(vs: seq<uint32>)
    ensures ReadWords(Words(vs)) == vs
  {
    hide Be32, Word;
    if vs != [] {
      WordBack(vs[0], Words(vs[1..]));
      WordsBack(vs[1..]);
    }
  }

  /** Word `i` of a run of words. */
  lemma {:induction false} WordAt(vs: seq<nat>, rest: Bytes, i: nat)
    requires i < |vs|
    ensures Word((Words(vs) + rest)[4 * i..]) == vs[i] % U32_LIMIT
  {
    hide Be32, Word;
    var s, more := Words(vs) + rest, Words(vs[1..]) + rest;
    assert s == Be32(vs[0]) + more;
    WordBack(vs[0], more);
    if i > 0 {
      WordAt(vs[1..], rest, i - 1);
      assert s[4 * i..] == s[4..][4 * (i - 1)..];
    } else {
      assert s[0..] == s;
    }
  }

  lemma {:induction false} DoubleWordsBack(vs: seq<uint64>)
    ensures ReadDoubleWords(DoubleWords(vs)) == vs
  {
    hide Be32, Word;
    if vs != [] {
      var v, rest := vs[0], DoubleWords(vs[1..]);
      WordBack(v / U32_LIMIT, Be32(v) + rest);
      WordBack(v, rest);
      assert Be64(v) + rest == Be32(v / U32_LIMIT) + (Be32(v) + rest);
      assert (Be64(v) + rest)[8..] == rest;
      DoubleWordsBack(vs[1..]);
    }
  }

  /* ------------------------------------------------------------------ */
  /* Names in order.                                                      */
  /* ------------------------------------------------------------------ */

  /** Bytewise lexicographic order. */
  predicate Before(a: Bytes, b: Bytes) {
    b != [] && (a == [] || a[0] < b[0] || (a[0] == b[0] && Before(a[1..], b[1..])))
  }

  lemma {:induction false} BeforeTotal(a: Bytes, b: Bytes)
    ensures a == b || Before(a, b) || Before(b, a)
    ensures !(Before(a, b) && Before(b, a)) && !Before(a, a)
  {
    if a != [] && b != [] {
      BeforeTotal(a[1..], b[1..]);
      BeforeTotal(a[1..], a[1..]);
      assert a == [a[0]] + a[1..] && b == [b[0]] + b[1..];
    } else if a != [] {
      BeforeTotal(a[1..], a[1..]);
    }
  }

  lemma {:induction false} BeforeTransitive(a: Bytes, b: Bytes, c: Bytes)
    requires Before(a, b) && Before(b, c)
    ensures Before(a, c)
  {
    if a != [] && a[0] == b[0] == c[0] {
      BeforeTransitive(a[1..], b[1..], c[1..]);
    }
  }

  /** Strictly increasing. */
  predicate Increasing(names: seq<Bytes>) {
    |names| <= 1 || (Before(names[0], names[1]) && Increasing(names[1..]))
  }

  lemma {:induction false} IncreasingHead(names: seq<Bytes>, i: nat)
    requires Increasing(names) && 0 < i < |names|
    ensures Before(names[0], names[i])
  {
    if i > 1 {
      IncreasingHead(names[1..], i - 1);
      BeforeTransitive(names[0], names[1], names[i]);
    }
  }

  function Members(names: seq<Bytes>): (s: set<Bytes>)
    ensures forall x :: x in s <==> x in names
    ensures names != [] ==> names[0] in s
  {
    set x | x in names
  }

  /** A set of names has only one increasing listing. */
  lemma {:induction false} IncreasingUnique(a: seq<Bytes>, b: seq<Bytes>)
    requires Increasing(a) && Increasing(b) && Members(a) == Members(b)
    ensures a == b
    decreases |a|
  {
    if a != [] {
      assert a[0] in Members(b) && b != [];
      var i :| 0 <= i < |b| && b[i] == a[0];
      assert b[0] in Members(a);
      var j :| 0 <= j < |a| && a[j] == b[0];
      if i > 0 {
        IncreasingHead(b, i);
      }
      if j > 0 {
        IncreasingHead(a, j);
      }
      BeforeTotal(a[0], b[0]);
      TailMembers(a);
      TailMembers(b);
      IncreasingUnique(a[1..], b[1..]);
    }
  }

  lemma TailMembers(a: seq<Bytes>)
    requires Increasing(a) && a != []
    ensures Members(a[1..]) == Members(a) - {a[0]}
  {
    forall i | 0 < i < |a|
      ensures a[i] != a[0]
    {
      IncreasingHead(a, i);
      BeforeTotal(a[0], a[0]);
    }
  }

  /** A name put in its place. */
  function Placed(names: seq<Bytes>, x: Bytes): seq<Bytes> {
    if names == [] || Before(x, names[0]) then [x] + names else [names[0]] + Placed(names[1..], x)
  }

  lemma {:induction false} PlacedIncreasing(names: seq<Bytes>, x: Bytes)
    requires Increasing(names) && x !in names
    ensures Increasing(Placed(names, x)) && Members(Placed(names, x)) == Members(names) + {x}
    ensures Placed(names, x)[0] == x || (names != [] && Placed(names, x)[0] == names[0])
  {
    if names != [] && !Before(x, names[0]) {
      BeforeTotal(x, names[0]);
      PlacedIncreasing(names[1..], x);
    }
  }

  /** The increasing listing of a set. */
  ghost function SortedNames(s: set<Bytes>): (names: seq<Bytes>)
    ensures Increasing(names) && Members(names) == s
  {
    if s == {} then []
    else
      var x :| x in s;
      var rest := SortedNames(s - {x});
      PlacedIncreasing(rest, x);
      Placed(rest, x)
  }
}
