/** Out-of-order reassembly of a TCP receive stream: the buffer and the receiving side of a connection. */
module TcpReceive {
  import opened MachineTypes
  import opened TcpSequence

  datatype Segment = Segment(start: uint32, end: uint32, payload: seq<byte>)

  /* ------------------------------------------------------------------ */
  /* Meaning of the two buffer operations, on sequences of segments.      */
  /* ------------------------------------------------------------------ */

  predicate OverlapsAny(segs: seq<Segment>, seg: Segment) {
    segs != [] && (SeqOverlap(seg.start, seg.end, segs[0].start, segs[0].end) || OverlapsAny(segs[1..], seg))
  }

  /** `seg` placed before the first segment that starts after it. */
  function Place(segs: seq<Segment>, seg: Segment): seq<Segment> {
    if segs == [] then [seg]
    else if SeqLT(seg.start, segs[0].start) then [seg] + segs
    else [segs[0]] + Place(segs[1..], seg)
  }

  function Insert(segs: seq<Segment>, seg: Segment, maxGaps: int): (seq<Segment>, bool) {
    if OverlapsAny(segs, seg) || |segs| >= maxGaps then (segs, false)
    else (Place(segs, seg), true)
  }

  /** Outcome of removing segments: what was taken, what stayed, what is expected next. */
  datatype Sweep = Sweep(taken: seq<seq<byte>>, kept: seq<Segment>, next: uint32)

  /** One pass over the buffer; `next` moves on during the pass. */
  function SweepOnce(segs: seq<Segment>, next: uint32): (r: Sweep)
    ensures |r.kept| + |r.taken| == |segs|
  {
    if segs == [] then Sweep([], [], next)
    else if segs[0].start == next then
      var r := SweepOnce(segs[1..], segs[0].end);
      Sweep([segs[0].payload] + r.taken, r.kept, r.next)
    else
      var r := SweepOnce(segs[1..], next);
      Sweep(r.taken, [segs[0]] + r.kept, r.next)
  }

  /** Passes repeated until one finds nothing. */
  function Collect(segs: seq<Segment>, next: uint32): Sweep
    decreases |segs|
  {
    var first := SweepOnce(segs, next);
    if first.taken == [] then first
    else
      var rest := Collect(first.kept, first.next);
      Sweep(first.taken + rest.taken, rest.kept, rest.next)
  }

  /* ------------------------------------------------------------------ */
  /* The buffer.                                                         */
  /* ------------------------------------------------------------------ */

  lemma OverlapsAppend(done: seq<Segment>, existing: Segment, seg: Segment)
    ensures OverlapsAny(done + [existing], seg)
       <==> OverlapsAny(done, seg) || SeqOverlap(seg.start, seg.end, existing.start, existing.end)
  {
    if done == [] {
      assert ([] + [existing])[1..] == [];
    } else {
      OverlapsAppend(done[1..], existing, seg);
      assert (done + [existing])[1..] == done[1..] + [existing];
    }
  }

  lemma OverlapsPrefix(segs: seq<Segment>, n: nat, seg: Segment)
    requires n <= |segs| && OverlapsAny(segs[..n], seg)
    ensures OverlapsAny(segs, seg)
  {
    if !SeqOverlap(seg.start, seg.end, segs[0].start, segs[0].end) {
      assert segs[..n][1..] == segs[1..][..n - 1];
      OverlapsPrefix(segs[1..], n - 1, seg);
    }
  }

  lemma {:induction false} PlaceAt(segs: seq<Segment>, seg: Segment, k: nat)
    requires k <= |segs|
    requires forall i :: 0 <= i < k ==> !SeqLT(seg.start, segs[i].start)
    requires k < |segs| ==> SeqLT(seg.start, segs[k].start)
    ensures Place(segs, seg) == segs[..k] + [seg] + segs[k..]
  {
    if k != 0 {
      PlaceAt(segs[1..], seg, k - 1);
      assert segs[..k] == [segs[0]] + segs[1..][..k - 1];
    }
  }

  lemma {:induction false} SweepNothing(segs: seq<Segment>, next: uint32, k: nat)
    requires SweepOnce(segs, next).taken == [] && k < |segs|
    ensures SweepOnce(segs, next).kept == segs && SweepOnce(segs, next).next == next && segs[k].start != next
  {
    if |segs| > 1 {
      SweepNothing(segs[1..], next, if k > 0 then k - 1 else 0);
    }
  }

  /** Collection ends only when no segment left has the number expected next. */
  lemma {:induction false} CollectLeavesNone(segs: seq<Segment>, next: uint32, k: nat)
    requires k < |Collect(segs, next).kept|
    ensures Collect(segs, next).kept[k].start != Collect(segs, next).next
    decreases |segs|
  {
    var first := SweepOnce(segs, next);
    if first.taken == [] {
      SweepNothing(segs, next, k);
    } else {
      CollectLeavesNone(first.kept, first.next, k);
    }
  }

  /** A segment that is accepted is one more, any other changes nothing. */
  lemma {:induction false} InsertTells(segs: seq<Segment>, seg: Segment, maxGaps: int)
    ensures var (after, ok) := Insert(segs, seg, maxGaps);
            multiset(after) == if ok then multiset(segs) + multiset{seg} else multiset(segs)
  {
    PlaceIsPermutation(segs, seg);
  }

  lemma {:induction false} PlaceIsPermutation(segs: seq<Segment>, seg: Segment)
    ensures multiset(Place(segs, seg)) == multiset(segs) + multiset{seg}
  {
    if segs != [] {
      PlaceIsPermutation(segs[1..], seg);
      assert segs == [segs[0]] + segs[1..];
    }
  }

  lemma SweepAppend(done: seq<Segment>, seg: Segment, next: uint32)
    ensures var r := SweepOnce(done, next); var s := SweepOnce(done + [seg], next);
            s == if seg.start == r.next then Sweep(r.taken + [seg.payload], r.kept, seg.end)
                 else Sweep(r.taken, r.kept + [seg], r.next)
  {
    if done != [] {
      SweepAppend(done[1..], seg, if done[0].start == next then done[0].end else next);
      assert (done + [seg])[1..] == done[1..] + [seg];
    } else {
      assert ([] + [seg])[1..] == [];
    }
  }

  class RecvBuffer {
    var segments: seq<Segment>
    const maxGaps: int

    constructor (maxGaps: int)
      ensures segments == [] && this.maxGaps == maxGaps
    {
      segments := [];
      this.maxGaps := maxGaps;
    }

    /** Adds an out-of-order segment; refuses overlap and overflow. */
    method Add(seg: Segment) returns (ok: bool)
      modifies this
      ensures (segments, ok) == Insert(old(segments), seg, maxGaps)
    {
      var insertIdx := |segments|;
      for i := 0 to |segments|
        invariant segments == old(segments)
        invariant !OverlapsAny(segments[..i], seg)
        invariant 0 <= insertIdx < i || insertIdx == |segments|
        invariant forall j :: 0 <= j < i && j < insertIdx ==> !SeqLT(seg.start, segments[j].start)
        invariant insertIdx < i ==> SeqLT(seg.start, segments[insertIdx].start)
      {
        var existing := segments[i];
        OverlapsAppend(segments[..i], existing, seg);
        assert segments[..i] + [existing] == segments[..i + 1];
        if SeqOverlap(seg.start, seg.end, existing.start, existing.end) {
          OverlapsPrefix(segments, i + 1, seg);
          return false;
        }
        if SeqLT(seg.start, existing.start) && insertIdx == |segments| {
          insertIdx := i;
        }
      }
      assert segments[..|segments|] == segments;
      if |segments| >= maxGaps {
        return false;
      }
      PlaceAt(segments, seg, insertIdx);
      segments := segments[..insertIdx] + [seg] + segments[insertIdx..];
      ok := true;
    }

    /** One pass over the buffer. */
    method Pass(nextSeq: uint32) returns (taken: seq<seq<byte>>, next: uint32)
      modifies this
      ensures Sweep(taken, segments, next) == SweepOnce(old(segments), nextSeq)
    {
      taken, next := [], nextSeq;
      var kept := [];
      for i := 0 to |segments|
        invariant segments == old(segments)
        invariant Sweep(taken, kept, next) == SweepOnce(segments[..i], nextSeq)
      {
        var seg := segments[i];
        SweepAppend(segments[..i], seg, nextSeq);
        assert segments[..i] + [seg] == segments[..i + 1];
        if seg.start == next {
          taken := taken + [seg.payload];
          next := seg.end;
        } else {
          kept := kept + [seg];
        }
      }
      assert segments[..|segments|] == segments;
      segments := kept;
    }

    /** Removes every segment contiguous with `nextSeq`. */
    method CollectContiguous(nextSeq: uint32) returns (collected: seq<seq<byte>>, next: uint32)
      modifies this
      ensures Sweep(collected, segments, next) == Collect(old(segments), nextSeq)
    {
      hide SweepOnce;
      collected, next := [], nextSeq;
      var found := true;
      while found
        invariant found ==> (var c := Collect(segments, next);
                             Collect(old(segments), nextSeq) == c.(taken := collected + c.taken))
        invariant !found ==> Sweep(collected, segments, next) == Collect(old(segments), nextSeq)
        decreases found, |segments|
      {
        var taken;
        taken, next := Pass(next);
        found := taken != [];
        assert collected + (taken + Collect(segments, next).taken) == collected + taken + Collect(segments, next).taken;
        collected := collected + taken;
      }
    }

    method Clear()
      modifies this
      ensures segments == []
    {
      segments := [];
    }
  }

  /* ------------------------------------------------------------------ */
  /* The receiving side of a connection.                                  */
  /* ------------------------------------------------------------------ */

  /** What the peer has sent so far, as bytes handed to the application. */
  datatype Conn = Conn(nextSeq: uint32, segs: seq<Segment>, delivered: seq<byte>)

  function Flatten(parts: seq<seq<byte>>): seq<byte> {
    if parts == [] then [] else parts[0] + Flatten(parts[1..])
  }

  /** A data segment arriving on an established connection. */
  function Receive(c: Conn, seg: Segment, maxGaps: int): Conn {
    if seg.start != c.nextSeq then
      if SeqGT(seg.start, c.nextSeq) then c.(segs := Insert(c.segs, seg, maxGaps).0) else c
    else
      var r := Collect(c.segs, (c.nextSeq + |seg.payload|) % MODULUS);
      Conn(r.next, r.kept, c.delivered + seg.payload + Flatten(r.taken))
  }

  /** The receiving side: what is expected next, what waits, what has been handed over. */
  class Receiver {
    const buffer: RecvBuffer
    var nextSeq: uint32
    var delivered: seq<byte>

    ghost function View(): Conn
      reads this, buffer
    {
      Conn(nextSeq, buffer.segments, delivered)
    }

    constructor (isn: uint32, maxGaps: int)
      ensures View() == Conn(isn, [], []) && buffer.maxGaps == maxGaps && fresh(buffer)
    {
      buffer := new RecvBuffer(maxGaps);
      nextSeq, delivered := isn, [];
    }

    method HandleData(seg: Segment)
      modifies this, buffer
      ensures View() == Receive(old(View()), seg, buffer.maxGaps)
    {
      if seg.start != nextSeq {
        if SeqGT(seg.start, nextSeq) {
          var added := buffer.Add(seg);
        }
        return;
      }
      delivered := delivered + seg.payload;
      nextSeq := (nextSeq + |seg.payload|) % MODULUS;
      var collected, next := buffer.CollectContiguous(nextSeq);
      nextSeq := next;
      var i := 0;
      ghost var start := delivered;
      assert collected[0..] == collected;
      while i < |collected|
        modifies this`delivered
        invariant i <= |collected| && delivered + Flatten(collected[i..]) == start + Flatten(collected)
      {
        assert collected[i..][1..] == collected[i + 1..];
        assert delivered + (collected[i] + Flatten(collected[i + 1..])) == delivered + collected[i] + Flatten(collected[i + 1..]);
        delivered := delivered + collected[i];
        i := i + 1;
      }
      assert delivered + [] == delivered;
    }
  }

  /* ------------------------------------------------------------------ */
  /* Pieces of a stream.                                                  */
  /* ------------------------------------------------------------------ */

  /** Bytes `[pos, pos + len)` of the stream. */
  datatype Piece = Piece(pos: nat, len: nat) {
    function End(): nat { pos + len }
  }

  /** The segment that carries a piece. */
  function SegmentOf(isn: uint32, stream: seq<byte>, p: Piece): Segment
    requires p.End() <= |stream|
  {
    Segment(Wire(isn, p.pos), Wire(isn, p.End()), stream[p.pos..p.End()])
  }

  lemma FlattenCons(first: seq<byte>, rest: seq<seq<byte>>)
    ensures Flatten([first] + rest) == first + Flatten(rest)
  {
    assert ([first] + rest)[1..] == rest;
  }

  lemma Regroup(a: seq<byte>, b: seq<byte>, c: seq<byte>)
    ensures a + (b + c) == a + b + c
  {
  }

  lemma SliceJoin(s: seq<byte>, a: nat, b: nat, c: nat)
    requires a <= b <= c <= |s|
    ensures s[a..b] + s[b..c] == s[a..c]
  {
  }
}
