/**
 The order of the out-of-order buffer. `IdealReceive` is the receiver over unbounded stream
 positions, its pieces sorted and without overlap; while all positions that are alive lie within
 2^31 of each other, the wrap-around receiver is that one.
 */
module TcpOrder {
  import opened MachineTypes
  import opened TcpSequence
  import opened TcpReceive
  import opened TcpStream

  /** Sorted by position, pairwise disjoint, none empty, all inside `[lo, size)`. */
  predicate Orderly(lo: nat, pieces: seq<Piece>, size: nat)
    decreases |pieces|
  {
    pieces == [] ||
    (lo <= pieces[0].pos && 0 < pieces[0].len && pieces[0].End() <= size && Orderly(pieces[0].End(), pieces[1..], size))
  }

  predicate Disjoint(a: Piece, b: Piece) {
    a.End() <= b.pos || b.End() <= a.pos
  }

  predicate Apart(pieces: seq<Piece>, p: Piece) {
    pieces == [] || (Disjoint(p, pieces[0]) && Apart(pieces[1..], p))
  }

  function IdealPlace(pieces: seq<Piece>, p: Piece): (r: seq<Piece>)
    ensures |r| == |pieces| + 1
  {
    if pieces == [] then [p]
    else if p.pos < pieces[0].pos then [p] + pieces
    else [pieces[0]] + IdealPlace(pieces[1..], p)
  }

  /** Takes out, in one pass, every piece that continues the delivered prefix. */
  function IdealCollect(next: nat, pieces: seq<Piece>): (r: Gathered)
    ensures r.next >= next && |r.kept| <= |pieces|
    decreases |pieces|
  {
    if pieces == [] then Gathered([], [], next)
    else if pieces[0].pos == next then
      var r := IdealCollect(pieces[0].End(), pieces[1..]);
      r.(taken := [pieces[0]] + r.taken)
    else
      var r := IdealCollect(next, pieces[1..]);
      r.(kept := [pieces[0]] + r.kept)
  }

  function IdealReceive(s: Tagged, p: Piece, maxGaps: int): Tagged {
    if p.pos == s.next then
      var r := IdealCollect(p.End(), s.pieces);
      Tagged(r.next, r.kept, s.out + ([p] + r.taken))
    else if p.pos > s.next && Apart(s.pieces, p) && |s.pieces| < maxGaps then
      s.(pieces := IdealPlace(s.pieces, p))
    else s
  }

  /** No buffered piece starts at `next`: nothing more can be handed over. */
  predicate Waiting(next: nat, pieces: seq<Piece>) {
    pieces == [] || (pieces[0].pos != next && Waiting(next, pieces[1..]))
  }

  /** Every piece lies in the half of the sequence space that starts at `base`. */
  predicate Within(base: int, pieces: seq<Piece>) {
    pieces == [] || (base <= pieces[0].pos && pieces[0].End() < base + HALF && Within(base, pieces[1..]))
  }

  predicate InWindow(base: int, s: Tagged, p: Piece) {
    base <= s.next < base + HALF && base <= p.pos && p.End() < base + HALF && Within(base, s.pieces)
  }

  /** All live positions fit in one half of the sequence space. */
  ghost predicate Live(s: Tagged, p: Piece) {
    exists base :: InWindow(base, s, p)
  }

  /* ------------------------------------------------------------------ */
  /* Insertion.                                                           */
  /* ------------------------------------------------------------------ */

  lemma {:induction false} IdealPlaceKeepsOrder(lo: nat, pieces: seq<Piece>, p: Piece, size: nat)
    requires Orderly(lo, pieces, size) && Apart(pieces, p) && lo <= p.pos && 0 < p.len && p.End() <= size
    ensures Orderly(lo, IdealPlace(pieces, p), size)
    decreases |pieces|
  {
    if pieces == [] {
    } else if p.pos < pieces[0].pos {
      assert ([p] + pieces)[1..] == pieces;
    } else {
      IdealPlaceKeepsOrder(pieces[0].End(), pieces[1..], p, size);
      assert IdealPlace(pieces, p)[1..] == IdealPlace(pieces[1..], p);
    }
  }

  lemma OverlapIsIntersection(isn: uint32, p: Piece, q: Piece)
    requires Near(p.pos, q.End()) && Near(q.pos, p.End())
    requires 0 < p.len && 0 < q.len
    ensures SeqOverlap(Wire(isn, p.pos), Wire(isn, p.End()), Wire(isn, q.pos), Wire(isn, q.End())) <==> !Disjoint(p, q)
  {
    WireOrder(isn, p.pos, q.End());
    WireOrder(isn, q.pos, p.End());
  }

  /* ------------------------------------------------------------------ */
  /* Collection.                                                          */
  /* ------------------------------------------------------------------ */

  lemma {:induction false} IdealCollectKeepsOrder(lo: nat, next: nat, pieces: seq<Piece>, size: nat)
    requires Orderly(lo, pieces, size) && next <= size
    ensures var r := IdealCollect(next, pieces); Orderly(lo, r.kept, size) && r.next <= size
    decreases |pieces|
  {
    if pieces != [] {
      var end := pieces[0].End();
      if pieces[0].pos == next {
        IdealCollectKeepsOrder(end, end, pieces[1..], size);
      } else {
        IdealCollectKeepsOrder(end, next, pieces[1..], size);
        assert ([pieces[0]] + IdealCollect(next, pieces[1..]).kept)[1..] == IdealCollect(next, pieces[1..]).kept;
      }
    }
  }

  /** Collection never stops at a position before the pieces it has passed. */
  lemma {:induction false} CollectEnd(lo: nat, next: nat, pieces: seq<Piece>, size: nat)
    requires Orderly(lo, pieces, size)
    ensures var r := IdealCollect(next, pieces); r.next == next || lo < r.next
    decreases |pieces|
  {
    if pieces != [] {
      CollectEnd(pieces[0].End(), if pieces[0].pos == next then pieces[0].End() else next, pieces[1..], size);
    }
  }

  lemma {:induction false} CollectLeavesWaiting(lo: nat, next: nat, pieces: seq<Piece>, size: nat)
    requires Orderly(lo, pieces, size)
    ensures var r := IdealCollect(next, pieces); Waiting(r.next, r.kept)
    decreases |pieces|
  {
    if pieces != [] {
      var end := pieces[0].End();
      if pieces[0].pos == next {
        CollectLeavesWaiting(end, end, pieces[1..], size);
      } else {
        CollectLeavesWaiting(end, next, pieces[1..], size);
        CollectEnd(end, next, pieces[1..], size);
        assert ([pieces[0]] + IdealCollect(next, pieces[1..]).kept)[1..] == IdealCollect(next, pieces[1..]).kept;
      }
    }
  }

  lemma IdealCollectIdle(next: nat, pieces: seq<Piece>)
    requires Waiting(next, pieces)
    ensures IdealCollect(next, pieces) == Gathered([], pieces, next)
  {
  }

  lemma {:induction false} CollectStaysWithin(base: int, next: nat, pieces: seq<Piece>)
    requires Within(base, pieces) && base <= next < base + HALF
    ensures var r := IdealCollect(next, pieces); Within(base, r.kept) && base <= r.next < base + HALF
    decreases |pieces|
  {
    if pieces != [] {
      var next' := if pieces[0].pos == next then pieces[0].End() else next;
      CollectStaysWithin(base, next', pieces[1..]);
      var r := IdealCollect(next', pieces[1..]);
      assert ([pieces[0]] + r.kept)[1..] == r.kept;
    }
  }

  lemma {:induction false} CollectTiles(next: nat, pieces: seq<Piece>)
    ensures var r := IdealCollect(next, pieces); Tiles(r.taken, next, r.next)
    decreases |pieces|
  {
    if pieces != [] {
      var next' := if pieces[0].pos == next then pieces[0].End() else next;
      CollectTiles(next', pieces[1..]);
      var r := IdealCollect(next', pieces[1..]);
      assert ([pieces[0]] + r.taken)[1..] == r.taken;
    }
  }

  lemma {:induction false} TilesJoin(a: seq<Piece>, b: seq<Piece>, at: nat, mid: nat, end: nat)
    requires Tiles(a, at, mid) && Tiles(b, mid, end)
    ensures Tiles(a + b, at, end)
  {
    if a == [] {
      assert a + b == b;
    } else {
      TilesJoin(a[1..], b, a[0].End(), mid, end);
      assert (a + b)[1..] == a[1..] + b;
    }
  }

  /** A piece in its place, and then others. */
  lemma TilesMore(out: seq<Piece>, p: Piece, more: seq<Piece>, end: nat)
    requires Tiles(out, 0, p.pos) && Tiles(more, p.End(), end)
    ensures Tiles(out + ([p] + more), 0, end)
  {
    assert ([p] + more)[1..] == more;
    TilesJoin(out, [p] + more, 0, p.pos, end);
  }

  /* ------------------------------------------------------------------ */
  /* One arrival.                                                         */
  /* ------------------------------------------------------------------ */

  /** What every reachable state of the ideal receiver satisfies. */
  predicate Sound(s: Tagged, size: nat, maxGaps: int) {
    && Orderly(0, s.pieces, size) && s.next <= size && Tiles(s.out, 0, s.next)
    && |s.pieces| <= maxGaps && Waiting(s.next, s.pieces)
  }

  lemma {:induction false} PlaceKeepsWaiting(next: nat, pieces: seq<Piece>, p: Piece)
    requires Waiting(next, pieces) && p.pos != next
    ensures Waiting(next, IdealPlace(pieces, p))
  {
    if pieces == [] {
    } else if p.pos < pieces[0].pos {
      assert ([p] + pieces)[1..] == pieces;
    } else {
      PlaceKeepsWaiting(next, pieces[1..], p);
      assert IdealPlace(pieces, p)[1..] == IdealPlace(pieces[1..], p);
    }
  }

  lemma IdealReceiveSound(s: Tagged, p: Piece, size: nat, maxGaps: int)
    requires Sound(s, size, maxGaps) && 0 < p.len && p.End() <= size
    ensures Sound(IdealReceive(s, p, maxGaps), size, maxGaps)
    ensures s.next <= IdealReceive(s, p, maxGaps).next
  {
    if p.pos == s.next {
      IdealCollectKeepsOrder(0, p.End(), s.pieces, size);
      CollectLeavesWaiting(0, p.End(), s.pieces, size);
      CollectTiles(p.End(), s.pieces);
      var r := IdealCollect(p.End(), s.pieces);
      TilesMore(s.out, p, r.taken, r.next);
    } else if p.pos > s.next && Apart(s.pieces, p) && |s.pieces| < maxGaps {
      IdealPlaceKeepsOrder(0, s.pieces, p, size);
      PlaceKeepsWaiting(s.next, s.pieces, p);
    }
  }

  /* ------------------------------------------------------------------ */
  /* The wrap-around receiver is the ideal one.                           */
  /* ------------------------------------------------------------------ */

  lemma {:induction false} OverlapIsWire(isn: uint32, base: int, lo: nat, pieces: seq<Piece>, p: Piece, size: nat)
    requires Orderly(lo, pieces, size) && Within(base, pieces) && base <= p.pos && p.End() < base + HALF && 0 < p.len
    ensures WireOverlaps(isn, pieces, p) <==> !Apart(pieces, p)
    decreases |pieces|
  {
    hide Wire;
    if pieces != [] {
      OverlapIsIntersection(isn, p, pieces[0]);
      OverlapIsWire(isn, base, pieces[0].End(), pieces[1..], p, size);
    }
  }

  lemma {:induction false} PlaceIsWire(isn: uint32, base: int, pieces: seq<Piece>, p: Piece)
    requires Within(base, pieces) && base <= p.pos < base + HALF
    ensures WirePlace(isn, pieces, p) == IdealPlace(pieces, p)
  {
    hide Wire;
    if pieces != [] {
      WireOrder(isn, p.pos, pieces[0].pos);
      PlaceIsWire(isn, base, pieces[1..], p);
    }
  }

  lemma SameWithin(base: int, a: int, b: int)
    requires base <= a < base + HALF && base <= b < base + HALF
    ensures Same(a, b) <==> a == b
  {
  }

  /** One pass takes what the ideal receiver takes, and only that. */
  lemma {:induction false} OnePass(base: int, next: nat, pieces: seq<Piece>)
    requires Within(base, pieces) && base <= next < base + HALF
    ensures GatherOnce(pieces, next) == IdealCollect(next, pieces)
    decreases |pieces|
  {
    hide Same;
    if pieces != [] {
      SameWithin(base, pieces[0].pos, next);
      OnePass(base, if pieces[0].pos == next then pieces[0].End() else next, pieces[1..]);
    }
  }

  /** In a sorted buffer one pass takes all there is to take. */
  lemma CollectIsGather(base: int, next: nat, pieces: seq<Piece>, size: nat)
    requires Orderly(0, pieces, size) && Within(base, pieces) && base <= next < base + HALF
    ensures Gather(pieces, next) == IdealCollect(next, pieces)
  {
    hide Orderly, Within, GatherOnce, IdealCollect, Waiting;
    var r := IdealCollect(next, pieces);
    OnePass(base, next, pieces);
    CollectLeavesWaiting(0, next, pieces, size);
    CollectStaysWithin(base, next, pieces);
    OnePass(base, r.next, r.kept);
    IdealCollectIdle(r.next, r.kept);
    assert Gather(r.kept, r.next) == Gathered([], r.kept, r.next);
  }

  /** On live numbers the wrap-around receiver computes the ideal one. */
  lemma AcceptIsIdeal(isn: uint32, s: Tagged, p: Piece, size: nat, maxGaps: int)
    requires Sound(s, size, maxGaps) && 0 < p.len && p.End() <= size && Live(s, p)
    ensures Accept(isn, s, p, maxGaps) == IdealReceive(s, p, maxGaps)
    ensures Sound(Accept(isn, s, p, maxGaps), size, maxGaps)
  {
    IdealReceiveSound(s, p, size, maxGaps);
    var base :| InWindow(base, s, p);
    if p.pos == s.next {
      CollectIsGather(base, p.End(), s.pieces, size);
    } else {
      OverlapIsWire(isn, base, 0, s.pieces, p, size);
      PlaceIsWire(isn, base, s.pieces, p);
    }
  }

  /** Every arrival is close to all positions alive when it comes, those of overtaken pieces included. */
  ghost predicate LiveRun(isn: uint32, arrivals: seq<Piece>, maxGaps: int) {
    arrivals == [] ||
    (var front := arrivals[..|arrivals| - 1];
     Live(TaggedRun(isn, front, maxGaps), arrivals[|arrivals| - 1]) && LiveRun(isn, front, maxGaps))
  }

  /** Then what waits stays sorted, disjoint and within the gap limit, and nothing is mistaken. */
  lemma {:induction false} LiveRunsStaySorted(isn: uint32, arrivals: seq<Piece>, size: nat, maxGaps: nat)
    requires ArrivesRun(isn, arrivals, size, maxGaps) && LiveRun(isn, arrivals, maxGaps)
    ensures Sound(TaggedRun(isn, arrivals, maxGaps), size, maxGaps) && CleanRun(isn, arrivals, maxGaps)
  {
    hide Accept, Live;
    if arrivals != [] {
      var front, p := arrivals[..|arrivals| - 1], arrivals[|arrivals| - 1];
      LiveRunsStaySorted(isn, front, size, maxGaps);
      AcceptIsIdeal(isn, TaggedRun(isn, front, maxGaps), p, size, maxGaps);
    }
  }

  /** A piece more than 2^31 behind makes the buffer lose its order. */
  lemma OrderLost(isn: uint32, q: Piece, p: Piece)
    requires HALF <= p.pos - q.pos < MODULUS
    ensures WirePlace(isn, [q], p) == [p, q] && IdealPlace([q], p) == [q, p]
  {
    WireApart(isn, q.pos, p.pos);
  }

  lemma WireApart(isn: uint32, a: int, b: int)
    requires HALF <= b - a < MODULUS
    ensures SeqLT(Wire(isn, b), Wire(isn, a))
  {
    var j, k := (isn + a) / MODULUS, (isn + b) / MODULUS;
    assert (Wire(isn, b) - Wire(isn, a)) == (b - a) - (k - j) * MODULUS;
  }

  /* ------------------------------------------------------------------ */
  /* Overtaken pieces.                                                    */
  /* ------------------------------------------------------------------ */

  /** Positions behind, by less than the sequence space, have other numbers. */
  lemma BehindDiffers(q: int, next: int)
    requires q < next < q + MODULUS
    ensures !Same(q, next)
  {
  }

  lemma {:induction false} PassedStays(pieces: seq<Piece>, next: nat, q: Piece)
    requires q in pieces && q.pos < next && GatherOnce(pieces, next).next < q.pos + MODULUS
    ensures q in GatherOnce(pieces, next).kept
  {
    hide Same;
    BehindDiffers(q.pos, next);
    if pieces[0] != q {
      PassedStays(pieces[1..], if Same(pieces[0].pos, next) then next + pieces[0].len else next, q);
    }
  }

  lemma {:induction false} GatherLeaves(pieces: seq<Piece>, next: nat, q: Piece)
    requires q in pieces && q.pos < next && Gather(pieces, next).next < q.pos + MODULUS
    ensures q in Gather(pieces, next).kept
    decreases |pieces|
  {
    hide GatherOnce;
    var first := GatherOnce(pieces, next);
    PassedStays(pieces, next, q);
    if first.taken != [] {
      GatherLeaves(first.kept, first.next, q);
    }
  }

  /** `q` has been passed; it still waits unless the numbers have come round to it. */
  predicate Overtaken(t: Tagged, q: Piece) {
    q.pos < t.next && (t.next < q.pos + MODULUS ==> q in t.pieces)
  }

  /** An arrival that reaches past the start of a waiting piece overtakes it. */
  lemma Overtakes(isn: uint32, t: Tagged, p: Piece, q: Piece, maxGaps: int)
    requires q in t.pieces && p.pos == t.next && q.pos < p.End()
    ensures Overtaken(Accept(isn, t, p, maxGaps), q)
  {
    if Gather(t.pieces, p.End()).next < q.pos + MODULUS {
      GatherLeaves(t.pieces, p.End(), q);
    }
  }

  lemma OvertakenStep(isn: uint32, t: Tagged, p: Piece, q: Piece, maxGaps: int)
    requires Overtaken(t, q)
    ensures Overtaken(Accept(isn, t, p, maxGaps), q)
  {
    if p.pos != t.next {
      PlaceKeeps(isn, t.pieces, p, q);
    } else if Gather(t.pieces, p.End()).next < q.pos + MODULUS {
      GatherLeaves(t.pieces, p.End(), q);
    }
  }

  /** Whatever comes, it takes up a slot of the buffer until the numbers have come round to it. */
  lemma {:induction false} OvertakenStays(isn: uint32, arrivals: seq<Piece>, more: seq<Piece>, q: Piece, maxGaps: int)
    requires Overtaken(TaggedRun(isn, arrivals, maxGaps), q)
    ensures Overtaken(TaggedRun(isn, arrivals + more, maxGaps), q)
    decreases |more|
  {
    hide Accept, Overtaken;
    if more == [] {
      assert arrivals + more == arrivals;
    } else {
      var front, last := more[..|more| - 1], more[|more| - 1];
      assert (arrivals + more)[..|arrivals + more| - 1] == arrivals + front;
      OvertakenStays(isn, arrivals, front, q, maxGaps);
      OvertakenStep(isn, TaggedRun(isn, arrivals + front, maxGaps), last, q, maxGaps);
    }
  }

  /* Going round the sequence space with one piece overtaken. */

  lemma {:induction false} TilesLast(out: seq<Piece>, at: nat, end: nat)
    requires Tiles(out, at, end) && out != []
    ensures var last := out[|out| - 1]; Tiles(out[..|out| - 1], at, last.pos) && last.End() == end
  {
    if |out| > 1 {
      TilesLast(out[1..], out[0].End(), end);
      assert out[1..][..|out| - 2] == out[..|out| - 1][1..];
    }
  }

  /** An arrival in order where the overtaken piece has no part yet. */
  lemma AcceptOnward(isn: uint32, t: Tagged, p: Piece, q: Piece, maxGaps: int)
    requires t.pieces == [q] && p.pos == t.next && q.pos < p.End() < q.pos + MODULUS
    ensures Accept(isn, t, p, maxGaps) == Tagged(p.End(), [q], t.out + [p])
  {
    BehindDiffers(q.pos, p.End());
    hide Same;
    assert GatherOnce([q], p.End()) == Gathered([], [q], p.End());
    assert [p] + [] == [p];
  }

  /** An arrival in order that ends where its number has come round. */
  lemma AcceptRound(isn: uint32, t: Tagged, p: Piece, q: Piece, maxGaps: int)
    requires t.pieces == [q] && p.pos == t.next && p.End() == q.pos + MODULUS
    ensures Accept(isn, t, p, maxGaps).out == t.out + [p] + [q]
  {
    var n := p.End();
    assert Same(q.pos, n);
    assert GatherOnce([], n + q.len) == Gathered([], [], n + q.len);
    assert GatherOnce([q], n) == Gathered([q], [], n + q.len);
    assert Gather([], n + q.len) == Gathered([], [], n + q.len);
    assert Gather([q], n).taken == [q];
    assert t.out + ([p] + [q]) == t.out + [p] + [q];
  }

  /** After `arrivals` only `q` waits, overtaken, and `cuts` are further pieces in order up to `end`. */
  predicate Onward(isn: uint32, arrivals: seq<Piece>, cuts: seq<Piece>, end: nat, q: Piece, size: nat, maxGaps: int) {
    var t := TaggedRun(isn, arrivals, maxGaps);
    && ArrivesRun(isn, arrivals, size, maxGaps) && t.pieces == [q] && q.pos < t.next
    && Inside(cuts, size) && Tiles(cuts, t.next, end)
  }

  lemma {:induction false} RunOnward(isn: uint32, arrivals: seq<Piece>, cuts: seq<Piece>, end: nat, q: Piece, size: nat,
                                     maxGaps: int)
    requires Onward(isn, arrivals, cuts, end, q, size, maxGaps) && end < q.pos + MODULUS
    ensures ArrivesRun(isn, arrivals + cuts, size, maxGaps)
    ensures TaggedRun(isn, arrivals + cuts, maxGaps) == Tagged(end, [q], TaggedRun(isn, arrivals, maxGaps).out + cuts)
    decreases |cuts|
  {
    hide Accept;
    var t := TaggedRun(isn, arrivals, maxGaps);
    if cuts == [] {
      assert arrivals + cuts == arrivals && t.out + cuts == t.out;
    } else {
      var front, last := cuts[..|cuts| - 1], cuts[|cuts| - 1];
      assert (arrivals + cuts)[..|arrivals + cuts| - 1] == arrivals + front;
      TilesLast(cuts, t.next, end);
      RunOnward(isn, arrivals, front, last.pos, q, size, maxGaps);
      TilesForward(front, t.next, last.pos);
      AcceptOnward(isn, TaggedRun(isn, arrivals + front, maxGaps), last, q, maxGaps);
      assert t.out + front + [last] == t.out + cuts;
    }
  }

  lemma {:induction false} TilesForward(out: seq<Piece>, at: nat, end: nat)
    requires Tiles(out, at, end)
    ensures at <= end
  {
    if out != [] {
      TilesForward(out[1..], out[0].End(), end);
    }
  }

  /** All the way round: the last piece in order is followed by the one that was overtaken. */
  lemma RunRound(isn: uint32, arrivals: seq<Piece>, cuts: seq<Piece>, q: Piece, size: nat, maxGaps: int)
    requires Onward(isn, arrivals, cuts, q.pos + MODULUS, q, size, maxGaps) && cuts != []
    ensures ArrivesRun(isn, arrivals + cuts, size, maxGaps)
    ensures TaggedRun(isn, arrivals + cuts, maxGaps).out == TaggedRun(isn, arrivals, maxGaps).out + cuts + [q]
  {
    hide Accept;
    var t := TaggedRun(isn, arrivals, maxGaps);
    var front, last := cuts[..|cuts| - 1], cuts[|cuts| - 1];
    assert (arrivals + cuts)[..|arrivals + cuts| - 1] == arrivals + front;
    TilesLast(cuts, t.next, q.pos + MODULUS);
    RunOnward(isn, arrivals, front, last.pos, q, size, maxGaps);
    AcceptRound(isn, TaggedRun(isn, arrivals + front, maxGaps), last, q, maxGaps);
    assert t.out + front + [last] == t.out + cuts;
  }

  /**
   After any run in which one piece was overtaken and alone waits: however the stream is cut and
   sent on in order, once the numbers have come round to that piece its bytes follow on the stream.
   */
  lemma StaleBytesReturn(isn: uint32, stream: seq<byte>, arrivals: seq<Piece>, cuts: seq<Piece>, q: Piece, maxGaps: nat)
    requires Onward(isn, arrivals, cuts, q.pos + MODULUS, q, |stream|, maxGaps) && cuts != []
    requires CleanRun(isn, arrivals, maxGaps)
    ensures ArrivesRun(isn, arrivals + cuts, |stream|, maxGaps) && Inside(arrivals + cuts, |stream|)
    ensures q.End() <= |stream| && q.pos + MODULUS <= |stream|
    ensures Run(isn, stream, arrivals + cuts, maxGaps).delivered == stream[..q.pos + MODULUS] + stream[q.pos..q.End()]
  {
    hide Run, ArrivesRun, TaggedRun;
    var t, u := TaggedRun(isn, arrivals, maxGaps), TaggedRun(isn, arrivals + cuts, maxGaps);
    RunRound(isn, arrivals, cuts, q, |stream|, maxGaps);
    RunMirrors(isn, stream, arrivals + cuts, maxGaps);
    RunHeld(isn, stream, arrivals, maxGaps);
    var out := t.out + cuts;
    TilesJoin(t.out, cuts, 0, t.next, q.pos + MODULUS);
    TilesGive(stream, out, 0, q.pos + MODULUS);
    SlicesJoin(stream, out, [q]);
    FlattenJoin(Slices(stream, out), Slices(stream, [q]));
    assert Slices(stream, [q]) == [Slice(stream, q)] + Slices(stream, []);
    FlattenCons(Slice(stream, q), Slices(stream, []));
  }

  /** No piece is longer than `limit`. */
  predicate Short(pieces: seq<Piece>, limit: nat) {
    forall i :: 0 <= i < |pieces| ==> pieces[i].len <= limit
  }

  /** The positions from `at` to `end` in pieces of at most `limit` bytes. */
  function Cut(at: nat, end: nat, limit: nat): (r: seq<Piece>)
    requires 0 < limit && at <= end
    ensures Tiles(r, at, end) && Inside(r, end) && Short(r, limit)
    decreases end - at
  {
    if at == end then []
    else
      var len := if end - at < limit then end - at else limit;
      [Piece(at, len)] + Cut(at + len, end, limit)
  }

  /** A piece that waits, and one that overtakes it. */
  lemma OvertakenAlone(isn: uint32, q: Piece, first: Piece, size: nat, maxGaps: nat)
    requires maxGaps > 0 && 0 < q.pos < HALF && 0 < q.len && q.End() <= size
    requires first.pos == 0 && q.pos < first.End() < q.pos + MODULUS && first.End() <= size
    ensures ArrivesRun(isn, [q, first], size, maxGaps)
    ensures TaggedRun(isn, [q, first], maxGaps) == Tagged(first.End(), [q], [first]) && CleanRun(isn, [q, first], maxGaps)
  {
    assert [q][..0] == [] && [q, first][..1] == [q];
    assert TaggedRun(isn, [], maxGaps) == Tagged(0, [], []);
    assert TaggedRun(isn, [q], maxGaps) == Tagged(0, [q], []);
    assert ArrivesRun(isn, [], size, maxGaps);
    assert ArrivesRun(isn, [q], size, maxGaps);
    assert [first][1..] == [] && Tiles([], first.End(), first.End());
    hide Accept;
    AcceptOnward(isn, Tagged(0, [q], []), first, q, maxGaps);
  }

  /** So the limit on segments does not matter: from two bytes on there is a run that ends with a stale byte. */
  lemma EverySegmentSize(isn: uint32, stream: seq<byte>, limit: nat, maxGaps: nat) returns (arrivals: seq<Piece>)
    requires limit >= 2 && |stream| > MODULUS && maxGaps > 0
    ensures Short(arrivals, limit) && ArrivesRun(isn, arrivals, |stream|, maxGaps) && Inside(arrivals, |stream|)
    ensures Run(isn, stream, arrivals, maxGaps).delivered == stream[..MODULUS + 1] + [stream[1]]
  {
    hide Run, ArrivesRun, TaggedRun, Cut;
    var q, first, cuts := Piece(1, 1), Piece(0, 2), Cut(2, MODULUS + 1, limit);
    OvertakenAlone(isn, q, first, |stream|, maxGaps);
    arrivals := [q, first] + cuts;
    StaleBytesReturn(isn, stream, [q, first], cuts, q, maxGaps);
  }

  /* ------------------------------------------------------------------ */
  /* Runs in which nothing is overtaken.                                  */
  /* ------------------------------------------------------------------ */

  /** All that waits is sorted, disjoint, beyond the expected position and within 2^31 of it. */
  predicate Ahead(t: Tagged, size: nat, maxGaps: int) {
    Sound(t, size, maxGaps) && Orderly(t.next, t.pieces, size) && Within(t.next, t.pieces)
  }

  /** An arrival that ends within 2^31 and, if it is the one expected, before the next piece that waits. */
  predicate Clear(t: Tagged, p: Piece) {
    && p.End() < t.next + HALF
    && (p.pos == t.next ==> t.pieces == [] || p.End() <= t.pieces[0].pos)
  }

  lemma {:induction false} CollectAhead(next: nat, pieces: seq<Piece>, size: nat)
    requires Orderly(next, pieces, size)
    ensures var r := IdealCollect(next, pieces); Orderly(r.next, r.kept, size)
    decreases |pieces|
  {
    if pieces != [] {
      if pieces[0].pos == next {
        CollectAhead(pieces[0].End(), pieces[1..], size);
      } else {
        FurtherOn(next, pieces[0].End(), pieces[1..], size);
        IdealCollectIdle(next, pieces);
      }
    }
  }

  lemma {:induction false} FurtherOn(next: nat, lo: nat, pieces: seq<Piece>, size: nat)
    requires Orderly(lo, pieces, size) && next < lo
    ensures Waiting(next, pieces)
    decreases |pieces|
  {
    if pieces != [] {
      FurtherOn(next, pieces[0].End(), pieces[1..], size);
    }
  }

  lemma {:induction false} WithinLater(base: int, later: nat, pieces: seq<Piece>, size: nat)
    requires Within(base, pieces) && base <= later && Orderly(later, pieces, size)
    ensures Within(later, pieces)
    decreases |pieces|
  {
    if pieces != [] {
      LaterStill(later, pieces[0].End(), pieces[1..], size);
      WithinLater(base, later, pieces[1..], size);
    }
  }

  lemma LaterStill(lo: nat, lo': nat, pieces: seq<Piece>, size: nat)
    requires Orderly(lo', pieces, size) && lo <= lo'
    ensures Orderly(lo, pieces, size)
  {
  }

  lemma {:induction false} PlaceWithin(base: int, pieces: seq<Piece>, p: Piece)
    requires Within(base, pieces) && base <= p.pos && p.End() < base + HALF
    ensures Within(base, IdealPlace(pieces, p))
  {
    if pieces == [] {
    } else if p.pos < pieces[0].pos {
      assert ([p] + pieces)[1..] == pieces;
    } else {
      PlaceWithin(base, pieces[1..], p);
      assert IdealPlace(pieces, p)[1..] == IdealPlace(pieces[1..], p);
    }
  }

  lemma ClearInOrder(t: Tagged, p: Piece, size: nat, maxGaps: int)
    requires Ahead(t, size, maxGaps) && Arrives(t, p, size) && Clear(t, p) && p.pos == t.next
    ensures Ahead(IdealReceive(t, p, maxGaps), size, maxGaps)
  {
    IdealReceiveSound(t, p, size, maxGaps);
    CollectAhead(p.End(), t.pieces, size);
    CollectStaysWithin(t.next, p.End(), t.pieces);
    var r := IdealCollect(p.End(), t.pieces);
    hide IdealCollect, Orderly, Within;
    WithinLater(t.next, r.next, r.kept, size);
  }

  lemma ClearKeepsAhead(isn: uint32, t: Tagged, p: Piece, size: nat, maxGaps: int)
    requires Ahead(t, size, maxGaps) && Arrives(t, p, size) && Clear(t, p)
    ensures Ahead(Accept(isn, t, p, maxGaps), size, maxGaps)
  {
    if p.pos >= t.next {
      assert InWindow(t.next, t, p);
      AcceptIsIdeal(isn, t, p, size, maxGaps);
      if p.pos == t.next {
        ClearInOrder(t, p, size, maxGaps);
      } else if Apart(t.pieces, p) {
        IdealPlaceKeepsOrder(t.next, t.pieces, p, size);
        PlaceWithin(t.next, t.pieces, p);
      }
    }
  }

  predicate ClearRun(isn: uint32, arrivals: seq<Piece>, maxGaps: int) {
    arrivals == [] ||
    (var front := arrivals[..|arrivals| - 1];
     Clear(TaggedRun(isn, front, maxGaps), arrivals[|arrivals| - 1]) && ClearRun(isn, front, maxGaps))
  }

  /**
   However long the stream: when no expected segment reaches into one that waits, nothing is ever
   mistaken, and all that waits is sorted, disjoint, ahead of the expected position and within the
   gap limit.
   */
  lemma {:induction false} ClearRunsStayAhead(isn: uint32, arrivals: seq<Piece>, size: nat, maxGaps: nat)
    requires ArrivesRun(isn, arrivals, size, maxGaps) && ClearRun(isn, arrivals, maxGaps)
    ensures Ahead(TaggedRun(isn, arrivals, maxGaps), size, maxGaps) && CleanRun(isn, arrivals, maxGaps)
  {
    hide Accept, Arrives, Clear;
    if arrivals == [] {
      AheadAtFirst(size, maxGaps);
    } else {
      var front, p := arrivals[..|arrivals| - 1], arrivals[|arrivals| - 1];
      ClearRunsStayAhead(isn, front, size, maxGaps);
      ClearKeepsAhead(isn, TaggedRun(isn, front, maxGaps), p, size, maxGaps);
    }
  }

  lemma AheadAtFirst(size: nat, maxGaps: nat)
    ensures Ahead(Tagged(0, [], []), size, maxGaps)
  {
  }

  /* A peer that always cuts the stream in the same places. */

  /** Any two arrivals are the same piece or have no byte in common. */
  predicate SameCuts(arrivals: seq<Piece>) {
    forall i, j :: 0 <= i < |arrivals| && 0 <= j < |arrivals| ==> arrivals[i] == arrivals[j] || Disjoint(arrivals[i], arrivals[j])
  }

  predicate EndsNear(isn: uint32, arrivals: seq<Piece>, maxGaps: int) {
    arrivals == [] ||
    (var front := arrivals[..|arrivals| - 1];
     arrivals[|arrivals| - 1].End() < TaggedRun(isn, front, maxGaps).next + HALF && EndsNear(isn, front, maxGaps))
  }

  /** Such a peer never overtakes what waits. */
  lemma {:induction false} SameCutsAreClear(isn: uint32, arrivals: seq<Piece>, size: nat, maxGaps: nat)
    requires ArrivesRun(isn, arrivals, size, maxGaps) && SameCuts(arrivals) && EndsNear(isn, arrivals, maxGaps)
    ensures ClearRun(isn, arrivals, maxGaps)
  {
    hide Accept, Arrives;
    if arrivals != [] {
      var front, p := arrivals[..|arrivals| - 1], arrivals[|arrivals| - 1];
      SameCutsAreClear(isn, front, size, maxGaps);
      ClearRunsStayAhead(isn, front, size, maxGaps);
      var t := TaggedRun(isn, front, maxGaps);
      if p.pos == t.next && t.pieces != [] {
        HeldArrived(isn, front, maxGaps, t.pieces[0]);
        assert t.pieces[0] in arrivals && p in arrivals;
      }
    }
  }
}
