/**
 What a receiver hands over in whole runs: segments are slices of one stream, arriving in any
 order, each with a sequence number near the one expected.

 `Tagged` remembers which piece of the stream each segment is, those that wait and those that
 were handed over. Collection compares 32-bit numbers, so it can mistake a piece that lies a
 multiple of 2^32 behind for the piece that is due.
 */
module TcpStream {
  import opened MachineTypes
  import opened TcpSequence
  import opened TcpReceive

  /** How many bytes were handed over, which pieces wait, and which pieces were handed over, in order. */
  datatype Tagged = Tagged(next: nat, pieces: seq<Piece>, out: seq<Piece>)

  predicate Inside(pieces: seq<Piece>, size: nat) {
    forall i :: 0 <= i < |pieces| ==> 0 < pieces[i].len && pieces[i].End() <= size
  }

  function Slice(stream: seq<byte>, p: Piece): (r: seq<byte>)
    requires p.End() <= |stream|
    ensures |r| == p.len
  {
    stream[p.pos..p.End()]
  }

  function Images(isn: uint32, stream: seq<byte>, pieces: seq<Piece>): (r: seq<Segment>)
    requires Inside(pieces, |stream|)
    ensures |r| == |pieces|
  {
    if pieces == [] then [] else [SegmentOf(isn, stream, pieces[0])] + Images(isn, stream, pieces[1..])
  }

  function Slices(stream: seq<byte>, pieces: seq<Piece>): (r: seq<seq<byte>>)
    requires Inside(pieces, |stream|)
    ensures |r| == |pieces|
  {
    if pieces == [] then [] else [Slice(stream, pieces[0])] + Slices(stream, pieces[1..])
  }

  /** The connection that a tagged receiver stands for. */
  function Image(isn: uint32, stream: seq<byte>, t: Tagged): Conn
    requires Inside(t.pieces, |stream|) && Inside(t.out, |stream|)
  {
    Conn(Wire(isn, t.next), Images(isn, stream, t.pieces), Flatten(Slices(stream, t.out)))
  }

  /* ------------------------------------------------------------------ */
  /* Receiving, with pieces in place of segments.                         */
  /* ------------------------------------------------------------------ */

  /** Two positions with the same number on the wire. */
  predicate Same(a: int, b: int) { (a - b) % MODULUS == 0 }

  lemma SameWire(isn: uint32, a: int, b: int)
    ensures Wire(isn, a) == Wire(isn, b) <==> Same(a, b)
  {
    var j, k := (isn + a) / MODULUS, (isn + b) / MODULUS;
    assert isn + a == j * MODULUS + Wire(isn, a) && isn + b == k * MODULUS + Wire(isn, b);
    if Wire(isn, a) == Wire(isn, b) {
      assert a - b == (j - k) * MODULUS;
    }
  }

  predicate WireOverlaps(isn: uint32, pieces: seq<Piece>, p: Piece) {
    pieces != [] &&
    (SeqOverlap(Wire(isn, p.pos), Wire(isn, p.End()), Wire(isn, pieces[0].pos), Wire(isn, pieces[0].End()))
     || WireOverlaps(isn, pieces[1..], p))
  }

  function WirePlace(isn: uint32, pieces: seq<Piece>, p: Piece): seq<Piece> {
    if pieces == [] then [p]
    else if SeqLT(Wire(isn, p.pos), Wire(isn, pieces[0].pos)) then [p] + pieces
    else [pieces[0]] + WirePlace(isn, pieces[1..], p)
  }

  /** What is handed over, what stays, and the position reached. */
  datatype Gathered = Gathered(taken: seq<Piece>, kept: seq<Piece>, next: nat)

  /** One pass: whatever has the number of the position reached is handed over. */
  function GatherOnce(pieces: seq<Piece>, next: nat): (g: Gathered)
    ensures |g.taken| + |g.kept| == |pieces| && next <= g.next
  {
    if pieces == [] then Gathered([], [], next)
    else if Same(pieces[0].pos, next) then
      var g := GatherOnce(pieces[1..], next + pieces[0].len);
      g.(taken := [pieces[0]] + g.taken)
    else
      var g := GatherOnce(pieces[1..], next);
      g.(kept := [pieces[0]] + g.kept)
  }

  function Gather(pieces: seq<Piece>, next: nat): (g: Gathered)
    ensures |g.kept| <= |pieces| && next <= g.next
    decreases |pieces|
  {
    var first := GatherOnce(pieces, next);
    if first.taken == [] then first
    else
      var rest := Gather(first.kept, first.next);
      rest.(taken := first.taken + rest.taken)
  }

  function Accept(isn: uint32, t: Tagged, p: Piece, maxGaps: int): (u: Tagged)
    ensures t.next <= u.next
  {
    if p.pos == t.next then
      var g := Gather(t.pieces, p.End());
      Tagged(g.next, g.kept, t.out + ([p] + g.taken))
    else if p.pos > t.next && !WireOverlaps(isn, t.pieces, p) && |t.pieces| < maxGaps then
      t.(pieces := WirePlace(isn, t.pieces, p))
    else t
  }

  /* ------------------------------------------------------------------ */
  /* What collection hands over.                                          */
  /* ------------------------------------------------------------------ */

  /** Handed over at position `at`, `q` is the piece due or lies a multiple of 2^32 behind. */
  predicate Due(q: Piece, at: nat) {
    q.pos == at || (q.pos + MODULUS <= at && Same(q.pos, at))
  }

  /** Pieces handed over one after the other, from position `at` to `end`. */
  predicate Logged(out: seq<Piece>, at: nat, end: nat) {
    if out == [] then at == end else Due(out[0], at) && Logged(out[1..], at + out[0].len, end)
  }

  lemma {:induction false} LoggedJoin(a: seq<Piece>, b: seq<Piece>, at: nat, mid: nat, end: nat)
    requires Logged(a, at, mid) && Logged(b, mid, end)
    ensures Logged(a + b, at, end)
  {
    hide Due;
    if a == [] {
      assert a + b == b;
    } else {
      LoggedJoin(a[1..], b, at + a[0].len, mid, end);
      assert (a + b)[1..] == a[1..] + b;
    }
  }

  /** Nothing waits that lies 2^31 or more ahead. */
  predicate NotAhead(pieces: seq<Piece>, next: nat) {
    forall i :: 0 <= i < |pieces| ==> pieces[i].pos < next + HALF
  }

  /** What a collection from `next` hands over and keeps. */
  predicate Collected(g: Gathered, pieces: seq<Piece>, next: nat, size: nat) {
    && Inside(g.taken, size) && Inside(g.kept, size) && NotAhead(g.kept, g.next) && Logged(g.taken, next, g.next)
    && (forall q :: q in g.taken ==> q in pieces) && (forall q :: q in g.kept ==> q in pieces)
  }

  lemma {:induction false} GatherOnceCollects(pieces: seq<Piece>, next: nat, size: nat)
    requires Inside(pieces, size) && NotAhead(pieces, next)
    ensures Collected(GatherOnce(pieces, next), pieces, next, size)
  {
    if pieces != [] {
      var p, rest := pieces[0], pieces[1..];
      var next' := if Same(p.pos, next) then next + p.len else next;
      GatherOnceCollects(rest, next', size);
      var g := GatherOnce(rest, next');
      assert ([p] + g.taken)[1..] == g.taken;
    }
  }

  lemma {:induction false} GatherCollects(pieces: seq<Piece>, next: nat, size: nat)
    requires Inside(pieces, size) && NotAhead(pieces, next)
    ensures Collected(Gather(pieces, next), pieces, next, size)
    decreases |pieces|
  {
    hide GatherOnce, Logged;
    GatherOnceCollects(pieces, next, size);
    var first := GatherOnce(pieces, next);
    if first.taken != [] {
      GatherCollects(first.kept, first.next, size);
      var rest := Gather(first.kept, first.next);
      LoggedJoin(first.taken, rest.taken, next, first.next, rest.next);
    }
  }

  /* ------------------------------------------------------------------ */
  /* The receiver on segments is the receiver on pieces.                  */
  /* ------------------------------------------------------------------ */

  /** The sweep of the images is the image of the gathering. */
  predicate Mirrors(s: Sweep, g: Gathered, isn: uint32, stream: seq<byte>) {
    && Inside(g.taken, |stream|) && Inside(g.kept, |stream|)
    && s == Sweep(Slices(stream, g.taken), Images(isn, stream, g.kept), Wire(isn, g.next))
  }

  lemma {:induction false} SweepMirrors(isn: uint32, stream: seq<byte>, pieces: seq<Piece>, next: nat)
    requires Inside(pieces, |stream|)
    ensures Mirrors(SweepOnce(Images(isn, stream, pieces), Wire(isn, next)), GatherOnce(pieces, next), isn, stream)
  {
    hide Wire, Same, Mirrors, SweepOnce;
    if pieces == [] {
      NothingMirrors(isn, stream, next);
    } else {
      var p, rest := pieces[0], pieces[1..];
      var segs, seg := Images(isn, stream, rest), SegmentOf(isn, stream, p);
      SameWire(isn, p.pos, next);
      SweepFirst(seg, segs, Wire(isn, next));
      if Same(p.pos, next) {
        WireAdd(isn, p.pos, p.len);
        WireAdd(isn, next, p.len);
        SweepMirrors(isn, stream, rest, next + p.len);
        TakenMirrors(SweepOnce(segs, seg.end), GatherOnce(rest, next + p.len), isn, stream, p);
      } else {
        SweepMirrors(isn, stream, rest, next);
        KeptMirrors(SweepOnce(segs, Wire(isn, next)), GatherOnce(rest, next), isn, stream, p);
      }
    }
  }

  lemma NothingMirrors(isn: uint32, stream: seq<byte>, next: nat)
    ensures Mirrors(SweepOnce(Images(isn, stream, []), Wire(isn, next)), Gathered([], [], next), isn, stream)
  {
    assert Images(isn, stream, []) == [] && Slices(stream, []) == [];
  }

  lemma SweepFirst(seg: Segment, segs: seq<Segment>, next: uint32)
    ensures var r := SweepOnce(segs, if seg.start == next then seg.end else next);
            SweepOnce([seg] + segs, next) == if seg.start == next then r.(taken := [seg.payload] + r.taken)
                                             else r.(kept := [seg] + r.kept)
  {
    assert ([seg] + segs)[1..] == segs;
  }

  lemma TakenMirrors(s: Sweep, g: Gathered, isn: uint32, stream: seq<byte>, p: Piece)
    requires Mirrors(s, g, isn, stream) && 0 < p.len && p.End() <= |stream|
    ensures Mirrors(s.(taken := [Slice(stream, p)] + s.taken), g.(taken := [p] + g.taken), isn, stream)
  {
    SlicesFirst(stream, p, g.taken);
  }

  lemma KeptMirrors(s: Sweep, g: Gathered, isn: uint32, stream: seq<byte>, p: Piece)
    requires Mirrors(s, g, isn, stream) && 0 < p.len && p.End() <= |stream|
    ensures Mirrors(s.(kept := [SegmentOf(isn, stream, p)] + s.kept), g.(kept := [p] + g.kept), isn, stream)
  {
    ImagesFirst(isn, stream, p, g.kept);
  }

  lemma SlicesFirst(stream: seq<byte>, p: Piece, more: seq<Piece>)
    requires 0 < p.len && p.End() <= |stream| && Inside(more, |stream|)
    ensures Inside([p] + more, |stream|) && Slices(stream, [p] + more) == [Slice(stream, p)] + Slices(stream, more)
  {
    assert ([p] + more)[1..] == more;
  }

  lemma ImagesFirst(isn: uint32, stream: seq<byte>, p: Piece, more: seq<Piece>)
    requires 0 < p.len && p.End() <= |stream| && Inside(more, |stream|)
    ensures Inside([p] + more, |stream|)
    ensures Images(isn, stream, [p] + more) == [SegmentOf(isn, stream, p)] + Images(isn, stream, more)
  {
    assert ([p] + more)[1..] == more;
  }

  lemma {:induction false} SlicesJoin(stream: seq<byte>, a: seq<Piece>, b: seq<Piece>)
    requires Inside(a, |stream|) && Inside(b, |stream|)
    ensures Slices(stream, a + b) == Slices(stream, a) + Slices(stream, b)
  {
    if a == [] {
      assert a + b == b;
    } else {
      SlicesJoin(stream, a[1..], b);
      assert (a + b)[1..] == a[1..] + b;
    }
  }

  lemma {:induction false} CollectMirrors(isn: uint32, stream: seq<byte>, pieces: seq<Piece>, next: nat)
    requires Inside(pieces, |stream|)
    ensures Mirrors(Collect(Images(isn, stream, pieces), Wire(isn, next)), Gather(pieces, next), isn, stream)
    decreases |pieces|
  {
    hide Wire, SweepOnce, GatherOnce, Images, Slices;
    SweepMirrors(isn, stream, pieces, next);
    var first := GatherOnce(pieces, next);
    if first.taken != [] {
      CollectMirrors(isn, stream, first.kept, first.next);
      SlicesJoin(stream, first.taken, Gather(first.kept, first.next).taken);
    }
  }

  lemma {:induction false} PlaceMirrors(isn: uint32, stream: seq<byte>, pieces: seq<Piece>, p: Piece)
    requires Inside(pieces, |stream|) && 0 < p.len && p.End() <= |stream|
    ensures var r := WirePlace(isn, pieces, p);
            && Inside(r, |stream|) && |r| == |pieces| + 1
            && Place(Images(isn, stream, pieces), SegmentOf(isn, stream, p)) == Images(isn, stream, r)
  {
    hide Wire;
    if pieces == [] {
      assert Images(isn, stream, [p]) == [SegmentOf(isn, stream, p)];
    } else {
      var segs := Images(isn, stream, pieces);
      assert segs[1..] == Images(isn, stream, pieces[1..]);
      assert ([p] + pieces)[1..] == pieces;
      PlaceMirrors(isn, stream, pieces[1..], p);
      var rest := WirePlace(isn, pieces[1..], p);
      assert ([pieces[0]] + rest)[1..] == rest;
    }
  }

  lemma {:induction false} OverlapMirrors(isn: uint32, stream: seq<byte>, pieces: seq<Piece>, p: Piece)
    requires Inside(pieces, |stream|) && p.End() <= |stream|
    ensures OverlapsAny(Images(isn, stream, pieces), SegmentOf(isn, stream, p)) <==> WireOverlaps(isn, pieces, p)
  {
    hide Wire;
    if pieces != [] {
      OverlapMirrors(isn, stream, pieces[1..], p);
      assert Images(isn, stream, pieces)[1..] == Images(isn, stream, pieces[1..]);
    }
  }

  lemma {:induction false} FlattenJoin(a: seq<seq<byte>>, b: seq<seq<byte>>)
    ensures Flatten(a + b) == Flatten(a) + Flatten(b)
  {
    if a == [] {
      assert a + b == b;
    } else {
      FlattenJoin(a[1..], b);
      assert a + b == [a[0]] + (a[1..] + b);
      FlattenCons(a[0], a[1..] + b);
      Regroup(a[0], Flatten(a[1..]), Flatten(b));
    }
  }

  /* ------------------------------------------------------------------ */
  /* One arrival.                                                         */
  /* ------------------------------------------------------------------ */

  /** A non-empty slice of the stream whose number is within 2^31 of the one expected. */
  predicate Arrives(t: Tagged, p: Piece, size: nat) {
    0 < p.len && p.End() <= size && Near(p.pos, t.next)
  }

  /** What every tagged receiver satisfies. */
  predicate Held(t: Tagged, size: nat, maxGaps: int) {
    && Inside(t.pieces, size) && Inside(t.out, size) && |t.pieces| <= maxGaps
    && NotAhead(t.pieces, t.next) && Logged(t.out, 0, t.next)
  }

  lemma {:induction false} PlaceKeeps(isn: uint32, pieces: seq<Piece>, p: Piece, q: Piece)
    ensures q in WirePlace(isn, pieces, p) <==> q == p || q in pieces
  {
    if pieces != [] {
      PlaceKeeps(isn, pieces[1..], p, q);
    }
  }

  lemma AcceptHolds(isn: uint32, stream: seq<byte>, t: Tagged, p: Piece, maxGaps: int)
    requires Held(t, |stream|, maxGaps) && Arrives(t, p, |stream|)
    ensures Held(Accept(isn, t, p, maxGaps), |stream|, maxGaps)
  {
    hide Logged, Gather, WirePlace, WireOverlaps;
    if p.pos == t.next {
      var g := Gather(t.pieces, p.End());
      GatherCollects(t.pieces, p.End(), |stream|);
      LoggedFirst(p, g.taken, g.next);
      LoggedJoin(t.out, [p] + g.taken, 0, t.next, g.next);
    } else {
      PlaceMirrors(isn, stream, t.pieces, p);
      forall q {
        PlaceKeeps(isn, t.pieces, p, q);
      }
      PlacedNotAhead(t.pieces, WirePlace(isn, t.pieces, p), p, t.next);
    }
  }

  lemma LoggedFirst(p: Piece, more: seq<Piece>, end: nat)
    requires Logged(more, p.End(), end)
    ensures Logged([p] + more, p.pos, end)
  {
    assert ([p] + more)[1..] == more;
  }

  lemma PlacedNotAhead(pieces: seq<Piece>, placed: seq<Piece>, p: Piece, next: nat)
    requires NotAhead(pieces, next) && p.pos < next + HALF
    requires forall q :: q in placed ==> q == p || q in pieces
    ensures NotAhead(placed, next)
  {
    forall i | 0 <= i < |placed|
      ensures placed[i].pos < next + HALF
    {
      assert placed[i] in placed;
    }
  }

  /** An arrival out of order is kept or dropped, as the pieces say. */
  lemma OutOfOrder(isn: uint32, stream: seq<byte>, t: Tagged, p: Piece, maxGaps: int)
    requires Held(t, |stream|, maxGaps) && Arrives(t, p, |stream|) && p.pos != t.next
    ensures Held(Accept(isn, t, p, maxGaps), |stream|, maxGaps)
    ensures Receive(Image(isn, stream, t), SegmentOf(isn, stream, p), maxGaps)
         == Image(isn, stream, Accept(isn, t, p, maxGaps))
  {
    AcceptHolds(isn, stream, t, p, maxGaps);
    WireOrder(isn, p.pos, t.next);
    OverlapMirrors(isn, stream, t.pieces, p);
    PlaceMirrors(isn, stream, t.pieces, p);
    hide Wire, Images, Slices, Flatten, Held, Inside, Logged, WireOverlaps, WirePlace, OverlapsAny, Place;
  }

  /** An arrival in order hands over its own bytes and those of the pieces collected. */
  lemma InOrder(isn: uint32, stream: seq<byte>, t: Tagged, p: Piece, maxGaps: int)
    requires Held(t, |stream|, maxGaps) && Arrives(t, p, |stream|) && p.pos == t.next
    ensures Held(Accept(isn, t, p, maxGaps), |stream|, maxGaps)
    ensures Receive(Image(isn, stream, t), SegmentOf(isn, stream, p), maxGaps)
         == Image(isn, stream, Accept(isn, t, p, maxGaps))
  {
    AcceptHolds(isn, stream, t, p, maxGaps);
    WireAdd(isn, t.next, p.len);
    CollectMirrors(isn, stream, t.pieces, p.End());
    var g := Gather(t.pieces, p.End());
    SlicesFirst(stream, p, g.taken);
    SlicesJoin(stream, t.out, [p] + g.taken);
    FlattenJoin(Slices(stream, t.out), Slices(stream, [p] + g.taken));
    FlattenCons(Slice(stream, p), Slices(stream, g.taken));
    Regroup(Flatten(Slices(stream, t.out)), Slice(stream, p), Flatten(Slices(stream, g.taken)));
    hide Wire, Collect, Gather, Images, Slices, Flatten, Held, Inside, Logged;
  }

  /* ------------------------------------------------------------------ */
  /* Whole runs.                                                          */
  /* ------------------------------------------------------------------ */

  /** The connection after the segments of `arrivals` came in, in that order. */
  function Run(isn: uint32, stream: seq<byte>, arrivals: seq<Piece>, maxGaps: int): Conn
    requires Inside(arrivals, |stream|)
  {
    if arrivals == [] then Conn(isn, [], [])
    else
      var before := Run(isn, stream, arrivals[..|arrivals| - 1], maxGaps);
      Receive(before, SegmentOf(isn, stream, arrivals[|arrivals| - 1]), maxGaps)
  }

  function TaggedRun(isn: uint32, arrivals: seq<Piece>, maxGaps: int): Tagged {
    if arrivals == [] then Tagged(0, [], [])
    else Accept(isn, TaggedRun(isn, arrivals[..|arrivals| - 1], maxGaps), arrivals[|arrivals| - 1], maxGaps)
  }

  /** Every arrival is a slice of the stream and near what is expected when it comes. */
  predicate ArrivesRun(isn: uint32, arrivals: seq<Piece>, size: nat, maxGaps: int) {
    arrivals == [] ||
    (var front := arrivals[..|arrivals| - 1];
     Arrives(TaggedRun(isn, front, maxGaps), arrivals[|arrivals| - 1], size) && ArrivesRun(isn, front, size, maxGaps))
  }

  lemma {:induction false} ArrivalsInside(isn: uint32, arrivals: seq<Piece>, size: nat, maxGaps: int)
    requires ArrivesRun(isn, arrivals, size, maxGaps)
    ensures Inside(arrivals, size)
  {
    hide TaggedRun, Accept;
    if arrivals != [] {
      ArrivalsInside(isn, arrivals[..|arrivals| - 1], size, maxGaps);
    }
  }

  lemma {:induction false} RunHeld(isn: uint32, stream: seq<byte>, arrivals: seq<Piece>, maxGaps: nat)
    requires ArrivesRun(isn, arrivals, |stream|, maxGaps)
    ensures Held(TaggedRun(isn, arrivals, maxGaps), |stream|, maxGaps)
  {
    hide Accept, Arrives;
    if arrivals != [] {
      var front := arrivals[..|arrivals| - 1];
      RunHeld(isn, stream, front, maxGaps);
      AcceptHolds(isn, stream, TaggedRun(isn, front, maxGaps), arrivals[|arrivals| - 1], maxGaps);
    }
  }

  /**
   Whatever the order, overlap, repetition and loss of arrivals near the expected number: the
   receiver is the one on pieces. It has handed over as many bytes as it says, each piece at its
   own position or a multiple of 2^32 after it, and what waits are slices of the stream within the
   gap limit.
   */
  lemma {:induction false} RunMirrors(isn: uint32, stream: seq<byte>, arrivals: seq<Piece>, maxGaps: nat)
    requires ArrivesRun(isn, arrivals, |stream|, maxGaps)
    ensures Inside(arrivals, |stream|)
    ensures var t := TaggedRun(isn, arrivals, maxGaps);
            Held(t, |stream|, maxGaps) && Run(isn, stream, arrivals, maxGaps) == Image(isn, stream, t)
  {
    hide Accept, Receive, Arrives, Held;
    ArrivalsInside(isn, arrivals, |stream|, maxGaps);
    RunHeld(isn, stream, arrivals, maxGaps);
    if arrivals != [] {
      var front, p := arrivals[..|arrivals| - 1], arrivals[|arrivals| - 1];
      RunMirrors(isn, stream, front, maxGaps);
      var t := TaggedRun(isn, front, maxGaps);
      if p.pos == t.next {
        InOrder(isn, stream, t, p, maxGaps);
      } else {
        OutOfOrder(isn, stream, t, p, maxGaps);
      }
    }
  }

  /* ------------------------------------------------------------------ */
  /* When the stream handed over is the one sent.                         */
  /* ------------------------------------------------------------------ */

  /** The bytes of `q` are those of the stream at `at`. */
  predicate Fits(stream: seq<byte>, q: Piece, at: nat) {
    q.End() <= |stream| && at + q.len <= |stream| && stream[q.pos..q.End()] == stream[at..at + q.len]
  }

  /** Every piece handed over out of place has the bytes of the place it was handed over at. */
  predicate Harmless(stream: seq<byte>, out: seq<Piece>, at: nat) {
    out == [] || ((out[0].pos != at ==> Fits(stream, out[0], at)) && Harmless(stream, out[1..], at + out[0].len))
  }

  /** No piece is handed over out of place. */
  predicate Tiles(out: seq<Piece>, at: nat, end: nat) {
    if out == [] then at == end else out[0].pos == at && Tiles(out[1..], out[0].End(), end)
  }

  lemma {:induction false} HarmlessIff(stream: seq<byte>, out: seq<Piece>, at: nat)
    requires Inside(out, |stream|) && at <= |stream|
    ensures Flatten(Slices(stream, out)) <= stream[at..] <==> Harmless(stream, out, at)
  {
    if out != [] {
      var q := out[0];
      var first, rest := Slice(stream, q), Flatten(Slices(stream, out[1..]));
      FlattenCons(first, Slices(stream, out[1..]));
      assert Flatten(Slices(stream, out)) == first + rest;
      PrefixSplit(first, rest, stream[at..]);
      FitsIff(stream, q, at);
      if Fits(stream, q, at) {
        assert stream[at..][q.len..] == stream[at + q.len..];
        HarmlessIff(stream, out[1..], at + q.len);
      }
    }
  }

  lemma FitsIff(stream: seq<byte>, q: Piece, at: nat)
    requires q.End() <= |stream| && at <= |stream|
    ensures Slice(stream, q) <= stream[at..] <==> Fits(stream, q, at)
  {
    if at + q.len <= |stream| {
      assert stream[at..][..q.len] == stream[at..at + q.len];
    }
  }

  lemma PrefixSplit(a: seq<byte>, b: seq<byte>, s: seq<byte>)
    ensures a + b <= s <==> a <= s && b <= s[|a|..]
  {
    if a + b <= s {
      assert a == (a + b)[..|a|] == s[..|a|];
      assert b == (a + b)[|a|..] == s[|a|..][..|b|];
    }
    if a <= s && b <= s[|a|..] {
      assert s == s[..|a|] + s[|a|..];
    }
  }

  /**
   What has been handed over is the beginning of the stream exactly when every piece that was
   mistaken for another had the bytes that were due.
   */
  lemma PrefixIff(isn: uint32, stream: seq<byte>, arrivals: seq<Piece>, maxGaps: nat)
    requires ArrivesRun(isn, arrivals, |stream|, maxGaps)
    ensures Inside(arrivals, |stream|)
    ensures Run(isn, stream, arrivals, maxGaps).delivered <= stream
       <==> Harmless(stream, TaggedRun(isn, arrivals, maxGaps).out, 0)
  {
    hide Run, TaggedRun, Harmless, ArrivesRun;
    RunMirrors(isn, stream, arrivals, maxGaps);
    HarmlessIff(stream, TaggedRun(isn, arrivals, maxGaps).out, 0);
    assert stream[0..] == stream;
  }

  /** Nothing was mistaken so far. */
  predicate CleanRun(isn: uint32, arrivals: seq<Piece>, maxGaps: int) {
    var t := TaggedRun(isn, arrivals, maxGaps);
    Tiles(t.out, 0, t.next)
  }

  lemma {:induction false} TilesGive(stream: seq<byte>, out: seq<Piece>, at: nat, end: nat)
    requires Inside(out, |stream|) && Tiles(out, at, end) && at <= |stream|
    ensures at <= end <= |stream| && Flatten(Slices(stream, out)) == stream[at..end]
  {
    if out != [] {
      var mid := out[0].End();
      TilesGive(stream, out[1..], mid, end);
      FlattenCons(Slice(stream, out[0]), Slices(stream, out[1..]));
      SliceJoin(stream, at, mid, end);
    }
  }

  /** As long as nothing was mistaken, what has been handed over is the stream up to the expected position. */
  lemma DeliveredIsPrefix(isn: uint32, stream: seq<byte>, arrivals: seq<Piece>, maxGaps: nat)
    requires ArrivesRun(isn, arrivals, |stream|, maxGaps) && CleanRun(isn, arrivals, maxGaps)
    ensures Inside(arrivals, |stream|)
    ensures var t, c := TaggedRun(isn, arrivals, maxGaps), Run(isn, stream, arrivals, maxGaps);
            && Held(t, |stream|, maxGaps) && c == Image(isn, stream, t)
            && t.next <= |stream| && c.delivered == stream[..t.next] && |c.segs| <= maxGaps
  {
    hide Run, TaggedRun, ArrivesRun;
    RunMirrors(isn, stream, arrivals, maxGaps);
    var t := TaggedRun(isn, arrivals, maxGaps);
    TilesGive(stream, t.out, 0, t.next);
  }

  /** `out` goes on as the stream to `m`, and then with the bytes of `q`. */
  predicate GoesWrong(stream: seq<byte>, out: seq<byte>, at: nat, m: nat, q: Piece) {
    && at <= m <= |stream| && q.End() <= |stream| && q.pos + MODULUS <= m && Same(q.pos, m)
    && stream[at..m] + stream[q.pos..q.End()] <= out
  }

  lemma {:induction false} FirstMistake(stream: seq<byte>, out: seq<Piece>, at: nat, end: nat) returns (m: nat, q: Piece)
    requires Inside(out, |stream|) && Logged(out, at, end) && !Tiles(out, at, end) && at <= |stream|
    ensures q in out && GoesWrong(stream, Flatten(Slices(stream, out)), at, m, q)
  {
    var p := out[0];
    var first, rest := Slice(stream, p), Flatten(Slices(stream, out[1..]));
    FlattenCons(first, Slices(stream, out[1..]));
    if p.pos == at {
      m, q := FirstMistake(stream, out[1..], p.End(), end);
      SliceJoin(stream, at, p.End(), m);
      Regroup(first, stream[p.End()..m], stream[q.pos..q.End()]);
    } else {
      m, q := at, p;
      assert stream[at..m] + first == first;
    }
  }

  /** Once a piece was mistaken: the bytes of a piece that lies a multiple of 2^32 behind follow on the stream. */
  lemma MistakeShows(isn: uint32, stream: seq<byte>, arrivals: seq<Piece>, maxGaps: nat) returns (m: nat, q: Piece)
    requires ArrivesRun(isn, arrivals, |stream|, maxGaps) && !CleanRun(isn, arrivals, maxGaps)
    ensures Inside(arrivals, |stream|) && q in arrivals
    ensures GoesWrong(stream, Run(isn, stream, arrivals, maxGaps).delivered, 0, m, q)
  {
    hide Run, TaggedRun, ArrivesRun, GoesWrong;
    RunMirrors(isn, stream, arrivals, maxGaps);
    var t := TaggedRun(isn, arrivals, maxGaps);
    m, q := FirstMistake(stream, t.out, 0, t.next);
    HeldArrived(isn, arrivals, maxGaps, q);
  }

  lemma {:induction false} KeptFrom(pieces: seq<Piece>, next: nat, q: Piece)
    requires var g := GatherOnce(pieces, next); q in g.kept || q in g.taken
    ensures q in pieces
  {
    hide Same;
    if q != pieces[0] {
      KeptFrom(pieces[1..], if Same(pieces[0].pos, next) then next + pieces[0].len else next, q);
    }
  }

  lemma {:induction false} GatheredFrom(pieces: seq<Piece>, next: nat, q: Piece)
    requires var g := Gather(pieces, next); q in g.kept || q in g.taken
    ensures q in pieces
    decreases |pieces|
  {
    hide GatherOnce;
    var first := GatherOnce(pieces, next);
    if q !in first.taken && first.taken != [] {
      GatheredFrom(first.kept, first.next, q);
    }
    KeptFrom(pieces, next, q);
  }

  /** What waits or was handed over has arrived. */
  lemma {:induction false} HeldArrived(isn: uint32, arrivals: seq<Piece>, maxGaps: int, q: Piece)
    requires var t := TaggedRun(isn, arrivals, maxGaps); q in t.pieces || q in t.out
    ensures q in arrivals
  {
    hide Gather, WirePlace, WireOverlaps;
    if arrivals != [] {
      var front, p := arrivals[..|arrivals| - 1], arrivals[|arrivals| - 1];
      var t := TaggedRun(isn, front, maxGaps);
      if q != p {
        if p.pos != t.next {
          PlaceKeeps(isn, t.pieces, p, q);
        } else if q !in t.out {
          GatheredFrom(t.pieces, p.End(), q);
        }
        HeldArrived(isn, front, maxGaps, q);
      }
    }
  }

  /** No piece has the bytes of a place a multiple of 2^32 after it. */
  ghost predicate Telling(stream: seq<byte>, pieces: seq<Piece>) {
    forall q: Piece, m: nat :: q in pieces && q.pos + MODULUS <= m && Same(q.pos, m) ==> !Fits(stream, q, m)
  }

  lemma {:induction false} TellingTiles(stream: seq<byte>, out: seq<Piece>, at: nat, end: nat)
    requires Logged(out, at, end) && Telling(stream, out)
    ensures Harmless(stream, out, at) <==> Tiles(out, at, end)
  {
    hide Same, Fits;
    if out != [] {
      assert out[0] in out;
      TellingTiles(stream, out[1..], at + out[0].len, end);
    }
  }

  /** If the bytes tell the pieces apart, the stream is handed over as it was sent exactly when nothing was mistaken. */
  lemma CleanIff(isn: uint32, stream: seq<byte>, arrivals: seq<Piece>, maxGaps: nat)
    requires ArrivesRun(isn, arrivals, |stream|, maxGaps) && Telling(stream, arrivals)
    ensures Inside(arrivals, |stream|)
    ensures Run(isn, stream, arrivals, maxGaps).delivered <= stream <==> CleanRun(isn, arrivals, maxGaps)
  {
    hide Run, TaggedRun, ArrivesRun, Same, Fits;
    PrefixIff(isn, stream, arrivals, maxGaps);
    RunMirrors(isn, stream, arrivals, maxGaps);
    var t := TaggedRun(isn, arrivals, maxGaps);
    forall q | q in t.out
      ensures q in arrivals
    {
      HeldArrived(isn, arrivals, maxGaps, q);
    }
    TellingTiles(stream, t.out, 0, t.next);
  }

  /* Streams shorter than the sequence space. */

  lemma {:induction false} ShortTiles(out: seq<Piece>, at: nat, end: nat, size: nat)
    requires Inside(out, size) && Logged(out, at, end) && at <= size < MODULUS
    ensures Tiles(out, at, end)
  {
    if out != [] {
      ShortTiles(out[1..], out[0].End(), end, size);
    }
  }

  /** In a stream shorter than 4 GiB nothing is ever mistaken. */
  lemma ShortStream(isn: uint32, stream: seq<byte>, arrivals: seq<Piece>, maxGaps: nat)
    requires ArrivesRun(isn, arrivals, |stream|, maxGaps) && |stream| < MODULUS
    ensures CleanRun(isn, arrivals, maxGaps)
  {
    hide TaggedRun, ArrivesRun;
    RunHeld(isn, stream, arrivals, maxGaps);
    var t := TaggedRun(isn, arrivals, maxGaps);
    ShortTiles(t.out, 0, t.next, |stream|);
  }
}
