/**
 Nothing is lost: what a receiver hands over reaches exactly as far as the arrivals cover the
 stream from its beginning, when the peer cuts the stream in the same places each time and the
 gap limit is not met.
 */
module TcpComplete {
  import opened MachineTypes
  import opened TcpSequence
  import opened TcpReceive
  import opened TcpStream
  import opened TcpOrder

  /** No arrival out of order found the buffer full. */
  predicate RoomRun(isn: uint32, arrivals: seq<Piece>, maxGaps: int) {
    arrivals == [] ||
    (var front := arrivals[..|arrivals| - 1];
     var t := TaggedRun(isn, front, maxGaps);
     (arrivals[|arrivals| - 1].pos > t.next ==> |t.pieces| < maxGaps) && RoomRun(isn, front, maxGaps))
  }

  /** A run of slices near the expected number, always cut alike, that never meets the gap limit. */
  predicate Fair(isn: uint32, arrivals: seq<Piece>, size: nat, maxGaps: int) {
    && ArrivesRun(isn, arrivals, size, maxGaps) && EndsNear(isn, arrivals, maxGaps)
    && SameCuts(arrivals) && RoomRun(isn, arrivals, maxGaps)
  }

  /** `p` was handed over or waits. */
  predicate Accounted(t: Tagged, p: Piece) {
    p.End() <= t.next || p in t.pieces
  }

  lemma {:induction false} CollectAccounts(next: nat, pieces: seq<Piece>, q: Piece)
    requires q in pieces
    ensures var r := IdealCollect(next, pieces); q.End() <= r.next || q in r.kept
    decreases |pieces|
  {
    if q != pieces[0] {
      CollectAccounts(if pieces[0].pos == next then pieces[0].End() else next, pieces[1..], q);
    }
  }

  /** Of pieces that follow on each other, the one that holds position `x`. */
  lemma {:induction false} TileAt(out: seq<Piece>, at: nat, end: nat, x: nat) returns (q: Piece)
    requires Tiles(out, at, end) && at <= x < end
    ensures q in out && q.pos <= x < q.End() <= end
    decreases |out|
  {
    if x < out[0].End() {
      q := out[0];
      TilesForward(out[1..], q.End(), end);
    } else {
      q := TileAt(out[1..], out[0].End(), end, x);
    }
  }

  lemma {:induction false} Meets(pieces: seq<Piece>, p: Piece) returns (q: Piece)
    requires !Apart(pieces, p)
    ensures q in pieces && !Disjoint(p, q)
  {
    if Disjoint(p, pieces[0]) {
      q := Meets(pieces[1..], p);
    } else {
      q := pieces[0];
    }
  }

  lemma SameCut(arrivals: seq<Piece>, p: Piece, q: Piece)
    requires SameCuts(arrivals) && p in arrivals && q in arrivals && !Disjoint(p, q)
    ensures p == q
  {
  }

  /** What an arrival finds accounted for stays so. */
  lemma StaysAccounted(isn: uint32, t: Tagged, p: Piece, q: Piece, size: nat, maxGaps: int)
    requires Ahead(t, size, maxGaps) && Arrives(t, p, size) && Clear(t, p) && Accounted(t, q)
    ensures Accounted(Accept(isn, t, p, maxGaps), q)
  {
    hide Orderly, Gather, IdealCollect, WirePlace, WireOverlaps, Tiles, Waiting;
    if q in t.pieces {
      if p.pos == t.next {
        CollectIsGather(t.next, p.End(), t.pieces, size);
        CollectAccounts(p.End(), t.pieces, q);
      } else {
        PlaceKeeps(isn, t.pieces, p, q);
      }
    }
  }

  /** An arrival is accounted for once it has come. */
  lemma ArrivalAccounted(isn: uint32, arrivals: seq<Piece>, size: nat, maxGaps: nat)
    requires arrivals != [] && Fair(isn, arrivals, size, maxGaps)
    requires Ahead(TaggedRun(isn, arrivals[..|arrivals| - 1], maxGaps), size, maxGaps)
    ensures Accounted(TaggedRun(isn, arrivals, maxGaps), arrivals[|arrivals| - 1])
  {
    hide Gather, WirePlace, WireOverlaps, Tiles, Orderly, Within, Waiting, SameCuts, ArrivesRun, Apart, Near, RoomRun, IdealReceive;
    var front, p := arrivals[..|arrivals| - 1], arrivals[|arrivals| - 1];
    var t := TaggedRun(isn, front, maxGaps);
    assert p in arrivals && forall q :: q in front ==> q in arrivals;
    assert 0 < p.len && p.End() <= size by { Last(isn, arrivals, size, maxGaps); }
    if p.pos < t.next {
      var q := TileAt(t.out, 0, t.next, p.pos);
      HeldArrived(isn, front, maxGaps, q);
      SameCut(arrivals, p, q);
    } else if p.pos > t.next {
      assert InWindow(t.next, t, p);
      OverlapIsWire(isn, t.next, 0, t.pieces, p, size);
      if Apart(t.pieces, p) {
        assert |t.pieces| < maxGaps by { Last(isn, arrivals, size, maxGaps); }
        PlaceKeeps(isn, t.pieces, p, p);
      } else {
        var q := Meets(t.pieces, p);
        HeldArrived(isn, front, maxGaps, q);
        SameCut(arrivals, p, q);
      }
    }
  }

  lemma Last(isn: uint32, arrivals: seq<Piece>, size: nat, maxGaps: int)
    requires arrivals != [] && Fair(isn, arrivals, size, maxGaps)
    ensures var front, p := arrivals[..|arrivals| - 1], arrivals[|arrivals| - 1];
            var t := TaggedRun(isn, front, maxGaps);
            && Arrives(t, p, size) && (p.pos > t.next ==> |t.pieces| < maxGaps)
            && Fair(isn, front, size, maxGaps)
  {
    hide TaggedRun, Arrives;
    var front := arrivals[..|arrivals| - 1];
    assert forall i :: 0 <= i < |front| ==> front[i] == arrivals[i];
  }

  /** In every such run, every piece that has arrived was handed over or waits. */
  lemma {:induction false} NothingLost(isn: uint32, arrivals: seq<Piece>, size: nat, maxGaps: nat, q: Piece)
    requires Fair(isn, arrivals, size, maxGaps) && q in arrivals
    ensures Accounted(TaggedRun(isn, arrivals, maxGaps), q)
  {
    hide Accounted, SameCuts, EndsNear, ArrivesRun, RoomRun, Accept, Ahead, Arrives, Clear;
    var front, p := arrivals[..|arrivals| - 1], arrivals[|arrivals| - 1];
    Last(isn, arrivals, size, maxGaps);
    FairIsAhead(isn, front, size, maxGaps);
    if q == p {
      ArrivalAccounted(isn, arrivals, size, maxGaps);
    } else {
      NothingLost(isn, front, size, maxGaps, q);
      LastClear(isn, arrivals, size, maxGaps);
      StaysAccounted(isn, TaggedRun(isn, front, maxGaps), p, q, size, maxGaps);
    }
  }

  lemma FairIsAhead(isn: uint32, arrivals: seq<Piece>, size: nat, maxGaps: nat)
    requires Fair(isn, arrivals, size, maxGaps)
    ensures Ahead(TaggedRun(isn, arrivals, maxGaps), size, maxGaps) && CleanRun(isn, arrivals, maxGaps)
    ensures ClearRun(isn, arrivals, maxGaps)
  {
    hide TaggedRun, SameCuts, EndsNear, ArrivesRun, RoomRun, ClearRun, Ahead;
    SameCutsAreClear(isn, arrivals, size, maxGaps);
    ClearRunsStayAhead(isn, arrivals, size, maxGaps);
  }

  lemma LastClear(isn: uint32, arrivals: seq<Piece>, size: nat, maxGaps: nat)
    requires arrivals != [] && Fair(isn, arrivals, size, maxGaps)
    ensures Clear(TaggedRun(isn, arrivals[..|arrivals| - 1], maxGaps), arrivals[|arrivals| - 1])
  {
    hide TaggedRun, Clear, Fair;
    FairIsAhead(isn, arrivals, size, maxGaps);
  }

  /** What waits lies beyond the expected position. */
  lemma {:induction false} WaitsBeyond(lo: nat, next: nat, pieces: seq<Piece>, size: nat, q: Piece)
    requires Orderly(lo, pieces, size) && next <= lo && Waiting(next, pieces) && q in pieces
    ensures q.pos > next
    decreases |pieces|
  {
    if q != pieces[0] {
      WaitsBeyond(pieces[0].End(), next, pieces[1..], size, q);
    }
  }

  /** Pieces that have arrived and follow on each other from the beginning have been handed over. */
  lemma {:induction false} CoveredIsReached(isn: uint32, arrivals: seq<Piece>, size: nat, maxGaps: nat, cuts: seq<Piece>, at: nat, end: nat)
    requires Fair(isn, arrivals, size, maxGaps)
    requires Tiles(cuts, at, end) && at <= TaggedRun(isn, arrivals, maxGaps).next
    requires forall i :: 0 <= i < |cuts| ==> cuts[i] in arrivals
    ensures end <= TaggedRun(isn, arrivals, maxGaps).next
    decreases |cuts|
  {
    hide Fair, TaggedRun, Orderly, Waiting, Within;
    if cuts != [] {
      var t := TaggedRun(isn, arrivals, maxGaps);
      NothingLost(isn, arrivals, size, maxGaps, cuts[0]);
      FairIsAhead(isn, arrivals, size, maxGaps);
      if cuts[0] in t.pieces {
        WaitsBeyond(t.next, t.next, t.pieces, size, cuts[0]);
      }
      CoveredIsReached(isn, arrivals, size, maxGaps, cuts[1..], cuts[0].End(), end);
    }
  }

  /** The arrivals hold the stream from its beginning up to `end`, piece after piece. */
  ghost predicate Covers(arrivals: seq<Piece>, end: nat) {
    exists cuts: seq<Piece> :: Tiles(cuts, 0, end) && forall i :: 0 <= i < |cuts| ==> cuts[i] in arrivals
  }

  /**
   Whatever the order, repetition and delay: what has been handed over is the stream up to the
   furthest position to which the arrivals cover it from the beginning.
   */
  lemma HandsOverAllItCan(isn: uint32, stream: seq<byte>, arrivals: seq<Piece>, maxGaps: nat, end: nat)
    requires Fair(isn, arrivals, |stream|, maxGaps) && Covers(arrivals, end)
    ensures Inside(arrivals, |stream|)
    ensures var out := Run(isn, stream, arrivals, maxGaps).delivered;
            end <= |out| <= |stream| && out == stream[..|out|] && Covers(arrivals, |out|)
  {
    hide TaggedRun, Run, Tiles, SameCuts, EndsNear, ArrivesRun, RoomRun, Ahead;
    FairIsAhead(isn, arrivals, |stream|, maxGaps);
    DeliveredIsPrefix(isn, stream, arrivals, maxGaps);
    var cuts: seq<Piece> :| Tiles(cuts, 0, end) && forall i :: 0 <= i < |cuts| ==> cuts[i] in arrivals;
    CoveredIsReached(isn, arrivals, |stream|, maxGaps, cuts, 0, end);
    var t := TaggedRun(isn, arrivals, maxGaps);
    forall i | 0 <= i < |t.out|
      ensures t.out[i] in arrivals
    {
      HeldArrived(isn, arrivals, maxGaps, t.out[i]);
    }
    assert Tiles(t.out, 0, t.next);
  }

  /** So once every piece of the stream has arrived, all of it has been handed over. */
  lemma AllArrived(isn: uint32, stream: seq<byte>, arrivals: seq<Piece>, maxGaps: nat)
    requires Fair(isn, arrivals, |stream|, maxGaps) && Covers(arrivals, |stream|)
    ensures Inside(arrivals, |stream|) && Run(isn, stream, arrivals, maxGaps).delivered == stream
  {
    hide Run, Fair, Covers;
    HandsOverAllItCan(isn, stream, arrivals, maxGaps, |stream|);
  }
}
