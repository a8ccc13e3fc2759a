/**
 Submission and completion rings of an NVMe queue pair.

 Completion entries and the phase tag follow section 4.6 of the NVM Express Base
 Specification 1.4. A queue pair here is an I/O queue whose completions go to the
 completion queue of the same id and size.
 */
module NvmeRings {
  import DivMod

  /** Head and tail indices of one queue pair. */
  datatype Ring = Ring(size: nat, sqHead: nat, cqHead: nat, cqTail: nat, cqPending: nat, cqPhase: bool)

  /** A posted completion: where it was written, its phase tag, and the reported submission head. */
  datatype Entry = Entry(slot: nat, phase: bool, sqHead: nat)

  /** One past the largest 16-bit index. */
  const INDEX_LIMIT := 0x1_0000

  /** One slot further round a ring of 16-bit indices. */
  function Next(i: nat, n: nat): nat
    requires n > 0
  {
    (i + 1) % INDEX_LIMIT % n
  }

  /** One completion is written at the tail; the phase flips when the tail wraps. */
  function Post(r: Ring): Ring
    requires r.size > 0
  {
    var tail := Next(r.cqTail, r.size);
    r.(cqTail := tail,
       cqPending := if r.cqPending < r.size then r.cqPending + 1 else r.cqPending,
       cqPhase := if tail == 0 then !r.cqPhase else r.cqPhase)
  }

  /** One command is taken from the submission ring and completed. */
  function Serve(r: Ring): Ring
    requires r.size > 0
  {
    Post(r.(sqHead := Next(r.sqHead, r.size)))
  }

  function Posted(r: Ring): Entry
    requires r.size > 0
  {
    Entry(r.cqTail, r.cqPhase, Next(r.sqHead, r.size))
  }

  /** Commands waiting between head and tail. */
  function Distance(head: nat, tail: nat, n: nat): nat {
    if head <= tail then tail - head else if head < n then n - head + tail else 0
  }

  /** `k` commands served one after the other. */
  function Serves(r: Ring, k: nat): Ring
    requires r.size > 0
    decreases k
  {
    if k == 0 then r else Serves(Serve(r), k - 1)
  }

  function Entries(r: Ring, k: nat): (e: seq<Entry>)
    requires r.size > 0
    ensures |e| == k
    decreases k
  {
    if k == 0 then [] else [Posted(r)] + Entries(Serve(r), k - 1)
  }

  /** The guest's completion head doorbell. */
  function Acknowledge(r: Ring, head: nat): Ring {
    if r.size == 0 then r.(cqHead := head, cqPending := 0)
    else
      var h := head % r.size;
      var consumed := if h < r.cqHead then (r.size - r.cqHead + h) % INDEX_LIMIT else h - r.cqHead;
      var pending :=
        if consumed == 0 && r.cqPending == r.size then 0
        else if consumed >= r.cqPending then 0
        else r.cqPending - consumed;
      r.(cqHead := h, cqPending := pending)
  }

  /* ------------------------------------------------------------------ */
  /* Runs of doorbell writes.                                             */
  /* ------------------------------------------------------------------ */

  datatype Doorbell = Tail(index: nat) | Head(index: nat)

  /** A queue pair with everything posted and acknowledged since it was created. */
  datatype History = History(ring: Ring, posted: seq<Entry>, acked: nat)

  function Created(n: nat): History {
    History(Ring(n, 0, 0, 0, 0, true), [], 0)
  }

  function Step(h: History, d: Doorbell): History
    requires h.ring.size > 0
  {
    match d
    case Tail(t) =>
      var k := Distance(h.ring.sqHead, t, h.ring.size);
      h.(ring := Serves(h.ring, k), posted := h.posted + Entries(h.ring, k))
    case Head(i) =>
      h.(ring := Acknowledge(h.ring, i), acked := h.acked + Distance(h.ring.cqHead, i, h.ring.size))
  }

  /**
   A well-behaved guest writes indices below the ring size, keeps at most n-1
   commands outstanding, and acknowledges only posted entries.
   */
  predicate Polite(h: History, d: Doorbell) {
    && d.index < h.ring.size
    && match d
       case Tail(t) => |h.posted| - h.acked + Distance(h.ring.sqHead, t, h.ring.size) < h.ring.size
       case Head(i) => Distance(h.ring.cqHead, i, h.ring.size) <= |h.posted| - h.acked
  }

  /** The phase tag of the completions of lap `lap` around the ring. */
  predicate PhaseOf(lap: nat) { lap % 2 == 0 }

  /** The slot that count `k` falls on, and the lap it is in. */
  function Slot(k: nat, n: nat): nat
    requires n > 0
  {
    k % n
  }

  function Lap(k: nat, n: nat): nat
    requires n > 0
  {
    k / n
  }

  /** Completion `i` since the queue was created. */
  function EntryAt(i: nat, n: nat): Entry
    requires n > 0
  {
    Entry(Slot(i, n), PhaseOf(Lap(i, n)), Slot(i + 1, n))
  }

  /** Indices, phase and pending count as functions of what was posted and acknowledged. */
  predicate Tracks(h: History) {
    var n, k, e := h.ring.size, |h.posted|, h.acked;
    && 0 < n < INDEX_LIMIT && e <= k
    && h.ring == Ring(n, Slot(k, n), Slot(e, n), Slot(k, n), k - e, PhaseOf(Lap(k, n))) && k - e < n
    && (forall i :: 0 <= i < k ==> h.posted[i] == EntryAt(i, n))
  }

  /* ------------------------------------------------------------------ */
  /* Arithmetic of laps and slots.                                        */
  /* ------------------------------------------------------------------ */

  /** Counting one further moves one slot on, and one lap on when the slot wraps. */
  lemma NextCount(k: nat, n: nat)
    requires 0 < n < INDEX_LIMIT
    ensures Slot(k + 1, n) == Next(Slot(k, n), n)
    ensures Lap(k + 1, n) == Lap(k, n) + (if Slot(k + 1, n) == 0 then 1 else 0)
  {
    var q, r := k / n, k % n;
    DivMod.Small(r + 1, INDEX_LIMIT);
    if r + 1 < n {
      DivMod.Unique(k + 1, n, q, r + 1);
      DivMod.Unique(r + 1, n, 0, r + 1);
    } else {
      assert k + 1 == (q + 1) * n;
      DivMod.Unique(k + 1, n, q + 1, 0);
      DivMod.Unique(n, n, 1, 0);
    }
  }

  /** Moving on by the ring distance from slot `a % n` arrives at slot `t`. */
  lemma DistanceArrives(a: nat, t: nat, n: nat)
    requires n > 0 && t < n
    ensures Slot(a + Distance(Slot(a, n), t, n), n) == t
  {
    var q, r := a / n, a % n;
    if r <= t {
      DivMod.Unique(a + (t - r), n, q, t);
    } else {
      assert a + (n - r + t) == (q + 1) * n + t;
      DivMod.Unique(a + (n - r + t), n, q + 1, t);
    }
  }

  /* ------------------------------------------------------------------ */
  /* Serving.                                                             */
  /* ------------------------------------------------------------------ */

  /** The next completion is the next of the sequence. */
  lemma PostedIs(h: History)
    requires Tracks(h)
    ensures Posted(h.ring) == EntryAt(|h.posted|, h.ring.size)
  {
    hide Next, Slot, Lap;
    NextCount(|h.posted|, h.ring.size);
  }

  lemma ServedRing(h: History)
    requires Tracks(h) && h.ring.cqPending + 1 < h.ring.size
    ensures var n, k, e := h.ring.size, |h.posted| + 1, h.acked;
            Serve(h.ring) == Ring(n, Slot(k, n), Slot(e, n), Slot(k, n), k - e, PhaseOf(Lap(k, n)))
  {
    hide Next, Slot, Lap, EntryAt;
    NextCount(|h.posted|, h.ring.size);
  }

  lemma ServeTracks(h: History)
    requires Tracks(h) && h.ring.cqPending + 1 < h.ring.size
    ensures Tracks(History(Serve(h.ring), h.posted + [Posted(h.ring)], h.acked))
  {
    hide Next, EntryAt, PhaseOf, Serve, Posted, Slot, Lap;
    PostedIs(h);
    ServedRing(h);
  }

  lemma {:induction false} ServesTrack(h: History, k: nat)
    requires Tracks(h) && h.ring.cqPending + k < h.ring.size
    ensures Tracks(History(Serves(h.ring, k), h.posted + Entries(h.ring, k), h.acked))
    decreases k
  {
    if k == 0 {
      assert h.posted + [] == h.posted;
    } else {
      ServeTracks(h);
      var one := History(Serve(h.ring), h.posted + [Posted(h.ring)], h.acked);
      ServesTrack(one, k - 1);
      var rest := Entries(one.ring, k - 1);
      assert (h.posted + [Posted(h.ring)]) + rest == h.posted + ([Posted(h.ring)] + rest);
    }
  }

  /** Serving keeps the ring size and leaves the completion head to the guest. */
  lemma {:induction false} ServesFrame(r: Ring, k: nat)
    requires r.size > 0
    ensures Serves(r, k).size == r.size && Serves(r, k).cqHead == r.cqHead
    decreases k
  {
    if k > 0 {
      ServesFrame(Serve(r), k - 1);
    }
  }

  /** A tail doorbell serves exactly the waiting commands: the head ends at the tail. */
  lemma TailTracks(h: History, t: nat)
    requires Tracks(h) && t < h.ring.size
    requires Polite(h, Tail(t))
    ensures Tracks(Step(h, Tail(t))) && Step(h, Tail(t)).ring.sqHead == t
  {
    var k := Distance(h.ring.sqHead, t, h.ring.size);
    ServesTrack(h, k);
    ServesFrame(h.ring, k);
    DistanceArrives(|h.posted|, t, h.ring.size);
  }

  lemma HeadTracks(h: History, i: nat)
    requires Tracks(h) && i < h.ring.size
    requires Polite(h, Head(i))
    ensures Tracks(Step(h, Head(i)))
  {
    DistanceArrives(h.acked, i, h.ring.size);
    DivMod.Small(i, h.ring.size);
    if i < h.ring.cqHead {
      DivMod.Small(h.ring.size - h.ring.cqHead + i, INDEX_LIMIT);
    }
  }

  lemma {:induction false} StepSize(h: History, d: Doorbell)
    requires h.ring.size > 0
    ensures Step(h, d).ring.size == h.ring.size
  {
    if d.Tail? {
      ServesFrame(h.ring, Distance(h.ring.sqHead, d.index, h.ring.size));
    }
  }

  /** The queue pair after a sequence of doorbell writes. */
  function Run(h: History, doorbells: seq<Doorbell>): (r: History)
    requires h.ring.size > 0
    ensures r.ring.size == h.ring.size
    decreases |doorbells|
  {
    if doorbells == [] then h
    else
      StepSize(h, doorbells[0]);
      Run(Step(h, doorbells[0]), doorbells[1..])
  }

  predicate PoliteRun(h: History, doorbells: seq<Doorbell>)
    requires h.ring.size > 0
    decreases |doorbells|
  {
    doorbells == [] ||
    (StepSize(h, doorbells[0]);
     Polite(h, doorbells[0]) && PoliteRun(Step(h, doorbells[0]), doorbells[1..]))
  }

  lemma CreatedTracks(n: nat)
    requires 0 < n < INDEX_LIMIT
    ensures Tracks(Created(n))
  {
    DivMod.Small(0, n);
  }

  lemma StepTracks(h: History, d: Doorbell)
    requires Tracks(h) && Polite(h, d)
    ensures Tracks(Step(h, d))
  {
    match d
    case Tail(t) => TailTracks(h, t);
    case Head(i) => HeadTracks(h, i);
  }

  /**
   In every run of a polite guest, the k-th completion since creation went to slot
   k mod n with phase 1 exactly when k div n is even, the ring indices count what was
   served and acknowledged, and the pending count is posted minus acknowledged.
   */
  lemma {:induction false} RunTracks(h: History, doorbells: seq<Doorbell>)
    requires Tracks(h) && PoliteRun(h, doorbells)
    ensures Tracks(Run(h, doorbells))
    decreases |doorbells|
  {
    assert h.ring.size > 0;
    hide Tracks, Polite, Step;
    if doorbells != [] {
      StepTracks(h, doorbells[0]);
      RunTracks(Step(h, doorbells[0]), doorbells[1..]);
    }
  }
}
