/** The completions of a queue pair in guest memory: the last round of the ring holds the last completions posted. */
module NvmeCompletions {
  import opened Wrappers
  import opened MachineTypes
  import DivMod
  import opened GuestMemory
  import opened NvmePrp
  import opened NvmeRings
  import opened NvmeScatter
  import opened NvmeIo
  import opened NvmeProtocol
  import opened NvmeServing
  import opened NvmePairs

  /** The completion ring in memory. */
  datatype Place = Place(base: nat, n: nat) {
    function SlotAddr(slot: nat): nat { base + 16 * slot }

    predicate Fits() { 0 < n < INDEX_LIMIT && base + 16 * n <= ADDRESS_LIMIT }
  }

  function PlaceOf(q: QueueState): Place { Place(q.cqAddr, q.ring.size) }

  predicate HoldsAt(mem: Memory, addr: int, data: seq<byte>) {
    Mapped(mem, addr, |data|) && Read(mem, addr, |data|) == data
  }

  /** Each of the last `n` completions is in its slot. */
  predicate InMemory(mem: Memory, at: Place, log: seq<Posting>) {
    forall i :: 0 <= i < |log| && |log| - at.n <= i ==> HoldsAt(mem, at.SlotAddr(log[i].slot), log[i].Bytes())
  }

  /** Nothing was written into the ring. */
  predicate Untouched(m: Memory, m': Memory, at: Place) {
    m.Keys == m'.Keys && forall a :: a in m && at.base <= a < at.base + 16 * at.n ==> m[a] == m'[a]
  }

  lemma UntouchedHolds(m: Memory, m': Memory, at: Place, slot: nat, data: seq<byte>)
    requires Untouched(m, m', at) && slot < at.n && |data| == 16 && HoldsAt(m, at.SlotAddr(slot), data)
    ensures HoldsAt(m', at.SlotAddr(slot), data)
  {
    var addr := at.SlotAddr(slot);
    assert Mapped(m', addr, 16);
    forall i | 0 <= i < 16
      ensures Read(m', addr, 16)[i] == data[i]
    {
      assert Read(m, addr, 16)[i] == m[addr + i];
    }
  }

  /** All completions are in slots of the ring, and any `n` in a row in different ones. */
  predicate InSlots(at: Place, log: seq<Posting>) {
    && (forall i :: 0 <= i < |log| ==> log[i].slot < at.n)
    && (forall i, j :: 0 <= i < j < |log| && j - i < at.n ==> log[i].slot != log[j].slot)
  }

  lemma UntouchedKeeps(m: Memory, m': Memory, at: Place, log: seq<Posting>)
    requires Untouched(m, m', at) && InMemory(m, at, log) && InSlots(at, log)
    ensures InMemory(m', at, log)
  {
    hide Untouched, HoldsAt;
    forall i | 0 <= i < |log| && |log| - at.n <= i
      ensures HoldsAt(m', at.SlotAddr(log[i].slot), log[i].Bytes())
    {
      UntouchedHolds(m, m', at, log[i].slot, log[i].Bytes());
    }
  }

  /** A completion written to its slot joins the others. */
  lemma PostedJoins(m: Memory, at: Place, log: seq<Posting>, p: Posting)
    requires InMemory(m, at, log) && InSlots(at, log + [p]) && Mapped(m, at.SlotAddr(p.slot), 16)
    ensures InMemory(Write(m, at.SlotAddr(p.slot), p.Bytes()), at, log + [p])
  {
    hide Mapped, Write;
    var m', all := Write(m, at.SlotAddr(p.slot), p.Bytes()), log + [p];
    forall i | 0 <= i < |all| && |all| - at.n <= i
      ensures HoldsAt(m', at.SlotAddr(all[i].slot), all[i].Bytes())
    {
      if i == |log| {
        ReadBack(m, at.SlotAddr(p.slot), p.Bytes());
      } else {
        assert all[i] == log[i] && all[|log|] == p && all[i].slot != all[|log|].slot;
        WriteElsewhere(m, at.SlotAddr(p.slot), p.Bytes(), at.SlotAddr(log[i].slot), 16);
      }
    }
  }

  /* ------------------------------------------------------------------ */
  /* Slots of a tracked history.                                          */
  /* ------------------------------------------------------------------ */

  lemma DifferentSlots(i: nat, j: nat, n: nat)
    requires i < j && j - i < n
    ensures i % n != j % n
  {
    if i % n == j % n {
      var a, b := i / n, j / n;
      assert j - i == (b - a) * n;
      DivMod.MulAtLeast(b - a, n);
      DivMod.MulAtLeast(a - b, n);
    }
  }

  lemma TrackedInSlots(h: History, at: Place, log: seq<Posting>)
    requires Tracks(h) && h.posted == EntriesOf(log) && at.n == h.ring.size
    ensures InSlots(at, log)
  {
    forall i | 0 <= i < |log|
      ensures log[i].slot == i % at.n < at.n
    {
      assert h.posted[i] == EntryAt(i, at.n) == EntryOf(log[i]);
    }
    forall i, j | 0 <= i < j < |log| && j - i < at.n
      ensures log[i].slot != log[j].slot
    {
      DifferentSlots(i, j, at.n);
    }
  }

  /* ------------------------------------------------------------------ */
  /* Serving the pair.                                                    */
  /* ------------------------------------------------------------------ */

  /** Guest memory after the data of the command at the head has moved. */
  function DataMoved(w: Work, qid: uint16, answer: Fault): Memory
    requires ServingIo(w, qid) && !Faults(w, qid, answer)
  {
    ExecuteIo(w.dev, [], Fetch(w.dev.mem, w.queues[qid]).value, answer).dev.mem
  }

  /** No command moves data into the ring. */
  predicate KeepsOff(w: Work, qid: uint16, answers: seq<Fault>, at: Place)
    requires ServingIo(w, qid)
    decreases |answers|
  {
    var q := w.queues[qid];
    q.ring.sqHead == q.sqTail || answers == [] || Faults(w, qid, answers[0]) ||
    (TurnMoves(w, qid, answers[0]);
     && Untouched(w.dev.mem, DataMoved(w, qid, answers[0]), at)
     && KeepsOff(Turn(w, qid, answers[0]).value, qid, answers[1..], at))
  }

  /** No page lies in the ring. */
  predicate PagesOff(extents: seq<Extent>, at: Place) {
    extents == [] || (Apart(extents[0].addr, extents[0].len, at.base, 16 * at.n) && PagesOff(extents[1..], at))
  }

  lemma {:induction false} ScatterOff(mem: Memory, extents: seq<Extent>, data: seq<byte>, at: Place)
    requires Size(extents) <= |data| && PagesOff(extents, at)
    ensures Untouched(mem, Scatter(mem, extents, data), at)
    decreases |extents|
  {
    if extents != [] {
      var e := extents[0];
      ScatterOff(Write(mem, e.addr, data[..e.len]), extents[1..], data[e.len..], at);
    }
  }

  /** A command whose pages lie apart from the ring, and from its own list pages if it is a read, keeps off the ring. */
  lemma CommandKeepsOff(dev: Device, cmd: Command, answer: Fault, at: Place)
    requires ValidPage(dev.page) && ExecuteIo(dev, [], cmd, answer).Done?
    requires cmd.opcode == IO_READ ==> PrpClear(dev.mem, cmd.prp1, cmd.prp2, Count(cmd), dev.page)
    requires cmd.opcode == IO_READ ==> PagesOff(Pages(dev.mem, cmd, dev.page), at)
    ensures Untouched(dev.mem, ExecuteIo(dev, [], cmd, answer).dev.mem, at)
  {
    hide Pages, PrpClear, Addressable, DiskBytes, Offset, ReadCommand, WriteCommand, PagesOff;
    if dev.disk.Some? && cmd.opcode == IO_READ {
      ReadMovesDisk(dev, [], cmd, answer);
      var out := ExecuteIo(dev, [], cmd, answer);
      if out.status == 0 {
        ScatterOff(dev.mem, Pages(dev.mem, cmd, dev.page), DiskBytes(dev.disk.value, Offset(Lba(cmd)), Count(cmd)), at);
      }
    } else if dev.disk.Some? && cmd.opcode == IO_WRITE {
      WriteMovesMemory(dev, [], cmd, answer);
    }
  }

  /** One command of the pair: its completion is written to its slot. */
  lemma PairTurnWrites(w: Work, qid: uint16, answer: Fault)
    requires ServingIo(w, qid) && IsPair(w.queues, qid) && !Faults(w, qid, answer)
    requires PlaceOf(w.queues[qid]).Fits() && w.queues[qid].ring.cqTail < w.queues[qid].ring.size
    ensures var t, at, p := Turn(w, qid, answer), PlaceOf(w.queues[qid]), PostingOf(w, qid, answer);
            && t.Some? && Mapped(DataMoved(w, qid, answer), at.SlotAddr(p.slot), 16)
            && t.value.dev.mem == Write(DataMoved(w, qid, answer), at.SlotAddr(p.slot), p.Bytes())
  {
    hide Turn, ExecuteIo, Fetch, Write, Next, Mapped, CompletionBytes, CompletionAddr;
    TurnIs(w, qid, answer);
    SlotIs(w.queues[qid]);
  }

  lemma SlotIs(q: QueueState)
    requires PlaceOf(q).Fits() && q.ring.cqTail < q.ring.size
    ensures CompletionAddr(q) == PlaceOf(q).SlotAddr(q.ring.cqTail) && CompletionAddr(PastHead(q)) == CompletionAddr(q)
  {
    DivMod.Small(q.cqAddr + q.ring.cqTail * 16, ADDRESS_LIMIT);
  }

  lemma ServedTracks(h: History, log: seq<Posting>, p: Posting)
    requires Tracks(h) && h.ring.cqPending + 1 < h.ring.size && h.posted == EntriesOf(log) && EntryOf(p) == Posted(h.ring)
    ensures var g := History(Serve(h.ring), h.posted + [Posted(h.ring)], h.acked);
            Tracks(g) && g.posted == EntriesOf(log + [p])
  {
    ServeTracks(h);
    hide Tracks;
    assert EntriesOf(log + [p]) == EntriesOf(log) + [EntryOf(p)];
  }

  /** One command keeps the last completions in memory. */
  lemma TurnKeeps(w: Work, qid: uint16, answer: Fault, h: History, log: seq<Posting>)
    requires ServingIo(w, qid) && IsPair(w.queues, qid) && !Faults(w, qid, answer) && PlaceOf(w.queues[qid]).Fits()
    requires w.queues[qid].ring == h.ring && Tracks(h) && h.posted == EntriesOf(log) && h.ring.cqPending + 1 < h.ring.size
    requires InMemory(w.dev.mem, PlaceOf(w.queues[qid]), log)
    requires Untouched(w.dev.mem, DataMoved(w, qid, answer), PlaceOf(w.queues[qid]))
    ensures Turn(w, qid, answer).Some?
    ensures InMemory(Turn(w, qid, answer).value.dev.mem, PlaceOf(w.queues[qid]), log + [PostingOf(w, qid, answer)])
  {
    var at, p := PlaceOf(w.queues[qid]), PostingOf(w, qid, answer);
    PairTurn(w, qid, answer);
    TailInRange(h);
    PairTurnWrites(w, qid, answer);
    hide Turn, Faults, PostingOf, DataMoved, Untouched, InMemory, Tracks, Serve, Posted;
    TrackedInSlots(h, at, log);
    UntouchedKeeps(w.dev.mem, DataMoved(w, qid, answer), at, log);
    ServedTracks(h, log, p);
    TrackedInSlots(History(Serve(h.ring), h.posted + [Posted(h.ring)], h.acked), at, log + [p]);
    PostedJoins(DataMoved(w, qid, answer), at, log, p);
  }

  lemma TailInRange(h: History)
    requires Tracks(h)
    ensures h.ring.cqTail < h.ring.size && Serve(h.ring).size == h.ring.size
  {
  }

  /** The pair is in step with its history, there is room for the commands due, and the ring is in memory. */
  predicate Ready(w: Work, qid: uint16, h: History, log: seq<Posting>) {
    && ServingIo(w, qid) && IsPair(w.queues, qid) && PlaceOf(w.queues[qid]).Fits()
    && w.queues[qid].ring == h.ring && Tracks(h) && h.posted == EntriesOf(log)
    && w.queues[qid].sqTail < h.ring.size
    && h.ring.cqPending + Distance(h.ring.sqHead, w.queues[qid].sqTail, h.ring.size) < h.ring.size
    && InMemory(w.dev.mem, PlaceOf(w.queues[qid]), log)
  }

  function ServedOne(h: History): History
    requires h.ring.size > 0
  {
    History(Serve(h.ring), h.posted + [Posted(h.ring)], h.acked)
  }

  lemma ReadyNext(w: Work, qid: uint16, answer: Fault, h: History, log: seq<Posting>)
    requires Ready(w, qid, h, log) && w.queues[qid].ring.sqHead != w.queues[qid].sqTail && !Faults(w, qid, answer)
    requires Untouched(w.dev.mem, DataMoved(w, qid, answer), PlaceOf(w.queues[qid]))
    ensures var t := Turn(w, qid, answer);
            && t.Some? && ServingIo(t.value, qid) && PlaceOf(t.value.queues[qid]) == PlaceOf(w.queues[qid])
            && Ready(t.value, qid, ServedOne(h), log + [PostingOf(w, qid, answer)])
  {
    var q, p := w.queues[qid], PostingOf(w, qid, answer);
    HeadInRange(h);
    DistanceNext(q.ring, q.sqTail);
    PairTurn(w, qid, answer);
    PendingNext(h);
    TurnKeeps(w, qid, answer, h, log);
    ServedTracks(h, log, p);
    hide Turn, Faults, PostingOf, DataMoved, Untouched, InMemory, Next, Tracks, Posted, Serve, Distance;
  }

  lemma {:induction false} ProcessKeeps(w: Work, qid: uint16, answers: seq<Fault>, h: History, log: seq<Posting>)
    requires Ready(w, qid, h, log)
    requires Process(w, qid, answers).Finished? && KeepsOff(w, qid, answers, PlaceOf(w.queues[qid]))
    ensures InMemory(Process(w, qid, answers).value.dev.mem, PlaceOf(w.queues[qid]), log + Completions(w, qid, answers))
    decreases |answers|
  {
    hide Turn, Faults, PostingOf, DataMoved, Untouched, Ready, PlaceOf, ServedOne, Process, Completions, KeepsOff, InMemory;
    ReadyIs(w, qid, h, log);
    if w.queues[qid].ring.sqHead == w.queues[qid].sqTail {
      ServesNothing(w, qid, answers);
      assert log + [] == log;
    } else {
      ServesOn(w, qid, answers);
      KeepsOffOn(w, qid, answers, PlaceOf(w.queues[qid]));
      ReadyNext(w, qid, answers[0], h, log);
      var t, p := Turn(w, qid, answers[0]).value, PostingOf(w, qid, answers[0]);
      ProcessKeeps(t, qid, answers[1..], ServedOne(h), log + [p]);
      assert log + ([p] + Completions(t, qid, answers[1..])) == log + [p] + Completions(t, qid, answers[1..]);
    }
  }

  lemma ServesNothing(w: Work, qid: uint16, answers: seq<Fault>)
    requires ServingIo(w, qid) && w.queues[qid].ring.sqHead == w.queues[qid].sqTail
    ensures Process(w, qid, answers) == Finished(w) && Completions(w, qid, answers) == []
  {
  }

  lemma KeepsOffOn(w: Work, qid: uint16, answers: seq<Fault>, at: Place)
    requires ServingIo(w, qid) && w.queues[qid].ring.sqHead != w.queues[qid].sqTail && answers != []
    requires !Faults(w, qid, answers[0]) && KeepsOff(w, qid, answers, at)
    ensures var t := Turn(w, qid, answers[0]);
            && Untouched(w.dev.mem, DataMoved(w, qid, answers[0]), at)
            && t.Some? && ServingIo(t.value, qid) && KeepsOff(t.value, qid, answers[1..], at)
  {
    hide Turn, Faults, DataMoved, Untouched;
    TurnMoves(w, qid, answers[0]);
  }

  lemma ReadyIs(w: Work, qid: uint16, h: History, log: seq<Posting>)
    requires Ready(w, qid, h, log)
    ensures h.ring.size > 0 && ServingIo(w, qid) && InMemory(w.dev.mem, PlaceOf(w.queues[qid]), log)
  {
  }

  lemma PendingNext(h: History)
    requires Tracks(h)
    ensures Serve(h.ring).cqPending == h.ring.cqPending + 1
  {
  }

  /* ------------------------------------------------------------------ */
  /* Runs.                                                                */
  /* ------------------------------------------------------------------ */

  /** Neither the data of the pair's commands nor anything else is written into its completion ring. */
  predicate Quiet(s: System, e: Event, qid: uint16)
    requires ValidPage(s.dev.page) && IsPair(s.queues, qid)
  {
    var at := PlaceOf(s.queues[qid]);
    if BellOf(e) == Some(qid) && Bell(e).Tail? then KeepsOff(Rung(s, qid, Bell(e).index), qid, e.answers, at)
    else React(s, e).Finished? ==> Untouched(s.dev.mem, React(s, e).value.dev.mem, at)
  }

  predicate QuietRun(s: System, events: seq<Event>, qid: uint16)
    requires ValidPage(s.dev.page)
    decreases |events|
  {
    events == [] ||
    (IsPair(s.queues, qid) ==>
       && Quiet(s, events[0], qid)
       && (React(s, events[0]).Finished? ==> QuietRun(React(s, events[0]).value, events[1..], qid)))
  }

  lemma EventKeeps(s: System, e: Event, qid: uint16, h: History, log: seq<Posting>)
    requires ValidPage(s.dev.page) && IsPair(s.queues, qid) && PlaceOf(s.queues[qid]).Fits()
    requires s.queues[qid].ring == h.ring && Tracks(h) && h.posted == EntriesOf(log)
    requires React(s, e).Finished? && Quiet(s, e, qid)
    requires if BellOf(e) == Some(qid) then Polite(h, Bell(e)) else Minds(s, e, qid)
    requires InMemory(s.dev.mem, PlaceOf(s.queues[qid]), log)
    ensures InMemory(React(s, e).value.dev.mem, PlaceOf(s.queues[qid]), log + Posts(s, e, qid))
  {
    var at := PlaceOf(s.queues[qid]);
    TrackedInSlots(h, at, log);
    if BellOf(e) == Some(qid) && Bell(e).Tail? {
      BellReacts(s, e, qid);
      TailPending(h, Bell(e).index);
      hide React, Process, Wanted, BellOf, Bell, Completions, KeepsOff, InMemory, Tracks, InSlots;
      ProcessKeeps(Rung(s, qid, Bell(e).index), qid, e.answers, h, log);
    } else {
      hide React, BellOf, Bell, Untouched, InMemory, Tracks, InSlots, Minds;
      UntouchedKeeps(s.dev.mem, React(s, e).value.dev.mem, at, log);
      assert log + [] == log;
    }
  }

  lemma TailPending(h: History, v: nat)
    requires Tracks(h) && Polite(h, Tail(v))
    ensures v < h.ring.size && h.ring.cqPending + Distance(h.ring.sqHead, v, h.ring.size) < h.ring.size
  {
  }

  /** The pair is in step with its history, the rest of the run is well behaved and quiet, and the ring is in memory. */
  predicate Underway(s: System, events: seq<Event>, qid: uint16, h: History, log: seq<Posting>) {
    && ValidPage(s.dev.page) && IsPair(s.queues, qid) && PlaceOf(s.queues[qid]).Fits()
    && s.queues[qid].ring == h.ring && Tracks(h) && h.posted == EntriesOf(log)
    && Behaves(s, events, qid, h) && QuietRun(s, events, qid)
    && InMemory(s.dev.mem, PlaceOf(s.queues[qid]), log)
  }

  lemma UnderwayNext(s: System, events: seq<Event>, qid: uint16, h: History, log: seq<Posting>)
    requires Underway(s, events, qid, h, log) && events != [] && React(s, events[0]).Finished?
    ensures var t, p := React(s, events[0]).value, Posts(s, events[0], qid);
            && Underway(t, events[1..], qid, Noted(h, events[0], qid), log + p)
            && PlaceOf(t.queues[qid]) == PlaceOf(s.queues[qid])
            && Log(s, events, qid) == p + Log(t, events[1..], qid)
  {
    assert h.ring.size > 0;
    hide React, BellOf, Bell, InMemory, Tracks, Quiet, Posts, Polite, Minds, Noted;
    NotedStep(s, events[0], qid, h);
    EventKeeps(s, events[0], qid, h, log);
    LogNoted(h, log, Posts(s, events[0], qid));
  }

  /**
   In every run in which the guest behaves and nothing else writes into the pair's completion ring,
   the last n completions posted are in guest memory, each in its slot, with its phase tag.
   */
  lemma {:induction false} CompletionsStay(s: System, events: seq<Event>, qid: uint16, h: History, log: seq<Posting>)
    requires Underway(s, events, qid, h, log) && After(s, events).Finished?
    ensures InMemory(After(s, events).value.dev.mem, PlaceOf(s.queues[qid]), log + Log(s, events, qid))
    decreases |events|
  {
    hide React, InMemory, Posts, Noted, Underway, PlaceOf, Log, Behaves, QuietRun, Tracks;
    UnderwayIs(s, events, qid, h, log);
    if events == [] {
      NothingLogged(s, qid);
      assert log + [] == log;
    } else {
      var t, p := React(s, events[0]).value, Posts(s, events[0], qid);
      UnderwayNext(s, events, qid, h, log);
      CompletionsStay(t, events[1..], qid, Noted(h, events[0], qid), log + p);
      assert log + (p + Log(t, events[1..], qid)) == log + p + Log(t, events[1..], qid);
    }
  }

  lemma UnderwayIs(s: System, events: seq<Event>, qid: uint16, h: History, log: seq<Posting>)
    requires Underway(s, events, qid, h, log)
    ensures ValidPage(s.dev.page) && IsPair(s.queues, qid) && h.ring.size > 0
    ensures InMemory(s.dev.mem, PlaceOf(s.queues[qid]), log)
  {
    hide InMemory, Behaves, QuietRun;
  }

  lemma NothingLogged(s: System, qid: uint16)
    requires ValidPage(s.dev.page)
    ensures Log(s, [], qid) == []
  {
  }

  lemma LogNoted(h: History, log: seq<Posting>, more: seq<Posting>)
    requires h.posted == EntriesOf(log)
    ensures h.posted + EntriesOf(more) == EntriesOf(log + more)
  {
  }
}
