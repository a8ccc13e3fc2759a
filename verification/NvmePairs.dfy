/**
 An I/O queue pair over whole runs of the controller: what the guest does with its doorbells is a run
 of the rings of `NvmeRings`, whatever else happens meanwhile on other queues and in memory.
 */
module NvmePairs {
  import opened Wrappers
  import opened MachineTypes
  import opened GuestMemory
  import opened NvmeRings
  import opened NvmeIo
  import opened NvmeProtocol
  import opened NvmeServing

  /** An I/O queue whose completions go to the completion queue of the same id. */
  predicate IsPair(queues: map<uint16, QueueState>, qid: uint16) {
    && qid != ADMIN_QUEUE && qid in queues && queues[qid].id == qid && queues[qid].cqID == qid
    && 0 < queues[qid].ring.size < INDEX_LIMIT
  }

  /** The same queue, but for its indices. */
  predicate SameWiring(q: QueueState, p: QueueState) { q == p.(ring := q.ring, sqTail := q.sqTail) }

  /* ------------------------------------------------------------------ */
  /* Creation.                                                            */
  /* ------------------------------------------------------------------ */

  /** A completion queue and a submission queue created under a new id, in either order, are a pair with empty rings. */
  lemma CreatedPair(queues: map<uint16, QueueState>, first: Command, second: Command, qid: uint16, n: uint16)
    requires qid !in queues && qid != ADMIN_QUEUE && n > 0
    requires Named(first) == qid && Named(second) == qid && Asked(first) == n && Asked(second) == n
    requires {first.opcode, second.opcode} == {ADMIN_CREATE_CQ, ADMIN_CREATE_SQ}
    requires forall c :: c in {first, second} && c.opcode == ADMIN_CREATE_SQ ==> Low16(c.cdw11 / 0x1_0000) == qid
    ensures var made := AfterAdmin(AfterAdmin(queues, first), second);
            && IsPair(made, qid) && made[qid].ring == Created(n).ring && made[qid].sqTail == 0
            && (forall k :: k in queues ==> k in made && made[k] == queues[k])
  {
    hide Named, Asked, Low16;
    assert first.opcode in {ADMIN_CREATE_CQ, ADMIN_CREATE_SQ} && second.opcode in {ADMIN_CREATE_CQ, ADMIN_CREATE_SQ};
    assert ADMIN_CREATE_CQ in {first.opcode, second.opcode} && ADMIN_CREATE_SQ in {first.opcode, second.opcode};
  }

  /** An admin command changes the queues as `AfterAdmin` says, and the admin queue. */
  lemma AdminTurnQueues(w: Work, cmd: Command, k: uint16)
    requires Serving(w, ADMIN_QUEUE) && AdminTurn(w, cmd).Some? && k != ADMIN_QUEUE
    ensures var t := AdminTurn(w, cmd).value;
            && (k in t.queues <==> k in AfterAdmin(w.queues, cmd))
            && (k in t.queues ==> t.queues[k] == AfterAdmin(w.queues, cmd)[k])
  {
    hide AfterData, WithCompletions, WithSubmissions, Low16, Post, Write, Mapped, CompletionBytes;
  }

  /* ------------------------------------------------------------------ */
  /* The pair's own tail doorbell.                                        */
  /* ------------------------------------------------------------------ */

  /** The completion of the command at the head. */
  function PostingOf(w: Work, qid: uint16, answer: Fault): Posting
    requires ServingIo(w, qid) && !Faults(w, qid, answer)
  {
    var cmd := Fetch(w.dev.mem, w.queues[qid]).value;
    CompletionOf(w.queues, qid, cmd.cid, ExecuteIo(w.dev, [], cmd, answer).status)
  }

  /** The completions posted while a queue is served. */
  function Completions(w: Work, qid: uint16, answers: seq<Fault>): seq<Posting>
    requires ServingIo(w, qid)
    decreases |answers|
  {
    var q := w.queues[qid];
    if q.ring.sqHead == q.sqTail || answers == [] || Faults(w, qid, answers[0]) then []
    else
      TurnMoves(w, qid, answers[0]);
      [PostingOf(w, qid, answers[0])] + Completions(Turn(w, qid, answers[0]).value, qid, answers[1..])
  }

  /** A doorbell that returns and has something to serve serves one command and goes on. */
  lemma ServesOn(w: Work, qid: uint16, answers: seq<Fault>)
    requires ServingIo(w, qid) && Process(w, qid, answers).Finished? && w.queues[qid].ring.sqHead != w.queues[qid].sqTail
    ensures answers != [] && !Faults(w, qid, answers[0])
    ensures var t := Turn(w, qid, answers[0]);
            && t.Some? && ServingIo(t.value, qid) && Process(w, qid, answers) == Process(t.value, qid, answers[1..])
            && Completions(w, qid, answers)
               == [PostingOf(w, qid, answers[0])] + Completions(t.value, qid, answers[1..])
  {
    hide Turn, Faults, PostingOf;
    TurnIs(w, qid, answers[0]);
    TurnMoves(w, qid, answers[0]);
  }

  function EntryOf(p: Posting): Entry { Entry(p.slot, p.phase, p.sqHead) }

  function EntriesOf(ps: seq<Posting>): (r: seq<Entry>)
    ensures |r| == |ps| && forall i :: 0 <= i < |ps| ==> r[i] == EntryOf(ps[i])
  {
    seq(|ps|, i requires 0 <= i < |ps| => EntryOf(ps[i]))
  }

  lemma PairTurn(w: Work, qid: uint16, answer: Fault)
    requires ServingIo(w, qid) && IsPair(w.queues, qid) && !Faults(w, qid, answer)
    ensures var t, q := Turn(w, qid, answer), w.queues[qid];
            && t.Some? && ServingIo(t.value, qid) && t.value.queues == w.queues[qid := q.(ring := Serve(q.ring))]
            && EntryOf(PostingOf(w, qid, answer)) == Posted(q.ring)
  {
    TurnIs(w, qid, answer);
    hide Turn, ExecuteIo, Fetch, CanPost, CompletionAddr, Write, Next;
  }

  /** A tail doorbell on a slot of the ring serves exactly the waiting commands, and touches no other queue. */
  lemma {:induction false} PairProcess(w: Work, qid: uint16, answers: seq<Fault>)
    requires ServingIo(w, qid) && IsPair(w.queues, qid) && Process(w, qid, answers).Finished?
    requires w.queues[qid].ring.sqHead < w.queues[qid].ring.size && w.queues[qid].sqTail < w.queues[qid].ring.size
    ensures var q, t := w.queues[qid], Process(w, qid, answers).value;
            var k := Distance(q.ring.sqHead, q.sqTail, q.ring.size);
            && t.loose.None? && t.queues == w.queues[qid := q.(ring := Serves(q.ring, k))]
            && EntriesOf(Completions(w, qid, answers)) == Entries(q.ring, k)
    decreases |answers|
  {
    hide Turn, Faults, PostingOf, Next, Serve, Posted, EntryOf;
    var q := w.queues[qid];
    if q.ring.sqHead == q.sqTail {
      assert w.queues == w.queues[qid := q];
    } else {
      TurnIs(w, qid, answers[0]);
      PairTurn(w, qid, answers[0]);
      var t := Turn(w, qid, answers[0]).value;
      DistanceNext(q.ring, q.sqTail);
      PairProcess(t, qid, answers[1..]);
      var rest := Completions(t, qid, answers[1..]);
      assert EntriesOf([PostingOf(w, qid, answers[0])] + rest) == [Posted(q.ring)] + EntriesOf(rest);
    }
  }

  lemma DistanceNext(r: Ring, tail: nat)
    requires 0 < r.size < INDEX_LIMIT && r.sqHead < r.size && tail < r.size && r.sqHead != tail
    ensures var s := Serve(r);
            && s.size == r.size && s.sqHead < r.size
            && Distance(r.sqHead, tail, r.size) == 1 + Distance(s.sqHead, tail, r.size)
  {
    NextSlot(r.sqHead, r.size);
    hide Next;
  }

  /* ------------------------------------------------------------------ */
  /* What leaves the pair alone.                                          */
  /* ------------------------------------------------------------------ */

  /** Serving another I/O queue whose completions go elsewhere. */
  lemma {:induction false} OtherProcess(w: Work, other: uint16, answers: seq<Fault>, qid: uint16)
    requires ServingIo(w, other) && other != qid && qid in w.queues && w.queues[other].cqID != qid
    requires Process(w, other, answers).Finished?
    ensures var t := Process(w, other, answers).value; qid in t.queues && t.queues[qid] == w.queues[qid]
    decreases |answers|
  {
    hide Turn, Faults;
    var q := w.queues[other];
    if q.ring.sqHead != q.sqTail {
      TurnIs(w, other, answers[0]);
      TurnMoves(w, other, answers[0]);
      OtherProcess(Turn(w, other, answers[0]).value, other, answers[1..], qid);
    }
  }

  /** No admin command that is served creates or deletes the queue. */
  predicate AdminSpares(w: Work, answers: seq<Fault>, qid: uint16)
    requires Serving(w, ADMIN_QUEUE)
    decreases |answers|
  {
    var q := Current(w, ADMIN_QUEUE);
    q.ring.sqHead == q.sqTail || answers == [] ||
    match Fetch(w.dev.mem, q)
    case None => true
    case Some(cmd) =>
      && (Manages(cmd) ==> Named(cmd) != qid)
      && (AdminTurn(w, cmd).Some? ==> AdminSpares(AdminTurn(w, cmd).value, answers[1..], qid))
  }

  lemma {:induction false} AdminProcess(w: Work, answers: seq<Fault>, qid: uint16)
    requires Serving(w, ADMIN_QUEUE) && qid in w.queues && qid != ADMIN_QUEUE && AdminSpares(w, answers, qid)
    requires Process(w, ADMIN_QUEUE, answers).Finished?
    ensures var t := Process(w, ADMIN_QUEUE, answers).value; qid in t.queues && t.queues[qid] == w.queues[qid]
    decreases |answers|
  {
    hide AdminTurn, Fetch;
    var q := Current(w, ADMIN_QUEUE);
    if q.ring.sqHead != q.sqTail {
      var cmd := Fetch(w.dev.mem, q).value;
      AdminTurnQueues(w, cmd, qid);
      NotNamed(w.queues, cmd, qid);
      AdminProcess(AdminTurn(w, cmd).value, answers[1..], qid);
    }
  }

  lemma NotNamed(queues: map<uint16, QueueState>, cmd: Command, k: uint16)
    requires (Manages(cmd) ==> Named(cmd) != k) && k in queues
    ensures k in AfterAdmin(queues, cmd) && AfterAdmin(queues, cmd)[k] == queues[k]
  {
    hide Named, WithCompletions, WithSubmissions;
  }

  /* ------------------------------------------------------------------ */
  /* Events.                                                              */
  /* ------------------------------------------------------------------ */

  /** The queue whose doorbell a register is, if it is one. */
  function BellOf(e: Event): Option<uint16> {
    if e.Register? && e.offset >= DOORBELL_BASE then Some(Low16((e.offset - DOORBELL_BASE) / 4 / 2)) else None
  }

  /** The doorbell that an event rings. */
  function Bell(e: Event): Doorbell
    requires BellOf(e).Some?
  {
    var v := Low16(AsUint32(e.value));
    if (e.offset - DOORBELL_BASE) / 4 % 2 == 0 then Tail(v) else Head(v)
  }

  /** Tail doorbell `v` on queue `k`. */
  function Rung(s: System, k: uint16, v: nat): Work
    requires k in s.queues
  {
    Work(s.queues[k := s.queues[k].(sqTail := v)], None, s.dev)
  }

  /**
   The rest of the guest: it does not turn the controller off, other queues complete elsewhere, and
   no admin command creates or deletes the queue.
   */
  predicate Minds(s: System, e: Event, qid: uint16)
    requires ValidPage(s.dev.page)
  {
    match BellOf(e)
    case None => e.Register? && e.offset == REG_CC ==> Enabled(e.value)
    case Some(k) =>
      k != qid && (k in s.queues && Bell(e).Tail? ==>
        if k == ADMIN_QUEUE then AdminSpares(Rung(s, k, Bell(e).index), e.answers, qid) else s.queues[k].cqID != qid)
  }

  lemma BellReacts(s: System, e: Event, k: uint16)
    requires ValidPage(s.dev.page) && BellOf(e) == Some(k)
    ensures k !in s.queues ==> React(s, e) == Finished(s)
    ensures k in s.queues && Bell(e).Head? ==>
              React(s, e) == Finished(UpdateIrq(s.(queues := s.queues[k := Acked(s.queues[k], Bell(e).index)])))
    ensures k in s.queues && Bell(e).Tail? ==>
              var p := Process(Rung(s, k, Bell(e).index), k, e.answers);
              && (React(s, e).Finished? <==> p.Finished?)
              && (p.Finished? ==> React(s, e) == Finished(UpdateIrq(s.(queues := p.value.queues, dev := p.value.dev))))
  {
    hide Process, Wanted, AsUint32, Acknowledge, Low16;
  }

  /** An event that is not the pair's own leaves the pair as it is. */
  lemma OthersLeaveIt(s: System, e: Event, qid: uint16)
    requires ValidPage(s.dev.page) && IsPair(s.queues, qid) && Minds(s, e, qid) && React(s, e).Finished?
    ensures var t := React(s, e).value; qid in t.queues && t.queues[qid] == s.queues[qid]
  {
    match BellOf(e)
    case None =>
      hide Wanted, MaskSet, MaskCleared, PageSize, Mps, SetQueueRegister, AdminQueue, Write;
    case Some(k) =>
      BellReacts(s, e, k);
      hide React, Process, Wanted, Acknowledge, BellOf, Bell, AdminSpares;
      if k in s.queues && Bell(e).Tail? {
        if k == ADMIN_QUEUE {
          AdminProcess(Rung(s, k, Bell(e).index), e.answers, qid);
        } else {
          OtherProcess(Rung(s, k, Bell(e).index), k, e.answers, qid);
        }
      }
  }

  /** The completions an event posts on the pair. */
  function Posts(s: System, e: Event, qid: uint16): seq<Posting>
    requires ValidPage(s.dev.page) && IsPair(s.queues, qid)
  {
    if BellOf(e) == Some(qid) && Bell(e).Tail? then Completions(Rung(s, qid, Bell(e).index), qid, e.answers) else []
  }

  /** The pair's own doorbells do to its rings what `NvmeRings.Step` says. */
  lemma OwnBell(s: System, e: Event, qid: uint16, h: History)
    requires ValidPage(s.dev.page) && IsPair(s.queues, qid) && BellOf(e) == Some(qid) && React(s, e).Finished?
    requires s.queues[qid].ring == h.ring && Tracks(h) && Polite(h, Bell(e))
    ensures var t, g := React(s, e).value, NvmeRings.Step(h, Bell(e));
            && IsPair(t.queues, qid) && SameWiring(t.queues[qid], s.queues[qid]) && t.queues[qid].ring == g.ring
            && (forall k :: k in s.queues && k != qid ==> k in t.queues && t.queues[k] == s.queues[k])
            && g.posted == h.posted + EntriesOf(Posts(s, e, qid))
  {
    BellReacts(s, e, qid);
    StepTracks(h, Bell(e));
    StepSize(h, Bell(e));
    HeadInRange(h);
    hide React, Process, Wanted, Acknowledge, BellOf, Bell, Serves, Entries, Tracks, Completions;
    match Bell(e)
    case Tail(v) =>
      PairProcess(Rung(s, qid, v), qid, e.answers);
    case Head(v) =>
      assert h.posted + EntriesOf([]) == h.posted;
  }

  lemma HeadInRange(h: History)
    requires Tracks(h)
    ensures h.ring.sqHead < h.ring.size
  {
  }

  /**
   A tail doorbell returns exactly when the head is at the tail or the tail is a slot of the ring, and none
   of the commands due faults. No other tail returns, however many commands are served.
   */
  lemma TailReturnsIff(s: System, e: Event, k: uint16)
    requires ValidPage(s.dev.page) && BellOf(e) == Some(k) && k in s.queues && Bell(e).Tail?
    requires 0 < s.queues[k].ring.size < INDEX_LIMIT && Due(s.queues[k].(sqTail := Bell(e).index)) <= |e.answers|
    requires k == ADMIN_QUEUE ==> Steady(Rung(s, k, Bell(e).index), k, e.answers)
    ensures var w := Rung(s, k, Bell(e).index);
            React(s, e).Finished? <==> Reaches(w.queues[k]) && Turns(w, k, e.answers, Due(w.queues[k])).Some?
    ensures Reaches(s.queues[k].(sqTail := Bell(e).index)) ==> !React(s, e).Starved?
  {
    hide Process, Wanted, AsUint32, Acknowledge, Low16, Turns, Reaches, Due, Bell, Steady;
    BellReacts(s, e, k);
    var w := Rung(s, k, Bell(e).index);
    if k != ADMIN_QUEUE {
      IoSteady(w, k, e.answers);
    }
    ReturnsIff(w, k, e.answers);
    if Reaches(w.queues[k]) {
      ServesWhatIsDue(w, k, e.answers);
      TailOutcome(s, e, k);
    }
  }

  lemma TailOutcome(s: System, e: Event, k: uint16)
    requires ValidPage(s.dev.page) && BellOf(e) == Some(k) && k in s.queues && Bell(e).Tail?
    ensures React(s, e).Starved? <==> Process(Rung(s, k, Bell(e).index), k, e.answers).Starved?
  {
    hide Process, Wanted, AsUint32, Low16;
  }

  /* ------------------------------------------------------------------ */
  /* Runs.                                                                */
  /* ------------------------------------------------------------------ */

  /** The pair's doorbells in a run. */
  function Bells(events: seq<Event>, qid: uint16): seq<Doorbell> {
    if events == [] then []
    else (if BellOf(events[0]) == Some(qid) then [Bell(events[0])] else []) + Bells(events[1..], qid)
  }

  /** The pair after one event: `h` is what has been posted and acknowledged so far. */
  function Noted(h: History, e: Event, qid: uint16): (g: History)
    requires h.ring.size > 0
    ensures g.ring.size == h.ring.size
  {
    if BellOf(e) == Some(qid) then StepSize(h, Bell(e)); NvmeRings.Step(h, Bell(e)) else h
  }

  /** The guest is polite with the pair's doorbells and minds it with everything else. */
  predicate Behaves(s: System, events: seq<Event>, qid: uint16, h: History)
    requires ValidPage(s.dev.page) && h.ring.size > 0
    decreases |events|
  {
    events == [] ||
    (&& (if BellOf(events[0]) == Some(qid) then Polite(h, Bell(events[0])) else Minds(s, events[0], qid))
     && (React(s, events[0]).Finished? ==> Behaves(React(s, events[0]).value, events[1..], qid, Noted(h, events[0], qid))))
  }

  /** Everything posted on the pair in a run. */
  function Log(s: System, events: seq<Event>, qid: uint16): seq<Posting>
    requires ValidPage(s.dev.page)
    decreases |events|
  {
    if events == [] || !IsPair(s.queues, qid) || !React(s, events[0]).Finished? then []
    else Posts(s, events[0], qid) + Log(React(s, events[0]).value, events[1..], qid)
  }

  /** One event keeps the pair in step with its history. */
  lemma NotedStep(s: System, e: Event, qid: uint16, h: History)
    requires ValidPage(s.dev.page) && IsPair(s.queues, qid) && s.queues[qid].ring == h.ring && Tracks(h)
    requires React(s, e).Finished?
    requires if BellOf(e) == Some(qid) then Polite(h, Bell(e)) else Minds(s, e, qid)
    ensures var t, g := React(s, e).value, Noted(h, e, qid);
            && IsPair(t.queues, qid) && SameWiring(t.queues[qid], s.queues[qid]) && t.queues[qid].ring == g.ring
            && Tracks(g) && g.posted == h.posted + EntriesOf(Posts(s, e, qid))
  {
    if BellOf(e) == Some(qid) {
      OwnBell(s, e, qid, h);
      StepTracks(h, Bell(e));
    } else {
      OthersLeaveIt(s, e, qid);
      hide Tracks, React;
      assert h.posted + EntriesOf([]) == h.posted;
    }
  }

  /**
   In every run of the controller in which the guest behaves and the writes return, the rings of the
   pair are those of the run of its doorbells, and the completions posted are the ones of that run.
   */
  lemma {:induction false} PairRuns(s: System, events: seq<Event>, qid: uint16, h: History)
    requires ValidPage(s.dev.page) && IsPair(s.queues, qid) && s.queues[qid].ring == h.ring && Tracks(h)
    requires Behaves(s, events, qid, h) && After(s, events).Finished?
    ensures var t, g := After(s, events).value, NvmeRings.Run(h, Bells(events, qid));
            && IsPair(t.queues, qid) && SameWiring(t.queues[qid], s.queues[qid]) && t.queues[qid].ring == g.ring
            && Tracks(g) && g.posted == h.posted + EntriesOf(Log(s, events, qid))
    decreases |events|
  {
    assert h.ring.size > 0;
    hide Tracks, React, Polite, Minds, BellOf, Bell, Posts, NvmeRings.Step;
    if events == [] {
      assert h.posted + EntriesOf([]) == h.posted;
    } else {
      var e, rest := events[0], events[1..];
      NotedStep(s, e, qid, h);
      var t, g := React(s, e).value, Noted(h, e, qid);
      PairRuns(t, rest, qid, g);
      BellsGo(events, qid, h);
      EntriesJoin(h.posted, Posts(s, e, qid), Log(t, rest, qid));
    }
  }

  lemma BellsGo(events: seq<Event>, qid: uint16, h: History)
    requires events != [] && h.ring.size > 0
    ensures NvmeRings.Run(h, Bells(events, qid)) == NvmeRings.Run(Noted(h, events[0], qid), Bells(events[1..], qid))
  {
    hide BellOf, Bell, NvmeRings.Step;
    var rest := Bells(events[1..], qid);
    if BellOf(events[0]) == Some(qid) {
      assert ([Bell(events[0])] + rest)[1..] == rest;
    } else {
      assert [] + rest == rest;
    }
  }

  lemma EntriesJoin(posted: seq<Entry>, a: seq<Posting>, b: seq<Posting>)
    ensures posted + EntriesOf(a) + EntriesOf(b) == posted + EntriesOf(a + b)
  {
    assert EntriesOf(a + b) == EntriesOf(a) + EntriesOf(b);
  }

  /**
   From creation: the k-th completion of the pair goes to slot k mod n with phase 1 exactly when
   k div n is even, says that the head has moved past k + 1 commands, and as many are pending as
   have been posted and not acknowledged.
   */
  lemma PairFromCreation(s: System, events: seq<Event>, qid: uint16, k: nat)
    requires ValidPage(s.dev.page) && IsPair(s.queues, qid)
    requires var n := s.queues[qid].ring.size; s.queues[qid].ring == Created(n).ring && Behaves(s, events, qid, Created(n))
    requires After(s, events).Finished? && k < |Log(s, events, qid)|
    ensures var t, n := After(s, events).value, s.queues[qid].ring.size;
            var log := Log(s, events, qid);
            && EntryOf(log[k]) == EntryAt(k, n)
            && qid in t.queues && t.queues[qid].ring.cqPending == |log| - NvmeRings.Run(Created(n), Bells(events, qid)).acked
  {
    hide Behaves, After, React, Bells, Tracks, Log, EntryAt;
    var n := s.queues[qid].ring.size;
    CreatedTracks(n);
    PairRuns(s, events, qid, Created(n));
    var g, log := NvmeRings.Run(Created(n), Bells(events, qid)), Log(s, events, qid);
    assert [] + EntriesOf(log) == EntriesOf(log);
    KthEntry(g, log, k);
  }

  lemma KthEntry(h: History, log: seq<Posting>, k: nat)
    requires Tracks(h) && h.posted == EntriesOf(log) && k < |log|
    ensures EntryOf(log[k]) == EntryAt(k, h.ring.size) && h.ring.cqPending == |log| - h.acked
  {
    hide EntryAt, PhaseOf;
  }
}
