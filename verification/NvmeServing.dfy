/** Serving a submission ring: what one command changes, when it faults, and when a tail doorbell returns. */
module NvmeServing {
  import opened Wrappers
  import opened MachineTypes
  import DivMod
  import opened GuestMemory
  import opened NvmeRings
  import opened NvmeIo
  import opened NvmeProtocol

  /** An I/O queue of the table is being served. */
  predicate ServingIo(w: Work, qid: uint16) {
    ValidPage(w.dev.page) && w.loose.None? && qid in w.queues && qid != ADMIN_QUEUE
  }

  /* ------------------------------------------------------------------ */
  /* One command.                                                         */
  /* ------------------------------------------------------------------ */

  /** The queues once the head has moved past the command. */
  function Advanced(queues: map<uint16, QueueState>, qid: uint16): map<uint16, QueueState>
    requires qid in queues && queues[qid].ring.size > 0
  {
    queues[qid := PastHead(queues[qid])]
  }

  /** The completion of a command served on `qid` with this status. */
  function CompletionOf(queues: map<uint16, QueueState>, qid: uint16, cid: uint16, status: uint16): Posting
    requires qid in queues && queues[qid].ring.size > 0 && queues[qid].cqID in queues
  {
    var next := Advanced(queues, qid);
    Announced(next[queues[qid].cqID], next[qid], cid, status)
  }

  /**
   A command cannot be served when it cannot be fetched, the device gives up, the ring has no
   slots, its completion queue is gone, or the slot for its completion is not mapped.
   */
  predicate Faults(w: Work, qid: uint16, answer: Fault)
    requires ServingIo(w, qid)
  {
    var q := w.queues[qid];
    match Fetch(w.dev.mem, q)
    case None => true
    case Some(cmd) =>
      match ExecuteIo(w.dev, [], cmd, answer)
      case Error => true
      case Done(dev, status) =>
        q.ring.size == 0 || q.cqID !in w.queues || !CanPost(dev.mem, Advanced(w.queues, qid)[q.cqID])
  }

  /** What one command leaves: its effect on the device, the head moved, and its completion posted. */
  lemma TurnIs(w: Work, qid: uint16, answer: Fault)
    requires ServingIo(w, qid)
    ensures Turn(w, qid, answer).None? <==> Faults(w, qid, answer)
    ensures !Faults(w, qid, answer) ==>
              var q := w.queues[qid];
              var cmd := Fetch(w.dev.mem, q).value;
              var out := ExecuteIo(w.dev, [], cmd, answer);
              var next := Advanced(w.queues, qid);
              var cq := next[q.cqID];
              var mem := Write(out.dev.mem, CompletionAddr(cq), CompletionOf(w.queues, qid, cmd.cid, out.status).Bytes());
              Turn(w, qid, answer) == Some(Work(next[q.cqID := AfterPost(cq)], None, out.dev.(mem := mem)))
  {
    hide ExecuteIo, Fetch, CanPost, PastHead, Post, CompletionAddr, Write, Complete, CompletionOf;
    var q := w.queues[qid];
    match Fetch(w.dev.mem, q)
    case None =>
    case Some(cmd) =>
      match ExecuteIo(w.dev, [], cmd, answer)
      case Error =>
      case Done(dev, status) => CompleteIs(w.(dev := dev), qid, cmd.cid, status);
  }

  lemma CompleteIs(w: Work, qid: uint16, cid: uint16, status: uint16)
    requires ServingIo(w, qid)
    ensures var q := w.queues[qid];
            var bad := q.ring.size == 0 || q.cqID !in w.queues || !CanPost(w.dev.mem, Advanced(w.queues, qid)[q.cqID]);
            && (Complete(w, qid, cid, status).None? <==> bad)
            && (!bad ==>
                  var next := Advanced(w.queues, qid);
                  var cq := next[q.cqID];
                  var mem := Write(w.dev.mem, CompletionAddr(cq), CompletionOf(w.queues, qid, cid, status).Bytes());
                  Complete(w, qid, cid, status)
                  == Some(Work(next[q.cqID := AfterPost(cq)], None, w.dev.(mem := mem))))
  {
    hide CanPost, Post, CompletionAddr, Write;
  }

  /** Wiring of queues is not touched, heads move on, and only the queue and its completion queue change. */
  predicate Moved(before: map<uint16, QueueState>, after: map<uint16, QueueState>, qid: uint16)
    requires qid in before
  {
    && after.Keys == before.Keys && before[qid].ring.size > 0
    && after[qid].ring.sqHead == Next(before[qid].ring.sqHead, before[qid].ring.size)
    && (forall k :: k in before ==>
          && after[k] == before[k].(ring := after[k].ring) && after[k].ring.size == before[k].ring.size
          && (k != qid && k != before[qid].cqID ==> after[k] == before[k]))
  }

  lemma TurnMoves(w: Work, qid: uint16, answer: Fault)
    requires ServingIo(w, qid) && !Faults(w, qid, answer)
    ensures var t := Turn(w, qid, answer); t.Some? && ServingIo(t.value, qid) && Moved(w.queues, t.value.queues, qid)
  {
    TurnIs(w, qid, answer);
    hide Turn, ExecuteIo, Fetch, CanPost, CompletionAddr, Write;
  }

  /* ------------------------------------------------------------------ */
  /* How many commands are due.                                           */
  /* ------------------------------------------------------------------ */

  /** The head can meet the tail: it is there, or the tail is a slot of the ring. */
  predicate Reaches(q: QueueState) { q.ring.sqHead == q.sqTail || q.sqTail < q.ring.size }

  /** Commands to be served before the head meets the tail. */
  function Due(q: QueueState): nat {
    var head, n := q.ring.sqHead, q.ring.size;
    if head == q.sqTail || n == 0 then 0
    else if head < n then Distance(head, q.sqTail, n)
    else 1 + Distance(Next(head, n), q.sqTail, n)
  }

  lemma NextSlot(i: nat, n: nat)
    requires 0 < n < INDEX_LIMIT
    ensures Next(i, n) < n && (i < n ==> Next(i, n) == if i + 1 < n then i + 1 else 0)
  {
    if i < n {
      DivMod.Small(i + 1, INDEX_LIMIT);
      if i + 1 < n {
        DivMod.Small(i + 1, n);
      } else {
        DivMod.Unique(n, n, 1, 0);
      }
    }
  }

  lemma DueNext(q: QueueState, p: QueueState)
    requires 0 < q.ring.size < INDEX_LIMIT && q.ring.sqHead != q.sqTail
    requires p.ring.size == q.ring.size && p.sqTail == q.sqTail && p.ring.sqHead == Next(q.ring.sqHead, q.ring.size)
    ensures Reaches(p) <==> Reaches(q)
    ensures Reaches(q) ==> Due(q) == Due(p) + 1
  {
    hide Next;
    NextSlot(q.ring.sqHead, q.ring.size);
    NextSlot(p.ring.sqHead, q.ring.size);
  }

  /* ------------------------------------------------------------------ */
  /* A tail doorbell.                                                     */
  /* ------------------------------------------------------------------ */

  /** `k` commands served one after the other. */
  function Turns(w: Work, qid: uint16, answers: seq<Fault>, k: nat): Option<Work>
    requires Serving(w, qid) && k <= |answers|
    decreases k
  {
    if k == 0 then Some(w)
    else
      match Turn(w, qid, answers[0])
      case None => None
      case Some(t) => Turns(t, qid, answers[1..], k - 1)
  }

  /** A queue is being served; an I/O queue is in the table. */
  predicate Servable(w: Work, qid: uint16) { Serving(w, qid) && (qid != ADMIN_QUEUE ==> w.loose.None?) }

  /** The admin queue's next command creates the admin queue again. */
  predicate Remakes(w: Work, qid: uint16)
    requires Serving(w, qid)
  {
    qid == ADMIN_QUEUE && w.loose.None? &&
    match Fetch(w.dev.mem, Current(w, qid))
    case None => false
    case Some(cmd) => Manages(cmd) && !Deletes(cmd) && Named(cmd) == ADMIN_QUEUE
  }

  /** No command that is served creates the queue it is served from again. */
  predicate Steady(w: Work, qid: uint16, answers: seq<Fault>)
    requires Serving(w, qid)
    decreases |answers|
  {
    var q := Current(w, qid);
    q.ring.sqHead == q.sqTail || answers == [] ||
    (!Remakes(w, qid) &&
     match Turn(w, qid, answers[0])
     case None => true
     case Some(t) => Steady(t, qid, answers[1..]))
  }

  lemma {:induction false} IoSteady(w: Work, qid: uint16, answers: seq<Fault>)
    requires Serving(w, qid) && qid != ADMIN_QUEUE
    ensures Steady(w, qid, answers)
    decreases |answers|
  {
    hide Turn, Fetch;
    if answers != [] && Turn(w, qid, answers[0]).Some? {
      IoSteady(Turn(w, qid, answers[0]).value, qid, answers[1..]);
    }
  }

  /** The head has moved on by one. */
  predicate Advances(q: QueueState, p: QueueState) {
    && 0 < q.ring.size && p.ring.size == q.ring.size && p.sqTail == q.sqTail
    && p.ring.sqHead == Next(q.ring.sqHead, q.ring.size)
  }

  lemma AdminAdvances(w: Work, cmd: Command)
    requires Serving(w, ADMIN_QUEUE) && AdminTurn(w, cmd).Some?
    requires w.loose.None? && Manages(cmd) && !Deletes(cmd) ==> Named(cmd) != ADMIN_QUEUE
    ensures Advances(Current(w, ADMIN_QUEUE), Current(AdminTurn(w, cmd).value, ADMIN_QUEUE))
  {
    hide AfterData, WithCompletions, WithSubmissions, Named, Write, Mapped, CompletionBytes, Next;
  }

  lemma TurnAdvances(w: Work, qid: uint16, answer: Fault)
    requires Servable(w, qid) && !Remakes(w, qid) && Turn(w, qid, answer).Some?
    ensures var t := Turn(w, qid, answer).value; Servable(t, qid) && Advances(Current(w, qid), Current(t, qid))
  {
    hide AdminTurn, IoTurn, Fetch, Faults, Named, Next;
    if qid == ADMIN_QUEUE {
      AdminAdvances(w, Fetch(w.dev.mem, Current(w, qid)).value);
    } else {
      TurnIs(w, qid, answer);
      TurnMoves(w, qid, answer);
    }
  }

  /** With a tail that can be reached and enough answers, exactly the commands due are served, or one of them faults. */
  lemma {:induction false} ServesWhatIsDue(w: Work, qid: uint16, answers: seq<Fault>)
    requires Servable(w, qid) && Steady(w, qid, answers) && 0 < Current(w, qid).ring.size < INDEX_LIMIT
    requires Reaches(Current(w, qid)) && Due(Current(w, qid)) <= |answers|
    ensures Process(w, qid, answers)
         == match Turns(w, qid, answers, Due(Current(w, qid)))
            case None => Faulted
            case Some(t) => Finished(t)
    decreases |answers|
  {
    hide Turn, Remakes, Reaches, Due;
    var q := Current(w, qid);
    DueNothing(q);
    if q.ring.sqHead != q.sqTail {
      DueSomething(q);
      if Turn(w, qid, answers[0]).Some? {
        TurnAdvances(w, qid, answers[0]);
        var t := Turn(w, qid, answers[0]).value;
        DueNext(q, Current(t, qid));
        ServesWhatIsDue(t, qid, answers[1..]);
      }
    }
  }

  lemma DueNothing(q: QueueState)
    ensures q.ring.sqHead == q.sqTail ==> Due(q) == 0
  {
  }

  lemma DueSomething(q: QueueState)
    requires 0 < q.ring.size < INDEX_LIMIT && Reaches(q) && q.ring.sqHead != q.sqTail
    ensures Due(q) > 0
  {
  }

  /** With a tail that can not be reached the write never returns, however many commands are served. */
  lemma {:induction false} NeverReturns(w: Work, qid: uint16, answers: seq<Fault>)
    requires Servable(w, qid) && Steady(w, qid, answers) && 0 < Current(w, qid).ring.size < INDEX_LIMIT
    requires !Reaches(Current(w, qid))
    ensures !Process(w, qid, answers).Finished?
    decreases |answers|
  {
    hide Turn, Remakes, Due;
    if answers != [] && Turn(w, qid, answers[0]).Some? {
      TurnAdvances(w, qid, answers[0]);
      var t := Turn(w, qid, answers[0]).value;
      DueNext(Current(w, qid), Current(t, qid));
      NeverReturns(t, qid, answers[1..]);
    }
  }

  /** A tail doorbell returns exactly when the tail can be reached and none of the commands due faults. */
  lemma ReturnsIff(w: Work, qid: uint16, answers: seq<Fault>)
    requires Servable(w, qid) && Steady(w, qid, answers) && 0 < Current(w, qid).ring.size < INDEX_LIMIT
    requires Due(Current(w, qid)) <= |answers|
    ensures Process(w, qid, answers).Finished?
       <==> Reaches(Current(w, qid)) && Turns(w, qid, answers, Due(Current(w, qid))).Some?
  {
    hide Process, Turns, Reaches, Due, Steady;
    if Reaches(Current(w, qid)) {
      ServesWhatIsDue(w, qid, answers);
    } else {
      NeverReturns(w, qid, answers);
    }
  }

  /** More answers than are used make no difference. */
  lemma {:induction false} EnoughAnswers(w: Work, qid: uint16, answers: seq<Fault>, more: seq<Fault>)
    requires Serving(w, qid) && Process(w, qid, answers).Finished?
    ensures Process(w, qid, answers + more) == Process(w, qid, answers)
    decreases |answers|
  {
    hide Turn;
    var q := Current(w, qid);
    if q.ring.sqHead != q.sqTail {
      assert (answers + more)[0] == answers[0] && (answers + more)[1..] == answers[1..] + more;
      EnoughAnswers(Turn(w, qid, answers[0]).value, qid, answers[1..], more);
    }
  }
}
