/** The retransmission queue of a TCP connection. */
module TcpSend {
  import opened Wrappers
  import opened MachineTypes

  import opened TcpSequence

  datatype Segment = Segment(start: uint32, end: uint32, payload: seq<byte>, sentAt: int, retxCount: nat)

  /* ------------------------------------------------------------------ */
  /* Meaning of the queue operations.                                     */
  /* ------------------------------------------------------------------ */

  /** Payload bytes held by `segs`. */
  function Total(segs: seq<Segment>): nat {
    if segs == [] then 0 else |segs[0].payload| + Total(segs[1..])
  }

  /** The bytes themselves, oldest first. */
  function Bytes(segs: seq<Segment>): seq<byte> {
    if segs == [] then [] else segs[0].payload + Bytes(segs[1..])
  }

  /** Segments not covered by acknowledgment number `ackNum`. */
  function Unacked(segs: seq<Segment>, ackNum: uint32): (r: seq<Segment>)
    ensures |r| <= |segs|
  {
    if segs == [] then []
    else if SeqLTE(segs[0].end, ackNum) then Unacked(segs[1..], ackNum)
    else [segs[0]] + Unacked(segs[1..], ackNum)
  }

  function AckedBytes(segs: seq<Segment>, ackNum: uint32): nat {
    if segs == [] then 0
    else (if SeqLTE(segs[0].end, ackNum) then |segs[0].payload| else 0) + AckedBytes(segs[1..], ackNum)
  }

  /** Send time of the first acknowledged segment that was never retransmitted. */
  function FirstSample(segs: seq<Segment>, ackNum: uint32): Option<int> {
    if segs == [] then None
    else if SeqLTE(segs[0].end, ackNum) && segs[0].retxCount == 0 then Some(segs[0].sentAt)
    else FirstSample(segs[1..], ackNum)
  }

  /** The oldest `n` segments sent again at `now`. */
  function Resent(segs: seq<Segment>, n: int, now: int): (r: seq<Segment>)
    ensures |r| == |segs|
  {
    if segs == [] || n <= 0 then segs
    else [segs[0].(retxCount := segs[0].retxCount + 1, sentAt := now)] + Resent(segs[1..], n - 1, now)
  }

  /**
   A sample is the send time of a segment that is acknowledged and was sent once, and of the
   first of those; there is none exactly when no acknowledged segment was sent once.
   */
  lemma {:induction false} SampleIff(segs: seq<Segment>, ackNum: uint32, i: nat)
    requires i < |segs| && SeqLTE(segs[i].end, ackNum) && segs[i].retxCount == 0
    requires forall k :: 0 <= k < i ==> !SeqLTE(segs[k].end, ackNum) || segs[k].retxCount > 0
    ensures FirstSample(segs, ackNum) == Some(segs[i].sentAt)
  {
    if i > 0 {
      SampleIff(segs[1..], ackNum, i - 1);
    }
  }

  lemma {:induction false} NoSample(segs: seq<Segment>, ackNum: uint32)
    requires forall k :: 0 <= k < |segs| ==> !SeqLTE(segs[k].end, ackNum) || segs[k].retxCount > 0
    ensures FirstSample(segs, ackNum) == None
  {
    if segs != [] {
      NoSample(segs[1..], ackNum);
    }
  }

  lemma TotalAppend(segs: seq<Segment>, seg: Segment)
    ensures Total(segs + [seg]) == Total(segs) + |seg.payload|
  {
    if segs == [] {
      assert (segs + [seg])[1..] == [];
    } else {
      TotalAppend(segs[1..], seg);
      assert (segs + [seg])[1..] == segs[1..] + [seg];
    }
  }

  lemma BytesAppend(segs: seq<Segment>, seg: Segment)
    ensures Bytes(segs + [seg]) == Bytes(segs) + seg.payload
  {
    if segs == [] {
      assert (segs + [seg])[1..] == [];
    } else {
      BytesAppend(segs[1..], seg);
      assert (segs + [seg])[1..] == segs[1..] + [seg];
    }
  }

  lemma BytesLength(segs: seq<Segment>)
    ensures |Bytes(segs)| == Total(segs)
  {
  }

  /** Acknowledging splits the queued bytes: removed and kept add up. */
  lemma AckConserves(segs: seq<Segment>, ackNum: uint32)
    ensures AckedBytes(segs, ackNum) + Total(Unacked(segs, ackNum)) == Total(segs)
  {
    if segs != [] {
      AckConserves(segs[1..], ackNum);
      var u := Unacked(segs[1..], ackNum);
      assert ([segs[0]] + u)[1..] == u;
    }
  }

  lemma {:induction false} UnackedAppend(done: seq<Segment>, seg: Segment, ackNum: uint32)
    ensures Unacked(done + [seg], ackNum)
         == Unacked(done, ackNum) + (if SeqLTE(seg.end, ackNum) then [] else [seg])
  {
    if done == [] {
      assert (done + [seg])[1..] == [];
    } else {
      UnackedAppend(done[1..], seg, ackNum);
      assert (done + [seg])[1..] == done[1..] + [seg];
    }
  }

  lemma {:induction false} AckedBytesAppend(done: seq<Segment>, seg: Segment, ackNum: uint32)
    ensures AckedBytes(done + [seg], ackNum)
         == AckedBytes(done, ackNum) + (if SeqLTE(seg.end, ackNum) then |seg.payload| else 0)
  {
    if done == [] {
      assert (done + [seg])[1..] == [];
    } else {
      AckedBytesAppend(done[1..], seg, ackNum);
      assert (done + [seg])[1..] == done[1..] + [seg];
    }
  }

  lemma {:induction false} FirstSampleAppend(done: seq<Segment>, seg: Segment, ackNum: uint32)
    ensures FirstSample(done + [seg], ackNum)
         == (if FirstSample(done, ackNum).Some? then FirstSample(done, ackNum)
             else if SeqLTE(seg.end, ackNum) && seg.retxCount == 0 then Some(seg.sentAt) else None)
  {
    if done == [] {
      assert (done + [seg])[1..] == [];
    } else {
      FirstSampleAppend(done[1..], seg, ackNum);
      assert (done + [seg])[1..] == done[1..] + [seg];
    }
  }

  /** Sending again changes no bytes and no sequence number. */
  lemma {:induction false} ResentKeeps(segs: seq<Segment>, n: int, now: int)
    ensures Total(Resent(segs, n, now)) == Total(segs) && Bytes(Resent(segs, n, now)) == Bytes(segs)
  {
    if segs != [] && n > 0 {
      ResentKeeps(segs[1..], n - 1, now);
      assert Resent(segs, n, now)[1..] == Resent(segs[1..], n - 1, now);
    }
  }

  lemma {:induction false} ResentAt(segs: seq<Segment>, n: int, now: int, i: nat)
    requires i < |segs|
    ensures var q := Resent(segs, n, now)[i];
            && q.start == segs[i].start && q.end == segs[i].end && q.payload == segs[i].payload
            && (i < n ==> q.retxCount == segs[i].retxCount + 1 && q.sentAt == now)
            && (i >= n ==> q == segs[i])
  {
    if n > 0 && i > 0 {
      ResentAt(segs[1..], n - 1, now, i - 1);
    }
  }

  lemma {:induction false} ResentNext(segs: seq<Segment>, i: nat, now: int)
    requires i < |segs|
    ensures var r := Resent(segs, i, now);
            Resent(segs, i + 1, now) == r[i := r[i].(retxCount := r[i].retxCount + 1, sentAt := now)]
  {
    if i > 0 {
      ResentNext(segs[1..], i - 1, now);
    }
  }

  lemma {:induction false} ResentEnough(segs: seq<Segment>, i: nat, n: int, now: int)
    requires i == n || (i == 0 && n <= 0) || |segs| == i <= n
    ensures Resent(segs, i, now) == Resent(segs, n, now)
  {
    if segs != [] && i > 0 && n > 0 {
      ResentEnough(segs[1..], i - 1, n - 1, now);
    }
  }

  /* ------------------------------------------------------------------ */
  /* The queue.                                                          */
  /* ------------------------------------------------------------------ */

  class SendBuffer {
    var segments: seq<Segment>
    var used: int
    const capacity: int

    /** `used` counts the queued payload bytes and never passes the capacity. */
    ghost predicate Valid()
      reads this
    {
      used == Total(segments) && (used == 0 || used <= capacity)
    }

    constructor (capacity: int)
      ensures Valid() && segments == [] && this.capacity == capacity
    {
      segments := [];
      used := 0;
      this.capacity := capacity;
    }

    method Append(seg: Segment) returns (ok: bool)
      requires Valid()
      modifies this
      ensures Valid()
      ensures ok <==> Total(old(segments)) + |seg.payload| <= capacity
      ensures segments == if ok then old(segments) + [seg] else old(segments)
    {
      if used + |seg.payload| > capacity {
        return false;
      }
      TotalAppend(segments, seg);
      segments := segments + [seg];
      used := used + |seg.payload|;
      ok := true;
    }

    /** Removes every segment that ends at or before `ackNum`. */
    method Ack(ackNum: uint32, now: int) returns (bytesAcked: int, rttSample: int, hasRTT: bool)
      requires Valid()
      modifies this
      ensures Valid()
      ensures segments == Unacked(old(segments), ackNum)
      ensures bytesAcked == AckedBytes(old(segments), ackNum) == old(used) - used
      ensures hasRTT <==> FirstSample(old(segments), ackNum).Some?
      ensures hasRTT ==> rttSample == now - FirstSample(old(segments), ackNum).value
    {
      bytesAcked, rttSample, hasRTT := 0, 0, false;
      var kept := [];
      for i := 0 to |segments|
        invariant segments == old(segments)
        invariant kept == Unacked(segments[..i], ackNum)
        invariant bytesAcked == AckedBytes(segments[..i], ackNum)
        invariant used == old(used) - bytesAcked
        invariant hasRTT <==> FirstSample(segments[..i], ackNum).Some?
        invariant hasRTT ==> rttSample == now - FirstSample(segments[..i], ackNum).value
      {
        var seg := segments[i];
        UnackedAppend(segments[..i], seg, ackNum);
        AckedBytesAppend(segments[..i], seg, ackNum);
        FirstSampleAppend(segments[..i], seg, ackNum);
        assert segments[..i] + [seg] == segments[..i + 1];
        if SeqLTE(seg.end, ackNum) {
          bytesAcked := bytesAcked + |seg.payload|;
          used := used - |seg.payload|;
          if seg.retxCount == 0 && !hasRTT {
            rttSample := now - seg.sentAt;
            hasRTT := true;
          }
        } else {
          kept := kept + [seg];
        }
      }
      assert segments[..|segments|] == segments;
      AckConserves(segments, ackNum);
      segments := kept;
    }

    method Oldest() returns (seg: Option<Segment>)
      ensures seg == if segments == [] then None else Some(segments[0])
    {
      seg := if segments == [] then None else Some(segments[0]);
    }

    /** Counts a retransmission of the oldest `n` segments. */
    method MarkRetransmittedN(n: int, now: int)
      requires Valid()
      modifies this
      ensures Valid() && used == old(used)
      ensures segments == Resent(old(segments), n, now)
    {
      ResentKeeps(segments, n, now);
      var i := 0;
      while i < n && i < |segments|
        invariant 0 <= i <= |segments| == |old(segments)| && used == old(used)
        invariant segments == Resent(old(segments), i, now)
        invariant i <= n || i == 0
      {
        ResentNext(old(segments), i, now);
        segments := segments[i := segments[i].(retxCount := segments[i].retxCount + 1, sentAt := now)];
        i := i + 1;
      }
      ResentEnough(old(segments), i, n, now);
    }

    method Clear()
      requires Valid()
      modifies this
      ensures Valid() && segments == [] && used == 0
    {
      segments := [];
      used := 0;
    }
  }

  /* ------------------------------------------------------------------ */
  /* Contiguous queues.                                                   */
  /* ------------------------------------------------------------------ */

  /** Segments that follow each other without a gap from stream position `pos`. */
  predicate Chain(isn: uint32, pos: int, segs: seq<Segment>)
    decreases |segs|
  {
    segs == [] ||
    (var next := pos + |segs[0].payload|;
     segs[0].start == Wire(isn, pos) && segs[0].end == Wire(isn, next) && Chain(isn, next, segs[1..]))
  }

  /** How many leading segments end at or before position `a`. */
  function Covered(pos: int, a: int, segs: seq<Segment>): (k: nat)
    ensures k <= |segs|
    decreases |segs|
  {
    if segs == [] || pos + |segs[0].payload| > a then 0
    else 1 + Covered(pos + |segs[0].payload|, a, segs[1..])
  }

  /** An acknowledgment before the first segment's end removes nothing. */
  lemma {:induction false} AckBelow(isn: uint32, pos: int, a: int, segs: seq<Segment>)
    requires Chain(isn, pos, segs) && a < pos && pos + Total(segs) - a < HALF
    ensures Unacked(segs, Wire(isn, a)) == segs && AckedBytes(segs, Wire(isn, a)) == 0
    decreases |segs|
  {
    if segs != [] {
      var next := pos + |segs[0].payload|;
      WireOrder(isn, next, a);
      AckBelow(isn, next, a, segs[1..]);
    }
  }

  /** The leading `k` segments are the acknowledged ones, and the rest still follows on. */
  predicate RemovesPrefix(isn: uint32, pos: int, a: int, segs: seq<Segment>, k: nat) {
    && k <= |segs|
    && Unacked(segs, Wire(isn, a)) == segs[k..]
    && AckedBytes(segs, Wire(isn, a)) == Total(segs[..k])
    && (k > 0 ==> pos + Total(segs[..k]) <= a)
    && (k < |segs| ==> a < pos + Total(segs[..k + 1]))
    && Chain(isn, pos + Total(segs[..k]), segs[k..])
  }

  lemma TotalCons(segs: seq<Segment>, k: nat)
    requires 0 < k <= |segs|
    ensures Total(segs[..k]) == |segs[0].payload| + Total(segs[1..][..k - 1])
  {
    assert segs[..k][1..] == segs[1..][..k - 1];
  }

  lemma RemovesOneMore(isn: uint32, pos: int, a: int, segs: seq<Segment>, k: nat)
    requires segs != [] && SeqLTE(segs[0].end, Wire(isn, a)) && pos + |segs[0].payload| <= a
    requires RemovesPrefix(isn, pos + |segs[0].payload|, a, segs[1..], k)
    ensures RemovesPrefix(isn, pos, a, segs, k + 1)
  {
    TotalCons(segs, k + 1);
    if k < |segs[1..]| {
      TotalCons(segs, k + 2);
    }
    assert segs[1..][k..] == segs[k + 1..];
  }

  /**
   An acknowledgment near the window removes exactly the leading segments that
   end at or before it, reports exactly their bytes, and leaves a contiguous
   suffix that starts where the removed part ended.
   */
  lemma {:induction false} AckRemovesPrefix(isn: uint32, pos: int, a: int, segs: seq<Segment>)
    requires Chain(isn, pos, segs)
    requires Near(pos, a) && Near(pos + Total(segs), a)
    ensures RemovesPrefix(isn, pos, a, segs, Covered(pos, a, segs))
    decreases |segs|
  {
    if segs != [] {
      var next := pos + |segs[0].payload|;
      WireOrder(isn, next, a);
      if next <= a {
        AckRemovesPrefix(isn, next, a, segs[1..]);
        RemovesOneMore(isn, pos, a, segs, Covered(next, a, segs[1..]));
      } else {
        AckBelow(isn, next, a, segs[1..]);
        TotalCons(segs, 1);
        assert segs[0..] == segs && segs[..0] == [];
      }
    }
  }

  /* ------------------------------------------------------------------ */
  /* Whole runs of a sender.                                              */
  /* ------------------------------------------------------------------ */

  datatype Event = Push(payload: seq<byte>, sentAt: int) | AckTo(pos: int) | Resend(n: int, now: int)

  /** Queue plus the bytes accepted and acknowledged since the connection began. */
  datatype Sender = Sender(queue: seq<Segment>, accepted: seq<byte>, acked: nat)

  function Step(s: Sender, e: Event, isn: uint32, capacity: int): Sender {
    match e
    case Push(payload, sentAt) =>
      if Total(s.queue) + |payload| > capacity then s
      else
        var seg := Segment(Wire(isn, |s.accepted|), Wire(isn, |s.accepted| + |payload|), payload, sentAt, 0);
        s.(queue := s.queue + [seg], accepted := s.accepted + payload)
    case AckTo(a) =>
      s.(queue := Unacked(s.queue, Wire(isn, a)), acked := s.acked + AckedBytes(s.queue, Wire(isn, a)))
    case Resend(n, now) => s.(queue := Resent(s.queue, n, now))
  }

  /** The peer acknowledges only positions between the first unacknowledged byte and the last sent. */
  predicate Legal(s: Sender, e: Event) {
    e.AckTo? ==> s.acked <= e.pos <= |s.accepted|
  }

  /** The queue is the unacknowledged end of everything accepted, in order, within capacity. */
  predicate Consistent(s: Sender, isn: uint32, capacity: nat) {
    && s.acked <= |s.accepted|
    && Chain(isn, s.acked, s.queue)
    && Bytes(s.queue) == s.accepted[s.acked..]
    && Total(s.queue) <= capacity
  }

  lemma {:induction false} ChainAppend(isn: uint32, pos: int, segs: seq<Segment>, seg: Segment)
    requires Chain(isn, pos, segs)
    requires seg.start == Wire(isn, pos + Total(segs))
    requires seg.end == Wire(isn, pos + Total(segs) + |seg.payload|)
    ensures Chain(isn, pos, segs + [seg])
    decreases |segs|
  {
    if segs == [] {
      assert (segs + [seg])[1..] == [];
    } else {
      ChainAppend(isn, pos + |segs[0].payload|, segs[1..], seg);
      assert (segs + [seg])[1..] == segs[1..] + [seg];
    }
  }

  lemma {:induction false} BytesSplit(segs: seq<Segment>, k: nat)
    requires k <= |segs|
    ensures Bytes(segs) == Bytes(segs[..k]) + Bytes(segs[k..])
  {
    if k == 0 {
      assert segs[..0] == [] && segs[0..] == segs;
    } else {
      BytesSplit(segs[1..], k - 1);
      var front, back := Bytes(segs[1..][..k - 1]), Bytes(segs[k..]);
      assert segs[1..][k - 1..] == segs[k..];
      assert segs[..k][1..] == segs[1..][..k - 1];
      assert segs[0].payload + (front + back) == (segs[0].payload + front) + back;
    }
  }

  lemma PushConsistent(s: Sender, e: Event, isn: uint32, capacity: nat)
    requires Consistent(s, isn, capacity) && e.Push? && Total(s.queue) + |e.payload| <= capacity
    ensures Consistent(Step(s, e, isn, capacity), isn, capacity)
  {
    BytesLength(s.queue);
    var t := Step(s, e, isn, capacity);
    var seg := t.queue[|s.queue|];
    ChainAppend(isn, s.acked, s.queue, seg);
    TotalAppend(s.queue, seg);
    BytesAppend(s.queue, seg);
    assert t.accepted[s.acked..] == s.accepted[s.acked..] + e.payload;
  }

  lemma AckConsistent(s: Sender, e: Event, isn: uint32, capacity: nat)
    requires Consistent(s, isn, capacity) && e.AckTo? && Legal(s, e) && capacity < HALF
    ensures Consistent(Step(s, e, isn, capacity), isn, capacity)
  {
    BytesLength(s.queue);
    AckRemovesPrefix(isn, s.acked, e.pos, s.queue);
    var k := Covered(s.acked, e.pos, s.queue);
    var n := Total(s.queue[..k]);
    BytesSplit(s.queue, k);
    BytesLength(s.queue[..k]);
    BytesLength(s.queue[k..]);
    AckConserves(s.queue, Wire(isn, e.pos));
    assert Bytes(s.queue[k..]) == s.accepted[s.acked..][n..];
    assert s.accepted[s.acked..][n..] == s.accepted[s.acked + n..];
  }

  lemma {:induction false} ResentChain(isn: uint32, pos: int, segs: seq<Segment>, n: int, now: int)
    requires Chain(isn, pos, segs)
    ensures Chain(isn, pos, Resent(segs, n, now))
    decreases |segs|
  {
    if segs != [] && n > 0 {
      ResentChain(isn, pos + |segs[0].payload|, segs[1..], n - 1, now);
      assert Resent(segs, n, now)[1..] == Resent(segs[1..], n - 1, now);
    }
  }

  /** Every legal event keeps the sender consistent. */
  lemma StepConsistent(s: Sender, e: Event, isn: uint32, capacity: nat)
    requires Consistent(s, isn, capacity) && Legal(s, e) && capacity < HALF
    ensures Consistent(Step(s, e, isn, capacity), isn, capacity)
  {
    if e.AckTo? {
      AckConsistent(s, e, isn, capacity);
    } else if e.Resend? {
      ResentKeeps(s.queue, e.n, e.now);
      ResentChain(isn, s.acked, s.queue, e.n, e.now);
    } else if Total(s.queue) + |e.payload| <= capacity {
      PushConsistent(s, e, isn, capacity);
    }
  }

  function Run(events: seq<Event>, isn: uint32, capacity: int): Sender {
    if events == [] then Sender([], [], 0)
    else Step(Run(events[..|events| - 1], isn, capacity), events[|events| - 1], isn, capacity)
  }

  predicate LegalRun(events: seq<Event>, isn: uint32, capacity: int) {
    events == [] ||
    (var front := events[..|events| - 1];
     Legal(Run(front, isn, capacity), events[|events| - 1]) && LegalRun(front, isn, capacity))
  }

  /**
   In every run: the queue holds exactly the accepted bytes that have not been
   reported as acknowledged, in order and without gap, and within capacity.
   */
  lemma {:induction false} QueueHoldsUnacked(events: seq<Event>, isn: uint32, capacity: nat)
    requires LegalRun(events, isn, capacity) && capacity < HALF
    ensures var s := Run(events, isn, capacity);
            && Consistent(s, isn, capacity)
            && s.acked + Total(s.queue) == |s.accepted|
  {
    if events != [] {
      var front := events[..|events| - 1];
      QueueHoldsUnacked(front, isn, capacity);
      StepConsistent(Run(front, isn, capacity), events[|events| - 1], isn, capacity);
    }
    BytesLength(Run(events, isn, capacity).queue);
  }

  /* ------------------------------------------------------------------ */
  /* What a round-trip sample measures.                                   */
  /* ------------------------------------------------------------------ */

  predicate Pushed(events: seq<Event>, payload: seq<byte>, at: int) {
    exists j :: 0 <= j < |events| && events[j] == Push(payload, at)
  }

  predicate SentAgain(events: seq<Event>, at: int) {
    exists j :: 0 <= j < |events| && events[j].Resend? && events[j].now == at
  }

  /** A segment counted as sent once carries the time of its push, any other the time of a retransmission. */
  predicate Stamped(events: seq<Event>, seg: Segment) {
    if seg.retxCount == 0 then Pushed(events, seg.payload, seg.sentAt) else SentAgain(events, seg.sentAt)
  }

  lemma StampedLater(events: seq<Event>, seg: Segment)
    requires events != [] && Stamped(events[..|events| - 1], seg)
    ensures Stamped(events, seg)
  {
    var front := events[..|events| - 1];
    if seg.retxCount == 0 {
      var j :| 0 <= j < |front| && front[j] == Push(seg.payload, seg.sentAt);
      assert events[j] == front[j];
    } else {
      var j :| 0 <= j < |front| && front[j].Resend? && front[j].now == seg.sentAt;
      assert events[j] == front[j];
    }
  }

  lemma {:induction false} UnackedFrom(segs: seq<Segment>, ackNum: uint32, seg: Segment)
    requires seg in Unacked(segs, ackNum)
    ensures seg in segs
  {
    if seg != segs[0] {
      UnackedFrom(segs[1..], ackNum, seg);
    }
  }

  /** In every run each queued segment is stamped with when it was last sent. */
  lemma {:induction false} QueueStamped(events: seq<Event>, isn: uint32, capacity: int, seg: Segment)
    requires seg in Run(events, isn, capacity).queue
    ensures Stamped(events, seg)
  {
    hide Stamped, SeqLTE;
    var front, e := events[..|events| - 1], events[|events| - 1];
    var queue := Run(front, isn, capacity).queue;
    if seg in queue {
      QueueStamped(front, isn, capacity, seg);
      StampedLater(events, seg);
    } else {
      match e
      case Push(payload, sentAt) => PushStamps(events, seg);
      case AckTo(a) => UnackedFrom(queue, Wire(isn, a), seg);
      case Resend(n, now) =>
        var i :| 0 <= i < |queue| && Resent(queue, n, now)[i] == seg;
        ResentAt(queue, n, now, i);
        ResendStamps(events, seg);
    }
  }

  lemma PushStamps(events: seq<Event>, seg: Segment)
    requires events != [] && events[|events| - 1] == Push(seg.payload, seg.sentAt) && seg.retxCount == 0
    ensures Stamped(events, seg)
  {
  }

  lemma ResendStamps(events: seq<Event>, seg: Segment)
    requires events != [] && events[|events| - 1].Resend? && events[|events| - 1].now == seg.sentAt && seg.retxCount > 0
    ensures Stamped(events, seg)
  {
  }

  lemma {:induction false} SampleFrom(segs: seq<Segment>, ackNum: uint32) returns (seg: Segment)
    requires FirstSample(segs, ackNum).Some?
    ensures seg in segs && SeqLTE(seg.end, ackNum) && seg.retxCount == 0
    ensures FirstSample(segs, ackNum) == Some(seg.sentAt)
  {
    if SeqLTE(segs[0].end, ackNum) && segs[0].retxCount == 0 {
      seg := segs[0];
    } else {
      seg := SampleFrom(segs[1..], ackNum);
    }
  }

  /** In every run a sample measures from the push of an acknowledged segment, never from a retransmission. */
  lemma SamplesMeasurePushes(events: seq<Event>, isn: uint32, capacity: int, ackNum: uint32) returns (seg: Segment)
    requires FirstSample(Run(events, isn, capacity).queue, ackNum).Some?
    ensures seg in Run(events, isn, capacity).queue && SeqLTE(seg.end, ackNum)
    ensures FirstSample(Run(events, isn, capacity).queue, ackNum) == Some(seg.sentAt)
    ensures Pushed(events, seg.payload, seg.sentAt)
  {
    hide SeqLTE;
    seg := SampleFrom(Run(events, isn, capacity).queue, ackNum);
    QueueStamped(events, isn, capacity, seg);
  }

  /** A sender that never sends anything again gets a sample from every acknowledgment that covers a segment. */
  lemma SamplesWhileFresh(events: seq<Event>, isn: uint32, capacity: int, ackNum: uint32, i: nat)
    requires forall j :: 0 <= j < |events| ==> !events[j].Resend?
    requires var queue := Run(events, isn, capacity).queue;
             i < |queue| && SeqLTE(queue[i].end, ackNum) && forall k :: 0 <= k < i ==> !SeqLTE(queue[k].end, ackNum)
    ensures FirstSample(Run(events, isn, capacity).queue, ackNum) == Some(Run(events, isn, capacity).queue[i].sentAt)
  {
    hide SeqLTE, Run;
    var queue := Run(events, isn, capacity).queue;
    QueueStamped(events, isn, capacity, queue[i]);
    SampleIff(queue, ackNum, i);
  }
}
