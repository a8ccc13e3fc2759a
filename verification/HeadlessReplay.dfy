/**
 Idempotency keys of the headless control server. Requests are interleaved at the
 points where they take the server's mutex, finish their mutation or answer.
 */
module HeadlessReplay {
  import opened Wrappers

  type Key = nat
  type Body = string
  type RequestId = nat

  datatype Response = Response(status: nat, header: map<string, seq<string>>, body: string)

  /** What was first asked under a key, and the recorded answer once `done` is closed. */
  datatype Replay = Replay(request: Body, response: Option<Response>)

  datatype Stage =
    | Mutating                   // runs the mutation for its key
    | Recorded(made: Response)   // response stored, not yet sent
    | WaitingFirst               // repeat, waits for the first to finish
    | Answered(sent: Response)
    | Conflict                   // 409: key used for another request
    | ShuttingDown               // 503
    | Abandoned                  // its context ended before an answer

  datatype Request = Request(key: Key, body: Body, stage: Stage)

  /** `mutations` counts the times a mutation was started under each key. */
  datatype Server = Server(replays: map<Key, Replay>, requests: map<RequestId, Request>,
                           mutations: map<Key, nat>, closing: bool)

  const INITIAL := Server(map[], map[], map[], false)

  datatype Action =
    | Arrive(r: RequestId, key: Key, body: Body, shutdown: bool)
    | MutationReturns(r: RequestId, response: Response)
    | SendFirst(r: RequestId)
    | SendRepeat(r: RequestId)
    | Abandon(r: RequestId)
    | BeginClosing

  function Count(s: Server, key: Key): nat {
    if key in s.mutations then s.mutations[key] else 0
  }

  function At(s: Server, r: RequestId, stage: Stage): Server
    requires r in s.requests
  {
    s.(requests := s.requests[r := s.requests[r].(stage := stage)])
  }

  /** The critical section on arrival: repeat, conflict, refusal or first use. */
  function Admit(s: Server, r: RequestId, key: Key, body: Body, shutdown: bool): Server {
    if key in s.replays then
      s.(requests := s.requests[r := Request(key, body, if s.replays[key].request != body then Conflict else WaitingFirst)])
    else if s.closing && !shutdown then
      s.(requests := s.requests[r := Request(key, body, ShuttingDown)])
    else
      s.(replays := s.replays[key := Replay(body, None)],
         requests := s.requests[r := Request(key, body, Mutating)],
         mutations := s.mutations[key := Count(s, key) + 1])
  }

  function Step(s: Server, a: Action): Option<Server> {
    match a
    case Arrive(r, key, body, shutdown) =>
      if r in s.requests then None else Some(Admit(s, r, key, body, shutdown))
    case MutationReturns(r, response) =>
      if r !in s.requests || s.requests[r].stage != Mutating || s.requests[r].key !in s.replays then None
      else
        var key := s.requests[r].key;
        Some(At(s.(replays := s.replays[key := s.replays[key].(response := Some(response))]), r, Recorded(response)))
    case SendFirst(r) =>
      if r !in s.requests || !s.requests[r].stage.Recorded? then None
      else Some(At(s, r, Answered(s.requests[r].stage.made)))
    case SendRepeat(r) =>
      if r !in s.requests || s.requests[r].stage != WaitingFirst || s.requests[r].key !in s.replays then None
      else
        var recorded := s.replays[s.requests[r].key].response;
        if recorded.None? then None else Some(At(s, r, Answered(recorded.value)))
    case Abandon(r) =>
      if r !in s.requests || s.requests[r].stage != WaitingFirst then None else Some(At(s, r, Abandoned))
    case BeginClosing => Some(s.(closing := true))
  }

  function Run(actions: seq<Action>): Option<Server> {
    if actions == [] then Some(INITIAL)
    else
      match Run(actions[..|actions| - 1])
      case None => None
      case Some(s) => Step(s, actions[|actions| - 1])
  }

  /* ------------------------------------------------------------------ */
  /* The invariant.                                                       */
  /* ------------------------------------------------------------------ */

  /** Each stage agrees with what is recorded under the request's key. */
  predicate RequestOk(s: Server, q: Request) {
    q.stage != ShuttingDown ==>
      && q.key in s.replays
      && (q.stage == Conflict <==> s.replays[q.key].request != q.body)
      && (q.stage == Mutating ==> s.replays[q.key].response == None)
      && (q.stage.Recorded? ==> s.replays[q.key].response == Some(q.stage.made))
      && (q.stage.Answered? ==> s.replays[q.key].response == Some(q.stage.sent))
  }

  predicate RequestsOk(s: Server) {
    forall r :: r in s.requests ==> RequestOk(s, s.requests[r])
  }

  /** A key has one mutation, started when its replay was created. */
  ghost predicate CountsOk(s: Server) {
    forall k :: Count(s, k) == if k in s.replays then 1 else 0
  }

  predicate SameMutation(p: Request, q: Request) {
    p.stage == Mutating && q.stage == Mutating && p.key == q.key
  }

  /** No two requests run the mutation of one key. */
  predicate OneMutator(s: Server) {
    forall r, q :: r in s.requests && q in s.requests && SameMutation(s.requests[r], s.requests[q]) ==> r == q
  }

  ghost predicate Inv(s: Server) { RequestsOk(s) && CountsOk(s) && OneMutator(s) }

  lemma AdmitKeeps(s: Server, r: RequestId, key: Key, body: Body, shutdown: bool)
    requires Inv(s) && r !in s.requests
    ensures Inv(Admit(s, r, key, body, shutdown))
  {
    var s' := Admit(s, r, key, body, shutdown);
    forall q | q in s'.requests ensures RequestOk(s', s'.requests[q]) {
      if q != r {
        assert RequestOk(s, s.requests[q]);
      }
    }
    if key !in s.replays {
      forall q | q in s.requests ensures s.requests[q].stage == Mutating ==> s.requests[q].key != key {
        assert RequestOk(s, s.requests[q]);
      }
    }
  }

  lemma StepKeeps(s: Server, a: Action)
    requires Inv(s) && Step(s, a).Some?
    ensures Inv(Step(s, a).value)
  {
    var s' := Step(s, a).value;
    if a.Arrive? {
      AdmitKeeps(s, a.r, a.key, a.body, a.shutdown);
    } else if !a.BeginClosing? {
      assert RequestOk(s, s.requests[a.r]);
      forall q | q in s'.requests ensures RequestOk(s', s'.requests[q]) {
        assert RequestOk(s, s.requests[q]);
      }
    }
  }

  lemma {:induction false} RunKeeps(actions: seq<Action>)
    requires Run(actions).Some?
    ensures Inv(Run(actions).value)
  {
    if actions != [] {
      var n := |actions| - 1;
      RunKeeps(actions[..n]);
      StepKeeps(Run(actions[..n]).value, actions[n]);
    }
  }

  /* ------------------------------------------------------------------ */
  /* What clients can rely on.                                            */
  /* ------------------------------------------------------------------ */

  /** In every interleaving each key runs its mutation at most once. */
  lemma MutatesAtMostOnce(actions: seq<Action>, key: Key)
    requires Run(actions).Some?
    ensures Count(Run(actions).value, key) <= 1
  {
    RunKeeps(actions);
  }

  /** Two answered requests under one key asked the same and got the same status, headers and body. */
  lemma RepeatsGetFirstAnswer(actions: seq<Action>, r: RequestId, q: RequestId)
    requires Run(actions).Some?
    requires var s := Run(actions).value;
             && r in s.requests && q in s.requests && s.requests[r].key == s.requests[q].key
             && s.requests[r].stage.Answered? && s.requests[q].stage.Answered?
    ensures var s := Run(actions).value;
            s.requests[r].body == s.requests[q].body && s.requests[r].stage.sent == s.requests[q].stage.sent
  {
    RunKeeps(actions);
    var s := Run(actions).value;
    assert RequestOk(s, s.requests[r]) && RequestOk(s, s.requests[q]);
  }

  /** A request that differs from the first one under its key is refused, and only such a request is. */
  lemma OtherRequestRefused(actions: seq<Action>, r: RequestId)
    requires Run(actions).Some?
    requires var s := Run(actions).value; r in s.requests && s.requests[r].stage != ShuttingDown
    ensures var s := Run(actions).value; var q := s.requests[r];
            q.key in s.replays && (q.stage == Conflict <==> s.replays[q.key].request != q.body)
  {
    RunKeeps(actions);
    assert RequestOk(Run(actions).value, Run(actions).value.requests[r]);
  }

  /** What a key was first used for never changes, nor does its recorded answer. */
  lemma {:induction false} RecordIsKept(actions: seq<Action>, n: nat, key: Key)
    requires n <= |actions| && Run(actions).Some? && Run(actions[..n]).Some? && key in Run(actions[..n]).value.replays
    ensures key in Run(actions).value.replays
    ensures var was, now := Run(actions[..n]).value.replays[key], Run(actions).value.replays[key];
            now.request == was.request && (was.response.Some? ==> now.response == was.response)
    decreases |actions|
  {
    if n == |actions| {
      assert actions[..n] == actions;
    } else {
      var m := |actions| - 1;
      assert actions[..m][..n] == actions[..n];
      RecordIsKept(actions[..m], n, key);
      RunKeeps(actions[..m]);
      RecordKeptByStep(Run(actions[..m]).value, actions[m], key);
    }
  }

  lemma RecordKeptByStep(s: Server, a: Action, key: Key)
    requires Inv(s) && Step(s, a).Some? && key in s.replays
    ensures var s' := Step(s, a).value;
            && key in s'.replays && s'.replays[key].request == s.replays[key].request
            && (s.replays[key].response.Some? ==> s'.replays[key].response == s.replays[key].response)
  {
    if a.MutationReturns? {
      assert RequestOk(s, s.requests[a.r]);
    }
  }

  /* ------------------------------------------------------------------ */
  /* What the history of requests says.                                   */
  /* ------------------------------------------------------------------ */

  /** What a key was first used for: requests that came too late for a server that shuts down do not count. */
  function FirstUse(h: seq<Action>, key: Key): Option<Body> {
    if h == [] then None
    else
      var before, a := h[..|h| - 1], h[|h| - 1];
      var first := FirstUse(before, key);
      if first.None? && a.Arrive? && a.key == key && (BeginClosing !in before || a.shutdown) then Some(a.body) else first
  }

  ghost predicate Told(s: Server, h: seq<Action>) {
    && (s.closing <==> BeginClosing in h)
    && (forall k :: if k in s.replays then FirstUse(h, k) == Some(s.replays[k].request) else FirstUse(h, k) == None)
  }

  lemma FirstMore(h: seq<Action>, a: Action, k: Key)
    ensures FirstUse(h + [a], k)
         == if FirstUse(h, k).None? && a.Arrive? && a.key == k && (BeginClosing !in h || a.shutdown) then Some(a.body)
            else FirstUse(h, k)
  {
    assert (h + [a])[..|h|] == h;
  }

  lemma {:induction false} HistoryTells(h: seq<Action>)
    requires Run(h).Some?
    ensures Told(Run(h).value, h)
  {
    if h != [] {
      var before, a := h[..|h| - 1], h[|h| - 1];
      assert h == before + [a];
      HistoryTells(before);
      StepTells(Run(before).value, before, a);
    }
  }

  lemma StepTells(s: Server, h: seq<Action>, a: Action)
    requires Told(s, h) && Step(s, a).Some?
    ensures Told(Step(s, a).value, h + [a])
  {
    hide FirstUse;
    forall k {
      FirstMore(h, a, k);
    }
  }

  /** How a request is met on arrival. */
  predicate Met(stage: Stage, first: Option<Body>, body: Body, refused: bool) {
    && (stage == ShuttingDown <==> first.None? && refused)
    && (stage == Conflict <==> first.Some? && first.value != body)
  }

  /** Nothing that happens later turns a refusal into anything else, or anything else into a refusal. */
  lemma MetStays(s: Server, a: Action, r: RequestId)
    requires r in s.requests && Step(s, a).Some?
    ensures var q, q' := s.requests[r], Step(s, a).value.requests;
            && r in q' && (q'[r].stage == ShuttingDown <==> q.stage == ShuttingDown) && (q'[r].stage == Conflict <==> q.stage == Conflict)
            && q'[r].key == q.key && q'[r].body == q.body
  {
  }

  /**
   In every run a request is refused for shutdown exactly when its key had not been used, the server
   was closing and it is not itself a shutdown; and as a conflict exactly when its key had been used
   for another request. Every other request is let through.
   */
  lemma {:induction false} RefusedIff(h: seq<Action>, i: nat)
    requires Run(h).Some? && i < |h| && h[i].Arrive?
    ensures var s, a := Run(h).value, h[i];
            && a.r in s.requests && s.requests[a.r].key == a.key && s.requests[a.r].body == a.body
            && Met(s.requests[a.r].stage, FirstUse(h[..i], a.key), a.body, BeginClosing in h[..i] && !a.shutdown)
    decreases |h|
  {
    hide Step, FirstUse, Met;
    var before, a := h[..|h| - 1], h[|h| - 1];
    var s := Run(before).value;
    if i == |h| - 1 {
      HistoryTells(before);
      Arrives(s, before, a);
    } else {
      RefusedIff(before, i);
      assert before[..i] == h[..i];
      MetStays(s, a, h[i].r);
      MetAlso(s.requests[h[i].r].stage, Run(h).value.requests[h[i].r].stage, FirstUse(h[..i], h[i].key), h[i].body,
              BeginClosing in h[..i] && !h[i].shutdown);
    }
  }

  lemma MetAlso(stage: Stage, stage': Stage, first: Option<Body>, body: Body, refused: bool)
    requires Met(stage, first, body, refused)
    requires (stage' == ShuttingDown <==> stage == ShuttingDown) && (stage' == Conflict <==> stage == Conflict)
    ensures Met(stage', first, body, refused)
  {
  }

  lemma Arrives(s: Server, h: seq<Action>, a: Action)
    requires Told(s, h) && a.Arrive? && Step(s, a).Some?
    ensures var s' := Step(s, a).value;
            && a.r in s'.requests && s'.requests[a.r].key == a.key && s'.requests[a.r].body == a.body
            && Met(s'.requests[a.r].stage, FirstUse(h, a.key), a.body, BeginClosing in h && !a.shutdown)
  {
    hide FirstUse;
  }

  /** A response that a mutation under this key returned. */
  ghost predicate Returned(s: Server, h: seq<Action>, key: Key, response: Response) {
    exists q :: MutationReturns(q, response) in h && q in s.requests && s.requests[q].key == key
  }

  lemma ReturnedStays(s: Server, h: seq<Action>, a: Action, key: Key, response: Response)
    requires Returned(s, h, key, response) && Step(s, a).Some?
    ensures Returned(Step(s, a).value, h + [a], key, response)
  {
    var q :| MutationReturns(q, response) in h && q in s.requests && s.requests[q].key == key;
    MetStays(s, a, q);
    assert MutationReturns(q, response) in h + [a];
  }

  lemma {:induction false} RecordsReturned(h: seq<Action>, key: Key)
    requires Run(h).Some?
    ensures var s := Run(h).value;
            key in s.replays && s.replays[key].response.Some? ==> Returned(s, h, key, s.replays[key].response.value)
  {
    hide Returned;
    if h != [] {
      var before, a := h[..|h| - 1], h[|h| - 1];
      assert h == before + [a];
      var s, s' := Run(before).value, Run(h).value;
      RecordsReturned(before, key);
      if key in s'.replays && s'.replays[key].response.Some? {
        if key in s.replays && s.replays[key].response == s'.replays[key].response {
          ReturnedStays(s, before, a, key, s'.replays[key].response.value);
        } else {
          JustReturned(s, s', before, a, key);
        }
      }
    }
  }

  lemma JustReturned(s: Server, s': Server, h: seq<Action>, a: Action, key: Key)
    requires Step(s, a) == Some(s') && key in s'.replays && s'.replays[key].response.Some?
    requires !(key in s.replays && s.replays[key].response == s'.replays[key].response)
    ensures Returned(s', h + [a], key, s'.replays[key].response.value)
  {
    assert a.MutationReturns? && s.requests[a.r].key == key;
    assert a in h + [a];
    assert MutationReturns(a.r, s'.replays[key].response.value) in h + [a];
  }

  /** Whoever is answered gets what the mutation under its key returned. */
  lemma AnswersAreReturned(h: seq<Action>, r: RequestId)
    requires Run(h).Some? && r in Run(h).value.requests && Run(h).value.requests[r].stage.Answered?
    ensures Returned(Run(h).value, h, Run(h).value.requests[r].key, Run(h).value.requests[r].stage.sent)
  {
    hide Returned, Run;
    RunKeeps(h);
    var s := Run(h).value;
    assert RequestOk(s, s.requests[r]);
    RecordsReturned(h, s.requests[r].key);
  }
}
