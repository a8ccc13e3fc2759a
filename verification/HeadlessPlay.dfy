/** Sequences of protocol steps taken from any state; a step that is not possible is passed over. */
module HeadlessPlay {
  import opened Wrappers
  import opened HeadlessServer
  import opened HeadlessSafety

  /** The state after one action, if it is possible. */
  function Try(s: Server, a: Action): Server { if Step(s, a).Some? then Step(s, a).value else s }

  function Play(s: Server, actions: seq<Action>): Server
    decreases |actions|
  {
    if actions == [] then s else Play(Try(s, actions[0]), actions[1..])
  }

  lemma {:induction false} PlayJoin(s: Server, a: seq<Action>, b: seq<Action>)
    ensures Play(s, a + b) == Play(Play(s, a), b)
    decreases |a|
  {
    hide Try;
    if a == [] {
      assert a + b == b;
    } else {
      PlayJoin(Try(s, a[0]), a[1..], b);
      assert (a + b)[0] == a[0] && (a + b)[1..] == a[1..] + b;
    }
  }

  lemma PlayOne(s: Server, a: Action)
    ensures Play(s, [a]) == Try(s, a)
  {
    hide Try;
    assert [a][1..] == [];
  }

  /** The actions that were possible when their turn came. */
  function Taken(s: Server, actions: seq<Action>): seq<Action>
    decreases |actions|
  {
    if actions == [] then []
    else (if Step(s, actions[0]).Some? then [actions[0]] else []) + Taken(Try(s, actions[0]), actions[1..])
  }

  /** So what is played from a state of a run is a state of a run. */
  lemma {:induction false} PlayIsRun(run: seq<Action>, actions: seq<Action>)
    requires Run(run).Some?
    ensures Run(run + Taken(Run(run).value, actions)) == Some(Play(Run(run).value, actions))
    decreases |actions|
  {
    hide Step;
    var s := Run(run).value;
    if actions == [] {
      assert run + [] == run;
    } else {
      var a, rest := actions[0], actions[1..];
      if Step(s, a).Some? {
        assert (run + [a])[..|run|] == run;
        PlayIsRun(run + [a], rest);
        assert run + [a] + Taken(Try(s, a), rest) == run + ([a] + Taken(Try(s, a), rest));
      } else {
        PlayIsRun(run, rest);
        assert [] + Taken(s, rest) == Taken(s, rest);
      }
    }
  }

  /** Actions of other goroutines, of requests and of the monitor. */
  predicate Foreign(actions: seq<Action>, t: TaskId) {
    forall i :: 0 <= i < |actions| ==> HasTask(actions[i]) ==> actions[i].t != t
  }

  /** They leave a goroutine where it is. */
  lemma Elsewhere(s: Server, a: Action, t: TaskId)
    requires t in s.tasks && (HasTask(a) ==> a.t != t)
    ensures t in Try(s, a).tasks && Try(s, a).tasks[t] == s.tasks[t]
  {
    hide Work;
    if Step(s, a).Some? && Step(s, a) == Work(s, a) && !(a.AcceptStart? || a.AcceptStop? || a.AcceptGlass? || a.AcceptPull?)
       && HasTask(a) {
      WorkElsewhere(s, a, t);
    }
  }

  lemma {:induction false} ForeignLeaves(s: Server, actions: seq<Action>, t: TaskId)
    requires t in s.tasks && Foreign(actions, t)
    ensures t in Play(s, actions).tasks && Play(s, actions).tasks[t] == s.tasks[t]
    decreases |actions|
  {
    hide Try;
    if actions != [] {
      Elsewhere(s, actions[0], t);
      ForeignLeaves(Try(s, actions[0]), actions[1..], t);
    }
  }
}
