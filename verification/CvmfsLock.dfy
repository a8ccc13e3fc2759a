/**
 The keyed lock that serialises publication of cache files: a table of locks by path,
 each with a reference count, entered and left by goroutines in any interleaving.
 */
module CvmfsLock {
  import opened Wrappers

  type Path = string
  type LockId = nat
  type ThreadId = nat

  datatype Lock = Lock(refs: int, holder: Option<ThreadId>)

  /** Where a call of the lock stands. */
  datatype Phase =
    | Outside
    | Waiting(path: Path, id: LockId)     // has a reference, wants the mutex
    | Locked(path: Path, id: LockId)      // has the mutex, is taking the file lock
    | Failed(path: Path, id: LockId)      // has the mutex, could not take the file lock
    | Publishing(path: Path, id: LockId)  // has the mutex and the file lock
    | Leaving(path: Path, id: LockId)     // has given the mutex back, still counted

  /** Lock objects are numbered; a number is never used again. */
  datatype State = State(table: map<Path, LockId>, locks: seq<Lock>, threads: seq<Phase>)

  const START := State(map[], [], [])

  datatype Action =
    | Spawn
    | Enter(t: ThreadId, path: Path)
    | Acquire(t: ThreadId)
    | TakeFile(t: ThreadId, ok: bool)
    | Release(t: ThreadId)
    | Leave(t: ThreadId)

  /* ------------------------------------------------------------------ */
  /* Steps.                                                               */
  /* ------------------------------------------------------------------ */

  /** The lock of a path, made if need be, with one more reference. */
  function TakeReference(s: State, path: Path): State
    requires path in s.table ==> s.table[path] < |s.locks|
  {
    if path in s.table then
      var id := s.table[path];
      s.(locks := s.locks[id := s.locks[id].(refs := s.locks[id].refs + 1)])
    else s.(table := s.table[path := |s.locks|], locks := s.locks + [Lock(1, None)])
  }

  /** One reference fewer; the last one takes the lock out of the table. */
  function DropReference(s: State, path: Path, id: LockId): State
    requires id < |s.locks|
  {
    var refs := s.locks[id].refs - 1;
    s.(locks := s.locks[id := s.locks[id].(refs := refs)], table := if refs == 0 then s.table - {path} else s.table)
  }

  predicate HasMutex(p: Phase) { p.Locked? || p.Failed? || p.Publishing? }

  predicate Enabled(s: State, a: Action) {
    match a
    case Spawn => true
    case Enter(t, path) => t < |s.threads| && s.threads[t].Outside? && (path in s.table ==> s.table[path] < |s.locks|)
    case Acquire(t) =>
      t < |s.threads| && s.threads[t].Waiting? && s.threads[t].id < |s.locks| && s.locks[s.threads[t].id].holder.None?
    case TakeFile(t, ok) => t < |s.threads| && s.threads[t].Locked?
    case Release(t) =>
      t < |s.threads| && (s.threads[t].Failed? || s.threads[t].Publishing?) && s.threads[t].id < |s.locks|
    case Leave(t) => t < |s.threads| && s.threads[t].Leaving? && s.threads[t].id < |s.locks|
  }

  function At(s: State, t: ThreadId, p: Phase): State
    requires t < |s.threads|
  {
    s.(threads := s.threads[t := p])
  }

  function WithHolder(s: State, id: LockId, holder: Option<ThreadId>): State
    requires id < |s.locks|
  {
    s.(locks := s.locks[id := s.locks[id].(holder := holder)])
  }

  function Step(s: State, a: Action): State
    requires Enabled(s, a)
  {
    match a
    case Spawn => s.(threads := s.threads + [Outside])
    case Enter(t, path) =>
      var u := TakeReference(s, path);
      At(u, t, Waiting(path, u.table[path]))
    case Acquire(t) =>
      var p := s.threads[t];
      At(WithHolder(s, p.id, Some(t)), t, Locked(p.path, p.id))
    case TakeFile(t, ok) =>
      var p := s.threads[t];
      At(s, t, if ok then Publishing(p.path, p.id) else Failed(p.path, p.id))
    case Release(t) =>
      var p := s.threads[t];
      At(WithHolder(s, p.id, None), t, Leaving(p.path, p.id))
    case Leave(t) =>
      var p := s.threads[t];
      At(DropReference(s, p.path, p.id), t, Outside)
  }

  /** A run takes enabled steps only. */
  predicate Runs(s: State, actions: seq<Action>)
    decreases |actions|
  {
    actions == [] || (Enabled(s, actions[0]) && Runs(Step(s, actions[0]), actions[1..]))
  }

  function After(s: State, actions: seq<Action>): State
    requires Runs(s, actions)
    decreases |actions|
  {
    if actions == [] then s else After(Step(s, actions[0]), actions[1..])
  }

  /* ------------------------------------------------------------------ */
  /* What every step keeps.                                               */
  /* ------------------------------------------------------------------ */

  /** Between taking and dropping a reference to the path's lock. */
  predicate On(p: Phase, path: Path) { !p.Outside? && p.path == path }

  function Users(threads: seq<Phase>, path: Path): nat {
    if threads == [] then 0 else Users(threads[1..], path) + if On(threads[0], path) then 1 else 0
  }

  /** Every user of a path has the one lock that the table holds for it. */
  ghost predicate Shared(s: State) {
    forall t :: 0 <= t < |s.threads| && !s.threads[t].Outside? ==>
      s.threads[t].path in s.table && s.threads[t].id == s.table[s.threads[t].path]
  }

  ghost predicate Counted(s: State) {
    (forall path :: path in s.table ==> s.table[path] < |s.locks| && s.locks[s.table[path]].refs == Users(s.threads, path) > 0)
    && (forall path, other :: path in s.table && other in s.table && path != other ==> s.table[path] != s.table[other])
  }

  /** A mutex is held by exactly the thread that has it. */
  ghost predicate Owned(s: State) {
    (forall t :: 0 <= t < |s.threads| && HasMutex(s.threads[t]) ==>
       s.threads[t].id < |s.locks| && s.locks[s.threads[t].id].holder == Some(t))
    && (forall id :: 0 <= id < |s.locks| && s.locks[id].holder.Some? ==>
          var t := s.locks[id].holder.value; t < |s.threads| && HasMutex(s.threads[t]) && s.threads[t].id == id)
  }

  ghost predicate Inv(s: State) { Shared(s) && Counted(s) && Owned(s) }

  lemma {:induction false} UsersUpdate(threads: seq<Phase>, t: nat, p: Phase, path: Path)
    requires t < |threads|
    ensures Users(threads[t := p], path)
            == Users(threads, path) - (if On(threads[t], path) then 1 else 0) + (if On(p, path) then 1 else 0)
  {
    if t > 0 {
      UsersUpdate(threads[1..], t - 1, p, path);
      assert threads[t := p][1..] == threads[1..][t - 1 := p];
    } else {
      assert threads[t := p][1..] == threads[1..];
    }
  }

  lemma {:induction false} UsersSome(threads: seq<Phase>, t: nat, path: Path)
    requires t < |threads| && On(threads[t], path)
    ensures Users(threads, path) > 0
  {
    if t > 0 {
      UsersSome(threads[1..], t - 1, path);
    }
  }

  lemma {:induction false} UsersAppend(threads: seq<Phase>, path: Path)
    ensures Users(threads + [Outside], path) == Users(threads, path)
  {
    if threads != [] {
      UsersAppend(threads[1..], path);
      assert (threads + [Outside])[1..] == threads[1..] + [Outside];
    }
  }

  lemma {:induction false} UsersNone(threads: seq<Phase>, path: Path)
    requires forall t :: 0 <= t < |threads| ==> !On(threads[t], path)
    ensures Users(threads, path) == 0
  {
    if threads != [] {
      UsersNone(threads[1..], path);
    }
  }

  /* Steps that leave the table and the counts alone. */

  /** A thread moves on without changing which path it is on. */
  lemma SameUsers(s: State, t: ThreadId, p: Phase, locks: seq<Lock>)
    requires Inv(s) && t < |s.threads| && !s.threads[t].Outside? && !p.Outside?
    requires p.path == s.threads[t].path && p.id == s.threads[t].id
    requires |locks| == |s.locks| && forall i :: 0 <= i < |locks| ==> locks[i].refs == s.locks[i].refs
    ensures var u := s.(threads := s.threads[t := p], locks := locks); Shared(u) && Counted(u)
  {
    forall path
      ensures Users(s.threads[t := p], path) == Users(s.threads, path)
    {
      UsersUpdate(s.threads, t, p, path);
    }
  }

  lemma AcquireKeeps(s: State, t: ThreadId)
    requires Inv(s) && Enabled(s, Acquire(t))
    ensures Inv(Step(s, Acquire(t)))
  {
    var p := s.threads[t];
    SameUsers(s, t, Locked(p.path, p.id), WithHolder(s, p.id, Some(t)).locks);
    hide Users, Counted, Shared;
  }

  lemma TakeFileKeeps(s: State, t: ThreadId, ok: bool)
    requires Inv(s) && Enabled(s, TakeFile(t, ok))
    ensures Inv(Step(s, TakeFile(t, ok)))
  {
    var p := s.threads[t];
    SameUsers(s, t, if ok then Publishing(p.path, p.id) else Failed(p.path, p.id), s.locks);
    hide Users, Counted, Shared;
  }

  lemma ReleaseKeeps(s: State, t: ThreadId)
    requires Inv(s) && Enabled(s, Release(t))
    ensures Inv(Step(s, Release(t)))
  {
    var p := s.threads[t];
    SameUsers(s, t, Leaving(p.path, p.id), WithHolder(s, p.id, None).locks);
    hide Users, Counted, Shared;
  }

  lemma SpawnKeeps(s: State)
    requires Inv(s)
    ensures Inv(Step(s, Spawn))
  {
    forall path
      ensures Users(s.threads + [Outside], path) == Users(s.threads, path)
    {
      UsersAppend(s.threads, path);
    }
  }

  /* Steps that change the table. */

  lemma EnterUsers(s: State, t: ThreadId, path: Path, other: Path)
    requires Enabled(s, Enter(t, path))
    ensures Users(Step(s, Enter(t, path)).threads, other) == Users(s.threads, other) + if other == path then 1 else 0
  {
    UsersUpdate(s.threads, t, Step(s, Enter(t, path)).threads[t], other);
  }

  lemma EnterCounted(s: State, t: ThreadId, path: Path)
    requires Inv(s) && Enabled(s, Enter(t, path))
    ensures Counted(Step(s, Enter(t, path)))
  {
    hide Owned, Users;
    var u := Step(s, Enter(t, path));
    forall other
      ensures Users(u.threads, other) == Users(s.threads, other) + if other == path then 1 else 0
    {
      EnterUsers(s, t, path, other);
    }
    if path !in s.table {
      UsersNone(s.threads, path);
    }
  }

  lemma EnterKeeps(s: State, t: ThreadId, path: Path)
    requires Inv(s) && Enabled(s, Enter(t, path))
    ensures Inv(Step(s, Enter(t, path)))
  {
    EnterCounted(s, t, path);
    assert Counted(s) && Counted(Step(s, Enter(t, path)));
    hide Users;
  }

  lemma LeaveCounted(s: State, t: ThreadId)
    requires Inv(s) && Enabled(s, Leave(t))
    ensures Counted(Step(s, Leave(t)))
  {
    hide Owned, Users;
    var path := s.threads[t].path;
    var u := Step(s, Leave(t));
    forall other
      ensures Users(u.threads, other) == Users(s.threads, other) - if other == path then 1 else 0
    {
      UsersUpdate(s.threads, t, Outside, other);
    }
  }

  lemma LeaveShared(s: State, t: ThreadId)
    requires Inv(s) && Enabled(s, Leave(t))
    ensures Shared(Step(s, Leave(t)))
  {
    hide Owned, Users;
    var path := s.threads[t].path;
    var u := Step(s, Leave(t));
    UsersUpdate(s.threads, t, Outside, path);
    if path !in u.table {
      forall x | 0 <= x < |u.threads|
        ensures !On(u.threads[x], path)
      {
        if On(u.threads[x], path) {
          UsersSome(u.threads, x, path);
        }
      }
    }
  }

  lemma LeaveKeeps(s: State, t: ThreadId)
    requires Inv(s) && Enabled(s, Leave(t))
    ensures Inv(Step(s, Leave(t)))
  {
    LeaveCounted(s, t);
    LeaveShared(s, t);
    hide Users, Counted, Shared;
  }

  lemma StepKeeps(s: State, a: Action)
    requires Inv(s) && Enabled(s, a)
    ensures Inv(Step(s, a))
  {
    hide Inv, Step;
    match a
    case Spawn => SpawnKeeps(s);
    case Enter(t, path) => EnterKeeps(s, t, path);
    case Acquire(t) => AcquireKeeps(s, t);
    case TakeFile(t, ok) => TakeFileKeeps(s, t, ok);
    case Release(t) => ReleaseKeeps(s, t);
    case Leave(t) => LeaveKeeps(s, t);
  }

  lemma {:induction false} RunKeeps(s: State, actions: seq<Action>)
    requires Inv(s) && Runs(s, actions)
    ensures Inv(After(s, actions))
    decreases |actions|
  {
    hide Inv, Step, Enabled;
    if actions != [] {
      StepKeeps(s, actions[0]);
      RunKeeps(Step(s, actions[0]), actions[1..]);
    }
  }

  /* ------------------------------------------------------------------ */
  /* Every interleaving.                                                  */
  /* ------------------------------------------------------------------ */

  lemma StartOk()
    ensures Inv(START)
  {
  }

  /** One thread at a time holds the mutex of a path. */
  lemma MutualExclusion(actions: seq<Action>, t: ThreadId, u: ThreadId)
    requires Runs(START, actions)
    requires var s := After(START, actions);
             t < |s.threads| && u < |s.threads| && HasMutex(s.threads[t]) && HasMutex(s.threads[u])
             && s.threads[t].path == s.threads[u].path
    ensures t == u
  {
    StartOk();
    RunKeeps(START, actions);
    var s := After(START, actions);
    var id := s.threads[t].id;
    assert s.locks[id].holder == Some(t) && s.locks[id].holder == Some(u);
  }

  /** The count is the number of users, who all have the lock in the table; unused paths have none. */
  lemma ReferencesAreUsers(actions: seq<Action>, path: Path)
    requires Runs(START, actions)
    ensures var s := After(START, actions);
            && (path in s.table <==> Users(s.threads, path) > 0)
            && (path in s.table ==> s.table[path] < |s.locks| && s.locks[s.table[path]].refs == Users(s.threads, path))
            && (forall t :: 0 <= t < |s.threads| && On(s.threads[t], path) ==> path in s.table && s.threads[t].id == s.table[path])
  {
    StartOk();
    RunKeeps(START, actions);
    var s := After(START, actions);
    if path !in s.table {
      UsersNone(s.threads, path);
    }
  }

  /** Every user of a free lock can take it, and everyone who has it can give it back and leave. */
  lemma NobodyIsStuck(actions: seq<Action>, t: ThreadId)
    requires Runs(START, actions)
    requires var s := After(START, actions); t < |s.threads| && !s.threads[t].Outside?
    ensures var s := After(START, actions);
            var p := s.threads[t];
            && p.id < |s.locks|
            && (p.Waiting? ==> Enabled(s, Acquire(t)) || exists u :: 0 <= u < |s.threads| && HasMutex(s.threads[u]) && s.threads[u].path == p.path)
            && (p.Locked? ==> Enabled(s, TakeFile(t, true)) && Enabled(s, TakeFile(t, false)))
            && (p.Failed? || p.Publishing? ==> Enabled(s, Release(t)))
            && (p.Leaving? ==> Enabled(s, Leave(t)))
  {
    StartOk();
    RunKeeps(START, actions);
    var s := After(START, actions);
    var holder := s.locks[s.threads[t].id].holder;
    if holder.Some? {
      assert HasMutex(s.threads[holder.value]);
      assert s.threads[holder.value].path == s.threads[t].path;
    }
  }
}
