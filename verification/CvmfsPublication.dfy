/** The objects behind the publication lock: the table of locks, and the file being published. */
module CvmfsPublication {
  import opened Wrappers
  import opened MachineTypes
  import opened CvmfsLock

  class PublicationLock {
    ghost const id: LockId
    var refs: int
    /** The mutex, and the goroutine that has it. */
    var mu: bool
    ghost var holder: Option<ThreadId>

    constructor (ghost id: LockId)
      ensures this.id == id && refs == 0 && !mu && holder == None
    {
      this.id := id;
      refs, mu, holder := 0, false, None;
    }

    ghost function View(): Lock
      reads this
    {
      Lock(refs, holder)
    }
  }

  /** The lock of a path is in the table, with its count as it was. */
  function Found(s: State, path: Path): State {
    if path in s.table then s else s.(table := s.table[path := |s.locks|], locks := s.locks + [Lock(0, None)])
  }

  function WithRefs(s: State, id: LockId, refs: int): State
    requires id < |s.locks|
  {
    s.(locks := s.locks[id := s.locks[id].(refs := refs)])
  }

  lemma EnterIs(s: State, t: ThreadId, path: Path)
    requires Enabled(s, Enter(t, path))
    ensures var f := Found(s, path);
            && path in f.table && f.table[path] < |f.locks|
            && Step(s, Enter(t, path)) == At(WithRefs(f, f.table[path], f.locks[f.table[path]].refs + 1), t, Waiting(path, f.table[path]))
  {
  }

  function Forgotten(s: State, path: Path): State { s.(table := s.table - {path}) }

  lemma LeaveIs(s: State, t: ThreadId)
    requires Enabled(s, Leave(t))
    ensures var p := s.threads[t];
            var refs := s.locks[p.id].refs - 1;
            var u := WithRefs(s, p.id, refs);
            Step(s, Leave(t)) == At(if refs == 0 then Forgotten(u, p.path) else u, t, Outside)
  {
  }

  /** A run goes on with one more step. */
  lemma {:induction false} Then(s: State, actions: seq<Action>, a: Action)
    requires Runs(s, actions) && Enabled(After(s, actions), a)
    ensures Runs(s, actions + [a]) && After(s, actions + [a]) == Step(After(s, actions), a)
    decreases |actions|
  {
    hide Step, Enabled;
    if actions == [] {
      assert [a][1..] == [] && actions + [a] == [a];
    } else {
      Then(Step(s, actions[0]), actions[1..], a);
      assert (actions + [a])[1..] == actions[1..] + [a];
    }
  }

  /** From outside to holding the lock of `path`, or to having failed to take its file lock. */
  function Locking(t: ThreadId, path: Path, ok: bool): seq<Action> { [Enter(t, path), Acquire(t), TakeFile(t, ok)] }

  function Unlocking(t: ThreadId): seq<Action> { [Release(t), Leave(t)] }

  /** Nobody has the lock of `path`: a goroutine outside can go all the way in. */
  predicate Free(s: State, t: ThreadId, path: Path) {
    Enabled(s, Enter(t, path)) && Enabled(Step(s, Enter(t, path)), Acquire(t))
  }

  lemma LockingRuns(s: State, t: ThreadId, path: Path, ok: bool)
    requires Free(s, t, path)
    ensures var u := Step(Step(s, Enter(t, path)), Acquire(t));
            && Enabled(u, TakeFile(t, ok))
            && Runs(s, Locking(t, path, ok)) && After(s, Locking(t, path, ok)) == Step(u, TakeFile(t, ok))
  {
    hide Step;
    Then(s, [], Enter(t, path));
    Then(s, [Enter(t, path)], Acquire(t));
    assert Enabled(Step(Step(s, Enter(t, path)), Acquire(t)), TakeFile(t, ok)) by {
      AcquiredIs(s, t, path);
    }
    Then(s, [Enter(t, path), Acquire(t)], TakeFile(t, ok));
    assert [] + [Enter(t, path)] == [Enter(t, path)];
    assert [Enter(t, path)] + [Acquire(t)] == [Enter(t, path), Acquire(t)];
    assert [Enter(t, path), Acquire(t)] + [TakeFile(t, ok)] == Locking(t, path, ok);
  }

  lemma AcquiredIs(s: State, t: ThreadId, path: Path)
    requires Free(s, t, path)
    ensures Step(Step(s, Enter(t, path)), Acquire(t)).threads
         == s.threads[t := Locked(path, Step(s, Enter(t, path)).table[path])]
  {
  }

  lemma UnlockingRuns(s: State, t: ThreadId)
    requires Enabled(s, Release(t))
    ensures Enabled(Step(s, Release(t)), Leave(t))
    ensures Runs(s, Unlocking(t)) && After(s, Unlocking(t)) == Step(Step(s, Release(t)), Leave(t))
  {
    Then(s, [], Release(t));
    assert [] + [Release(t)] == [Release(t)];
    Then(s, [Release(t)], Leave(t));
    assert [Release(t)] + [Leave(t)] == Unlocking(t);
  }

  /** Locking and unlocking put the table and the goroutines back as they were. */
  lemma UnlockUndoesLock(s: State, t: ThreadId, path: Path, ok: bool)
    requires Inv(s) && Free(s, t, path)
    ensures Runs(s, Locking(t, path, ok)) && Runs(After(s, Locking(t, path, ok)), Unlocking(t))
    ensures Undisturbed(s, After(After(s, Locking(t, path, ok)), Unlocking(t)))
  {
    LockingRuns(s, t, path, ok);
    UnlockingRuns(After(s, Locking(t, path, ok)), t);
    hide Users, Owned, Shared, Runs, After;
  }

  /** The table of locks; `threads` says where each goroutine stands. */
  class LockTable {
    var locks: map<Path, PublicationLock>
    /** Every lock made so far, by number. */
    ghost var made: seq<PublicationLock>
    ghost var threads: seq<Phase>

    ghost function Repr(): set<object>
      reads this
    {
      {this} + set l: object | l in made
    }

    ghost function Counters(): seq<Lock>
      reads this, made
    {
      seq(|made|, i requires 0 <= i < |made| reads this, made => made[i].View())
    }

    /** The state of the protocol that the objects stand for. */
    ghost function View(): State
      reads this, made
    {
      State(map p | p in locks :: locks[p].id, Counters(), threads)
    }

    ghost predicate Wired()
      reads this, made
    {
      && (forall i :: 0 <= i < |made| ==> made[i].id == i && made[i].mu == made[i].holder.Some?)
      && (forall p :: p in locks ==> locks[p] in made)
    }

    ghost predicate Valid()
      reads this, made
    {
      Wired() && Inv(View())
    }

    constructor ()
      ensures Valid() && View() == START && fresh(Repr())
    {
      locks, made, threads := map[], [], [];
      new;
      StartOk();
    }

    method LockFor(path: Path) returns (lock: PublicationLock)
      requires Wired()
      modifies this
      ensures View() == Found(old(View()), path)
      ensures Wired() && path in locks && lock == locks[path] && lock in made && threads == old(threads)
      ensures made == old(made) || (made == old(made) + [lock] && fresh(lock))
      ensures fresh(Repr() - old(Repr()))
      ensures View().table[path] == lock.id < |made| && View().locks[lock.id].refs == lock.refs
    {
      if path in locks {
        lock := locks[path];
      } else {
        ghost var before := Counters();
        lock := new PublicationLock(|made|);
        locks := locks[path := lock];
        made := made + [lock];
        assert Counters() == before + [Lock(0, None)];
      }
    }

    lemma Counted(lock: PublicationLock)
      requires Wired() && lock in made
      ensures lock.id < |made| && View().threads == threads && View().locks[lock.id].refs == lock.refs
    {
    }

    method SetRefs(lock: PublicationLock, refs: int)
      requires Wired() && lock in made
      modifies lock`refs
      ensures Wired() && lock.refs == refs && lock.id < |made| && View() == WithRefs(old(View()), lock.id, refs)
    {
      lock.refs := refs;
      assert Counters() == old(Counters())[lock.id := lock.View()];
    }

    method SetMutex(lock: PublicationLock, ghost holder: Option<ThreadId>, mu: bool)
      requires Wired() && lock in made && mu == holder.Some?
      modifies lock`mu, lock`holder
      ensures Wired() && lock.id < |made| && View() == WithHolder(old(View()), lock.id, holder)
    {
      lock.mu := mu;
      lock.holder := holder;
      assert Counters() == old(Counters())[lock.id := lock.View()];
    }

    method Forget(path: Path)
      requires Wired()
      modifies this`locks
      ensures Wired() && View() == Forgotten(old(View()), path)
    {
      locks := locks - {path};
      assert Counters() == old(Counters());
    }

    ghost method Move(t: ThreadId, p: Phase)
      requires Wired() && t < |threads|
      modifies this`threads
      ensures Wired() && threads == old(threads)[t := p] && View() == At(old(View()), t, p)
    {
      threads := threads[t := p];
    }

    /** A goroutine takes a reference to the lock of a path, which is made if need be. */
    method TakeReference(ghost t: ThreadId, path: Path) returns (lock: PublicationLock)
      requires Valid() && Enabled(View(), Enter(t, path))
      modifies Repr()
      ensures View() == Step(old(View()), Enter(t, path))
      ensures lock in made && threads == old(threads)[t := Waiting(path, lock.id)]
      ensures Valid() && fresh(Repr() - old(Repr()))
    {
      StepKeeps(View(), Enter(t, path));
      EnterIs(View(), t, path);
      hide Inv, Step, Found, LockTable.View, LockTable.Wired, At, WithRefs;
      lock := LockFor(path);
      SetRefs(lock, lock.refs + 1);
      Move(t, Waiting(path, lock.id));
    }

    /** It waits for the mutex and takes it. */
    method LockMutex(ghost t: ThreadId, lock: PublicationLock)
      requires Valid() && lock in made && Enabled(View(), Acquire(t)) && threads[t].id == lock.id
      modifies lock, this`threads
      ensures View() == Step(old(View()), Acquire(t))
      ensures threads == old(threads)[t := Locked(old(threads[t].path), lock.id)]
      ensures Valid()
    {
      StepKeeps(View(), Acquire(t));
      hide Inv, LockTable.Wired;
      SetMutex(lock, Some(t), true);
      Move(t, Locked(threads[t].path, lock.id));
    }

    /** The file lock shared with other processes was taken, or was not. */
    ghost method LockFile(t: ThreadId, ok: bool)
      requires Valid() && Enabled(View(), TakeFile(t, ok))
      modifies this`threads
      ensures View() == Step(old(View()), TakeFile(t, ok))
      ensures var p := old(threads[t]);
              threads == old(threads)[t := if ok then Publishing(p.path, p.id) else Failed(p.path, p.id)]
      ensures Valid()
    {
      StepKeeps(View(), TakeFile(t, ok));
      hide Inv, LockTable.Wired;
      var p := threads[t];
      Move(t, if ok then Publishing(p.path, p.id) else Failed(p.path, p.id));
    }

    /** It gives the mutex back. */
    method UnlockMutex(ghost t: ThreadId, lock: PublicationLock)
      requires Valid() && lock in made && Enabled(View(), Release(t)) && threads[t].id == lock.id
      modifies lock, this`threads
      ensures View() == Step(old(View()), Release(t))
      ensures threads == old(threads)[t := Leaving(old(threads[t].path), lock.id)]
      ensures Valid()
    {
      StepKeeps(View(), Release(t));
      hide Inv, LockTable.Wired;
      SetMutex(lock, None, false);
      Move(t, Leaving(threads[t].path, lock.id));
    }

    /** It drops its reference; the last one takes the lock out of the table. */
    method DropReference(ghost t: ThreadId, path: Path, lock: PublicationLock)
      requires Valid() && lock in made && Enabled(View(), Leave(t)) && threads[t] == Leaving(path, lock.id)
      modifies lock, this
      ensures View() == Step(old(View()), Leave(t))
      ensures threads == old(threads)[t := Outside] && made == old(made)
      ensures Valid()
    {
      StepKeeps(View(), Leave(t));
      LeaveIs(View(), t);
      Counted(lock);
      hide Inv, Step, LockTable.View, LockTable.Wired, At, WithRefs, Forgotten;
      SetRefs(lock, lock.refs - 1);
      if lock.refs == 0 {
        Forget(path);
      }
      Move(t, Outside);
    }

    /** The lock of a path for a goroutine that finds it free; if the file lock fails, nothing is kept. */
    method LockCachePublication(ghost t: ThreadId, path: Path, fileLock: bool) returns (lock: PublicationLock)
      requires Valid() && Free(View(), t, path)
      modifies Repr()
      ensures Runs(old(View()), Locking(t, path, fileLock)) && (fileLock ==> View() == After(old(View()), Locking(t, path, true)))
      ensures fileLock ==> lock in made && t < |threads| && threads[t] == Publishing(path, lock.id)
      ensures !fileLock ==> Undisturbed(old(View()), View())
      ensures Valid() && fresh(Repr() - old(Repr()))
    {
      LockingRuns(View(), t, path, fileLock);
      UnlockUndoesLock(View(), t, path, fileLock);
      hide Inv, Step, Runs, After;
      lock := TakeReference(t, path);
      LockMutex(t, lock);
      LockFile(t, fileLock);
      if !fileLock {
        Unlock(t, path, lock);
      }
    }

    /** What the caller gets to give the lock back. */
    method Unlock(ghost t: ThreadId, path: Path, lock: PublicationLock)
      requires Valid() && lock in made && t < |threads|
      requires threads[t] == Publishing(path, lock.id) || threads[t] == Failed(path, lock.id)
      modifies lock, this
      ensures Runs(old(View()), Unlocking(t)) && View() == After(old(View()), Unlocking(t))
      ensures threads == old(threads)[t := Outside] && made == old(made)
      ensures Valid()
    {
      hide Inv, Step, Runs, After, At, WithHolder;
      assert lock.id < |made| && |View().locks| == |made| && View().threads == threads;
      UnlockingRuns(View(), t);
      hide Enabled, LockTable.View, LockTable.Wired;
      UnlockMutex(t, lock);
      DropReference(t, path, lock);
    }
  }

  /* ------------------------------------------------------------------ */
  /* Publishing a file.                                                   */
  /* ------------------------------------------------------------------ */

  type Bytes = seq<byte>

  /** The files of the cache. */
  class CacheDir {
    var files: map<Path, Bytes>

    ghost function Reads(path: Path): Option<Bytes>
      reads this
    {
      if path in files then Some(files[path]) else None
    }

    /** The file at `from` takes the place of whatever is at `to`, or nothing happens. */
    method Move(from: Path, to: Path, outcome: Rename)
      requires from in files
      modifies this
      ensures files == if outcome == Renamed then (old(files) - {from})[to := old(files)[from]] else old(files)
    {
      if outcome == Renamed {
        files := (files - {from})[to := files[from]];
      }
    }

    method Remove(path: Path, works: bool)
      modifies this
      ensures files == if works then old(files) - {path} else old(files)
    {
      if works {
        files := files - {path};
      }
    }
  }

  datatype Rename = Renamed | AlreadyThere | RenameFailed

  /** Which system calls succeed. */
  datatype Calls = Calls(sync: bool, close: bool, chmod: bool, rename: Rename, remove: bool) {
    predicate Publishes() { sync && close && chmod && rename == Renamed }
  }

  /** A temporary file on its way to a cache path, under the publication lock. */
  class AtomicFile {
    const dir: CacheDir
    const table: LockTable
    const lock: PublicationLock
    const tmp: Path
    const target: Path
    ghost const t: ThreadId
    var closed: bool
    /** Everything written so far. */
    ghost var written: Bytes

    /** Until it is closed, the file is there with all that was written, and its goroutine has the lock. */
    ghost predicate Valid()
      reads this, dir, table, table.made
    {
      && table.Valid() && lock in table.made && tmp != target
      && (!closed ==>
            && t < |table.threads| && table.threads[t] == Publishing(target, lock.id)
            && tmp in dir.files && dir.files[tmp] == written)
    }

    constructor (dir: CacheDir, table: LockTable, lock: PublicationLock, tmp: Path, target: Path, ghost t: ThreadId)
      requires table.Valid() && lock in table.made && tmp != target && tmp !in dir.files
      requires t < |table.threads| && table.threads[t] == Publishing(target, lock.id)
      modifies dir
      ensures this.dir == dir && this.table == table && this.lock == lock && this.tmp == tmp && this.target == target
      ensures this.t == t && Valid() && !closed && written == [] && dir.files == old(dir.files)[tmp := []]
    {
      this.dir, this.table, this.lock, this.tmp, this.target, this.t := dir, table, lock, tmp, target, t;
      closed, written := false, [];
      new;
      dir.files := dir.files[tmp := []];
    }

    /** The first `accepted` bytes go to the temporary file. */
    method Write(p: Bytes, accepted: nat)
      requires Valid() && !closed && accepted <= |p|
      modifies this`written, dir
      ensures written == old(written) + p[..accepted] && dir.files == old(dir.files)[tmp := written]
      ensures Valid()
    {
      dir.files := dir.files[tmp := dir.files[tmp] + p[..accepted]];
      written := written + p[..accepted];
    }

    /**
     A reader of the target finds all that was written, if every call succeeded, and else what was
     there before; no other file changes, and the goroutine has given the lock back, once.
     */
    method Close(calls: Calls) returns (ok: bool)
      requires Valid()
      modifies this`closed, dir, table, lock
      ensures Valid() && closed
      ensures ok == (old(closed) || (calls.sync && calls.close && calls.chmod && calls.rename != RenameFailed))
      ensures forall p :: p != tmp ==>
                dir.Reads(p) == if !old(closed) && calls.Publishes() && p == target then Some(written) else old(dir.Reads(p))
      ensures old(closed) ==> dir.Reads(tmp) == old(dir.Reads(tmp)) && table.View() == old(table.View())
      ensures !old(closed) ==>
                && (dir.Reads(tmp) == None <==> calls.Publishes() || calls.remove)
                && Runs(old(table.View()), Unlocking(t)) && table.View() == After(old(table.View()), Unlocking(t))
    {
      hide LockTable.Valid, LockTable.View, Runs, After, Step, Enabled;
      if closed {
        return true;
      }
      closed := true;
      ok := Commit(calls);
      table.Unlock(t, target, lock);
    }

    /** Call after call; when one fails, the temporary file goes, if it can be removed. */
    method Commit(calls: Calls) returns (ok: bool)
      requires tmp in dir.files && tmp != target
      modifies dir
      ensures ok == (calls.sync && calls.close && calls.chmod && calls.rename != RenameFailed)
      ensures dir.files == if calls.Publishes() then (old(dir.files) - {tmp})[target := old(dir.files)[tmp]]
                           else if calls.remove then old(dir.files) - {tmp} else old(dir.files)
    {
      if !calls.sync {
        dir.Remove(tmp, calls.remove);
        return false;
      }
      if !calls.close {
        dir.Remove(tmp, calls.remove);
        return false;
      }
      if !calls.chmod {
        dir.Remove(tmp, calls.remove);
        return false;
      }
      dir.Move(tmp, target, calls.rename);
      if calls.rename != Renamed {
        dir.Remove(tmp, calls.remove);
        return calls.rename == AlreadyThere;
      }
      ok := true;
    }

    /** Nothing is published, and the goroutine has given the lock back, once. */
    method Abort(calls: Calls) returns (ok: bool)
      requires Valid()
      modifies this`closed, dir, table, lock
      ensures Valid() && closed
      ensures ok == (old(closed) || (calls.close && calls.remove))
      ensures forall p :: p != tmp ==> dir.Reads(p) == old(dir.Reads(p))
      ensures old(closed) ==> dir.Reads(tmp) == old(dir.Reads(tmp)) && table.View() == old(table.View())
      ensures !old(closed) ==>
                && (dir.Reads(tmp) == None <==> calls.remove)
                && Runs(old(table.View()), Unlocking(t)) && table.View() == After(old(table.View()), Unlocking(t))
    {
      hide LockTable.Valid, LockTable.View, Runs, After, Step, Enabled;
      if closed {
        return true;
      }
      closed := true;
      dir.Remove(tmp, calls.remove);
      table.Unlock(t, target, lock);
      if !calls.close {
        return false;
      }
      ok := calls.remove;
    }
  }

  /** The bytes are written and the file closed, or, if they could not all be written, given up. */
  method Fill(file: AtomicFile, data: Bytes, accepted: nat, calls: Calls) returns (ok: bool)
    requires file.Valid() && !file.closed && file.written == [] && accepted <= |data|
    modifies file, file.dir, file.table, file.lock
    ensures ok <==> accepted == |data| && calls.sync && calls.close && calls.chmod && calls.rename != RenameFailed
    ensures forall p :: p != file.tmp ==>
              file.dir.Reads(p)
              == if accepted == |data| && calls.Publishes() && p == file.target then Some(data) else old(file.dir.Reads(p))
    ensures file.dir.Reads(file.tmp) == None <==> (accepted == |data| && calls.Publishes()) || calls.remove
    ensures Runs(old(file.table.View()), Unlocking(file.t))
    ensures file.table.Valid() && file.table.View() == After(old(file.table.View()), Unlocking(file.t))
  {
    hide LockTable.Valid, LockTable.View, Runs, After;
    file.Write(data, accepted);
    if accepted < |data| {
      ok := file.Abort(calls);
      return false;
    }
    assert [] + data[..accepted] == data;
    ok := file.Close(calls);
  }

  /**
   Publishing `data` under `path`, with the lock free. Whatever fails, a reader of the path finds
   all of the data or what was there before, no other file changes, and afterwards the table of
   locks and every goroutine stand as they did.
   */
  method WriteAtomicFile(dir: CacheDir, table: LockTable, ghost t: ThreadId, path: Path, tmp: Path, data: Bytes,
                         fileLock: bool, created: bool, accepted: nat, calls: Calls) returns (ok: bool)
    requires table.Valid() && Free(table.View(), t, path) && tmp != path && tmp !in dir.files && accepted <= |data|
    modifies dir, table.Repr()
    ensures var sent := fileLock && created && accepted == |data|;
            && (ok <==> sent && calls.sync && calls.close && calls.chmod && calls.rename != RenameFailed)
            && (forall p :: p != tmp ==>
                  dir.Reads(p) == if sent && calls.Publishes() && p == path then Some(data) else old(dir.Reads(p)))
            && (dir.Reads(tmp) == None <==> !fileLock || !created || (sent && calls.Publishes()) || calls.remove)
    ensures table.Valid() && Undisturbed(old(table.View()), table.View())
  {
    hide Inv, Step, Enabled, LockTable.View, LockTable.Wired, Runs, After, Free, Unlocking, Locking;
    UnlockUndoesLock(table.View(), t, path, true);
    var lock := table.LockCachePublication(t, path, fileLock);
    if !fileLock {
      return false;
    }
    if !created {
      table.Unlock(t, path, lock);
      return false;
    }
    var file := new AtomicFile(dir, table, lock, tmp, path, t);
    ok := Fill(file, data, accepted, calls);
  }

  /** The same locks are in use, and every goroutine is where it was. */
  predicate Undisturbed(s: State, v: State) { v.table == s.table && v.threads == s.threads }
}
