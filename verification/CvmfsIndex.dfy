/**
 The path index of a CVMFS repository: catalogs list entries by hash, and indexing a
 catalog finds the full path of each entry through its chain of parents.
 */
module CvmfsIndex {

  /** A path hash: two 64-bit halves. */
  type Hash = (int, int)

  const ROOT: Hash := (0, 0)

  /** `data` stands for the attributes the index only carries along. */
  datatype Entry = Entry(hash: Hash, parent: Hash, name: string, data: nat, full: string)

  /** Joining and cleaning a path, and taking its directory. */
  datatype Naming = Naming(join: (string, string) -> string, dir: string -> string)

  /* ------------------------------------------------------------------ */
  /* Resolving one entry.                                                 */
  /* ------------------------------------------------------------------ */

  datatype Failure = Cycle | ParentNotFound

  /** A path, the paths known afterwards, and the hashes resolved in this catalog. */
  datatype Resolved = Failed(why: Failure) | Resolved(full: string, global: map<Hash, string>, done: set<Hash>)

  /** A catalog's entries by hash. */
  predicate Keyed(local: map<Hash, Entry>) {
    forall h :: h in local ==> local[h].hash == h
  }

  function Resolve(fs: Naming, global: map<Hash, string>, done: set<Hash>, local: map<Hash, Entry>, ent: Entry,
                   busy: set<Hash>): (r: Resolved)
    requires Keyed(local) && ent.hash in local && done <= global.Keys
    ensures r.Resolved? ==> r.done <= r.global.Keys && global.Keys <= r.global.Keys && done <= r.done
    ensures r.Resolved? ==> ent.hash in r.done && r.global[ent.hash] == r.full
    decreases local.Keys - busy
  {
    if ent.hash in done then Resolved(global[ent.hash], global, done)
    else if ent.hash in busy then Failed(Cycle)
    else if ent.parent in global then Place(fs, global, done, ent, global[ent.parent])
    else if ent.parent in local then
      var up := Resolve(fs, global, done, local, local[ent.parent], busy + {ent.hash});
      if up.Failed? then up else Place(fs, up.global, up.done, ent, up.full)
    else Failed(ParentNotFound)
  }

  function Place(fs: Naming, global: map<Hash, string>, done: set<Hash>, ent: Entry, parentPath: string): Resolved {
    var full := fs.join(parentPath, ent.name);
    Resolved(full, global[ent.hash := full], done + {ent.hash})
  }

  /* ------------------------------------------------------------------ */
  /* Indexing a catalog.                                                  */
  /* ------------------------------------------------------------------ */

  datatype Index = Index(global: map<Hash, string>, byPath: map<string, Entry>, children: map<string, seq<Entry>>)

  const NEW_INDEX := Index(map[ROOT := "/"], map[], map[])

  function Local(entries: seq<Entry>): (local: map<Hash, Entry>)
    ensures Keyed(local) && forall e :: e in entries ==> e.hash in local
    ensures forall h :: h in local ==> local[h] in entries
  {
    if entries == [] then map[]
    else
      var last := entries[|entries| - 1];
      Local(entries[..|entries| - 1])[last.hash := last]
  }

  function ChildrenAt(children: map<string, seq<Entry>>, d: string): seq<Entry> {
    if d in children then children[d] else []
  }

  function Record(fs: Naming, ix: Index, ent: Entry): Index {
    var d := fs.dir(ent.full);
    ix.(byPath := ix.byPath[ent.full := ent], children := ix.children[d := ChildrenAt(ix.children, d) + [ent]])
  }

  lemma RecordKeys(fs: Naming, ix: Index, ent: Entry)
    ensures Record(fs, ix, ent).global == ix.global
  {
  }

  /** The index afterwards, and the entries that got their paths before any failure. */
  datatype Outcome = Outcome(ok: bool, index: Index, placed: seq<Entry>)

  function IndexEntries(fs: Naming, ix: Index, done: set<Hash>, local: map<Hash, Entry>,
                        entries: seq<Entry>): (o: Outcome)
    requires Keyed(local) && done <= ix.global.Keys && forall e :: e in entries ==> e.hash in local
    ensures |o.placed| <= |entries| && (o.ok ==> |o.placed| == |entries|)
    decreases |entries|
  {
    if entries == [] then Outcome(true, ix, [])
    else
      var r := Resolve(fs, ix.global, done, local, entries[0], {});
      if r.Failed? then Outcome(false, ix, [])
      else
        var ent := entries[0].(full := r.full);
        var rest := IndexEntries(fs, Record(fs, ix.(global := r.global), ent), r.done, local, entries[1..]);
        rest.(placed := [ent] + rest.placed)
  }

  lemma NothingToIndex(fs: Naming, ix: Index, done: set<Hash>, local: map<Hash, Entry>)
    requires Keyed(local) && done <= ix.global.Keys
    ensures IndexEntries(fs, ix, done, local, []) == Outcome(true, ix, [])
  {
  }

  /** One more entry of a catalog indexed, or the call given up. */
  lemma IndexStep(fs: Naming, ix: Index, done: set<Hash>, local: map<Hash, Entry>, entries: seq<Entry>, i: nat)
    requires Keyed(local) && done <= ix.global.Keys && (forall e :: e in entries ==> e.hash in local) && i < |entries|
    ensures var r, o := Resolve(fs, ix.global, done, local, entries[i], {}), IndexEntries(fs, ix, done, local, entries[i..]);
            if r.Failed? then o == Outcome(false, ix, [])
            else
              var ent := entries[i].(full := r.full);
              var more := IndexEntries(fs, Record(fs, ix.(global := r.global), ent), r.done, local, entries[i + 1..]);
              o == more.(placed := [ent] + more.placed)
  {
    hide Resolve, Record;
    assert entries[i..][1..] == entries[i + 1..];
  }

  function IndexCatalog(fs: Naming, ix: Index, entries: seq<Entry>): (o: Outcome)
    ensures |o.placed| <= |entries| && (o.ok ==> |o.placed| == |entries|)
  {
    IndexEntries(fs, ix, {}, Local(entries), entries)
  }

  /* ------------------------------------------------------------------ */
  /* When resolving succeeds.                                             */
  /* ------------------------------------------------------------------ */

  /** Within `k` local steps up from `ent` there is a parent whose path is known. */
  predicate Climbs(known: set<Hash>, local: map<Hash, Entry>, ent: Entry, k: nat)
    decreases k
  {
    ent.parent in known || (k > 0 && ent.parent in local && Climbs(known, local, local[ent.parent], k - 1))
  }

  /** Some parent up the chain has a known path: no cycle, and no parent missing, before it. */
  ghost predicate Grounded(known: set<Hash>, local: map<Hash, Entry>, ent: Entry) {
    exists k :: Climbs(known, local, ent, k)
  }

  lemma {:induction false} ClimbsMonotone(known: set<Hash>, local: map<Hash, Entry>, ent: Entry, k: nat, m: nat)
    requires Climbs(known, local, ent, k) && k <= m
    ensures Climbs(known, local, ent, m)
    decreases k
  {
    if ent.parent !in known {
      ClimbsMonotone(known, local, local[ent.parent], k - 1, m - 1);
    }
  }

  /** What was resolved in this catalog hangs from a known parent. */
  predicate DoneHangs(global: map<Hash, string>, done: set<Hash>, local: map<Hash, Entry>) {
    done <= global.Keys && forall h :: h in done ==> h in local && local[h].parent in global
  }

  /** The loop through parents stops at a known one exactly when there is one. */
  lemma {:induction false} ResolveClimbs(fs: Naming, global: map<Hash, string>, done: set<Hash>,
                                         local: map<Hash, Entry>, ent: Entry, busy: set<Hash>, k: nat)
    requires Keyed(local) && ent.hash in local && local[ent.hash] == ent && DoneHangs(global, done, local)
    requires Climbs(global.Keys, local, ent, k) && (k > 0 ==> !Climbs(global.Keys, local, ent, k - 1))
    requires forall b :: b in busy ==> b in local && !Climbs(global.Keys, local, local[b], k)
    ensures Resolve(fs, global, done, local, ent, busy).Resolved?
    decreases k
  {
    if ent.hash !in done && ent.parent !in global {
      var up := local[ent.parent];
      forall b | b in busy + {ent.hash}
        ensures b in local && !Climbs(global.Keys, local, local[b], k - 1)
      {
        if b in busy && Climbs(global.Keys, local, local[b], k - 1) {
          ClimbsMonotone(global.Keys, local, local[b], k - 1, k);
        }
      }
      ResolveClimbs(fs, global, done, local, up, busy + {ent.hash}, k - 1);
    }
  }

  /** The fewest steps that reach a known parent. */
  lemma {:induction false} FewestSteps(known: set<Hash>, local: map<Hash, Entry>, ent: Entry, k: nat) returns (m: nat)
    requires Climbs(known, local, ent, k)
    ensures Climbs(known, local, ent, m) && (m > 0 ==> !Climbs(known, local, ent, m - 1))
    decreases k
  {
    if k > 0 && Climbs(known, local, ent, k - 1) {
      m := FewestSteps(known, local, ent, k - 1);
    } else {
      m := k;
    }
  }

  lemma {:induction false} ResolvedClimbs(fs: Naming, global: map<Hash, string>, done: set<Hash>,
                                          local: map<Hash, Entry>, ent: Entry, busy: set<Hash>)
    requires Keyed(local) && ent.hash in local && local[ent.hash] == ent && DoneHangs(global, done, local)
    requires Resolve(fs, global, done, local, ent, busy).Resolved?
    ensures Grounded(global.Keys, local, ent)
    decreases local.Keys - busy
  {
    if ent.parent in global {
      assert Climbs(global.Keys, local, ent, 0);
    } else {
      ResolvedClimbs(fs, global, done, local, local[ent.parent], busy + {ent.hash});
      var k: nat :| Climbs(global.Keys, local, local[ent.parent], k);
      assert Climbs(global.Keys, local, ent, k + 1);
    }
  }

  /** Resolving stops on every parent graph, and fails exactly when no parent up the chain is known. */
  lemma ResolveIff(fs: Naming, global: map<Hash, string>, done: set<Hash>, local: map<Hash, Entry>, ent: Entry)
    requires Keyed(local) && ent.hash in local && local[ent.hash] == ent && DoneHangs(global, done, local)
    ensures Resolve(fs, global, done, local, ent, {}).Resolved? <==> Grounded(global.Keys, local, ent)
  {
    if Resolve(fs, global, done, local, ent, {}).Resolved? {
      ResolvedClimbs(fs, global, done, local, ent, {});
    }
    if Grounded(global.Keys, local, ent) {
      var k: nat :| Climbs(global.Keys, local, ent, k);
      var m := FewestSteps(global.Keys, local, ent, k);
      ResolveClimbs(fs, global, done, local, ent, {}, m);
    }
  }

  /** Around a cycle of parents that are all local and unknown there is nothing to climb to. */
  lemma {:induction false} CycleNeverClimbs(known: set<Hash>, local: map<Hash, Entry>, cycle: set<Hash>, ent: Entry,
                                            k: nat)
    requires cycle <= local.Keys && forall h :: h in cycle ==> local[h].parent in cycle && h !in known
    requires ent.parent in cycle
    ensures !Climbs(known, local, ent, k)
    decreases k
  {
    if k > 0 {
      CycleNeverClimbs(known, local, cycle, local[ent.parent], k - 1);
    }
  }

  /* ------------------------------------------------------------------ */
  /* When indexing a catalog succeeds.                                    */
  /* ------------------------------------------------------------------ */

  predicate DistinctHashes(entries: seq<Entry>) {
    forall i, j :: 0 <= i < j < |entries| ==> entries[i].hash != entries[j].hash
  }

  lemma {:induction false} LocalHolds(entries: seq<Entry>, i: nat)
    requires DistinctHashes(entries) && i < |entries|
    ensures Local(entries)[entries[i].hash] == entries[i]
  {
    if i < |entries| - 1 {
      var front := entries[..|entries| - 1];
      assert front[i] == entries[i];
      LocalHolds(front, i);
    }
  }

  /** Paths known now were known at the start or belong to local entries that climb from there. */
  ghost predicate Sprung(known: set<Hash>, global: map<Hash, string>, local: map<Hash, Entry>) {
    known <= global.Keys && forall h :: h in global && h !in known ==> h in local && Grounded(known, local, local[h])
  }

  lemma {:induction false} ClimbsFromStart(known: set<Hash>, global: map<Hash, string>, local: map<Hash, Entry>,
                                           ent: Entry, k: nat)
    requires Sprung(known, global, local) && Climbs(global.Keys, local, ent, k)
    ensures Grounded(known, local, ent)
    decreases k
  {
    if ent.parent in known {
      assert Climbs(known, local, ent, 0);
    } else {
      if ent.parent !in global {
        ClimbsFromStart(known, global, local, local[ent.parent], k - 1);
      }
      var m: nat :| Climbs(known, local, local[ent.parent], m);
      assert Climbs(known, local, ent, m + 1);
    }
  }

  lemma {:induction false} ClimbsFromMore(known: set<Hash>, more: set<Hash>, local: map<Hash, Entry>, ent: Entry, k: nat)
    requires known <= more && Climbs(known, local, ent, k)
    ensures Climbs(more, local, ent, k)
    decreases k
  {
    if ent.parent !in more {
      ClimbsFromMore(known, more, local, local[ent.parent], k - 1);
    }
  }

  lemma GroundedIff(known: set<Hash>, global: map<Hash, string>, local: map<Hash, Entry>, ent: Entry)
    requires Sprung(known, global, local)
    ensures Grounded(global.Keys, local, ent) <==> Grounded(known, local, ent)
  {
    if Grounded(global.Keys, local, ent) {
      var k: nat :| Climbs(global.Keys, local, ent, k);
      ClimbsFromStart(known, global, local, ent, k);
    }
    if Grounded(known, local, ent) {
      var k: nat :| Climbs(known, local, ent, k);
      ClimbsFromMore(known, global.Keys, local, ent, k);
    }
  }

  lemma {:induction false} ResolveKeeps(fs: Naming, known: set<Hash>, global: map<Hash, string>, done: set<Hash>,
                                        local: map<Hash, Entry>, ent: Entry, busy: set<Hash>)
    requires Keyed(local) && ent.hash in local && local[ent.hash] == ent
    requires DoneHangs(global, done, local) && Sprung(known, global, local)
    requires Resolve(fs, global, done, local, ent, busy).Resolved?
    ensures var r := Resolve(fs, global, done, local, ent, busy); DoneHangs(r.global, r.done, local) && Sprung(known, r.global, local)
    decreases local.Keys - busy
  {
    if ent.hash !in done {
      ResolvedClimbs(fs, global, done, local, ent, busy);
      GroundedIff(known, global, local, ent);
      if ent.parent !in global {
        ResolveKeeps(fs, known, global, done, local, local[ent.parent], busy + {ent.hash});
      }
    }
  }

  /** Indexing succeeds exactly when every entry has a chain of parents to a known path. */
  lemma {:induction false} IndexEntriesIff(fs: Naming, known: set<Hash>, ix: Index, done: set<Hash>,
                                           local: map<Hash, Entry>, entries: seq<Entry>)
    requires Keyed(local) && (forall e :: e in entries ==> e.hash in local && local[e.hash] == e)
    requires DoneHangs(ix.global, done, local) && Sprung(known, ix.global, local)
    ensures IndexEntries(fs, ix, done, local, entries).ok <==> forall e :: e in entries ==> Grounded(known, local, e)
    decreases |entries|
  {
    if entries != [] {
      var e := entries[0];
      ResolveIff(fs, ix.global, done, local, e);
      GroundedIff(known, ix.global, local, e);
      var r := Resolve(fs, ix.global, done, local, e, {});
      if r.Resolved? {
        ResolveKeeps(fs, known, ix.global, done, local, e, {});
        IndexEntriesIff(fs, known, Record(fs, ix.(global := r.global), e.(full := r.full)), r.done, local, entries[1..]);
        assert forall x :: x in entries <==> x == e || x in entries[1..];
      }
    }
  }

  lemma IndexCatalogIff(fs: Naming, ix: Index, entries: seq<Entry>)
    requires DistinctHashes(entries)
    ensures IndexCatalog(fs, ix, entries).ok <==> forall e :: e in entries ==> Grounded(ix.global.Keys, Local(entries), e)
  {
    forall e | e in entries
      ensures Local(entries)[e.hash] == e
    {
      var i :| 0 <= i < |entries| && entries[i] == e;
      LocalHolds(entries, i);
    }
    IndexEntriesIff(fs, ix.global.Keys, ix, {}, Local(entries), entries);
  }
}
