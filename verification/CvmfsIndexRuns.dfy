/** What the path index holds after any run of successful indexing calls. */
module CvmfsIndexRuns {
  import opened CvmfsIndex

  /* ------------------------------------------------------------------ */
  /* Chains of parents.                                                   */
  /* ------------------------------------------------------------------ */

  /** An entry, its parent entry, and so on up to the root. */
  datatype Chain = Top | Link(ent: Entry, up: Chain)

  function HashOf(c: Chain): Hash { if c.Top? then ROOT else c.ent.hash }

  function PathOf(fs: Naming, c: Chain): string {
    if c.Top? then "/" else fs.join(PathOf(fs, c.up), c.ent.name)
  }

  /** Every link is one of the given entries and hangs from the one above it. */
  predicate Sound(c: Chain, all: set<Entry>) {
    c.Top? || (c.ent in all && c.ent.parent == HashOf(c.up) && Sound(c.up, all))
  }

  /** `full` is a parent-chain path of `ent` through the given entries. */
  ghost predicate HasChain(fs: Naming, all: set<Entry>, ent: Entry, full: string) {
    exists c: Chain :: IsChain(fs, all, ent, full, c)
  }

  predicate IsChain(fs: Naming, all: set<Entry>, ent: Entry, full: string, c: Chain) {
    c.Link? && c.ent == ent && Sound(c, all) && PathOf(fs, c) == full
  }

  lemma {:induction false} SoundMore(c: Chain, all: set<Entry>, more: set<Entry>)
    requires Sound(c, all) && all <= more
    ensures Sound(c, more)
  {
    if c.Link? {
      SoundMore(c.up, all, more);
    }
  }

  /** Each known path is the path of a chain. */
  predicate Traced(fs: Naming, global: map<Hash, string>, chains: map<Hash, Chain>, all: set<Entry>) {
    chains.Keys == global.Keys
    && forall h :: h in chains ==> HashOf(chains[h]) == h && Sound(chains[h], all) && PathOf(fs, chains[h]) == global[h]
  }

  /** In the catalog at hand, the chain of a resolved hash starts with its own entry. */
  predicate DoneTraced(chains: map<Hash, Chain>, done: set<Hash>, local: map<Hash, Entry>) {
    forall h :: h in done ==> h in chains && h in local && chains[h].Link? && chains[h].ent == local[h]
  }

  lemma {:induction false} ResolveTraced(fs: Naming, global: map<Hash, string>, done: set<Hash>,
                                         local: map<Hash, Entry>, ent: Entry, busy: set<Hash>,
                                         chains: map<Hash, Chain>, all: set<Entry>) returns (after: map<Hash, Chain>)
    requires Keyed(local) && ent.hash in local && local[ent.hash] == ent && done <= global.Keys
    requires local.Values <= all && Traced(fs, global, chains, all) && DoneTraced(chains, done, local)
    requires Resolve(fs, global, done, local, ent, busy).Resolved?
    ensures var r := Resolve(fs, global, done, local, ent, busy);
            Traced(fs, r.global, after, all) && DoneTraced(after, r.done, local)
    decreases local.Keys - busy
  {
    assert ent in local.Values;
    if ent.hash in done {
      after := chains;
    } else if ent.parent in global {
      after := chains[ent.hash := Link(ent, chains[ent.parent])];
    } else {
      var up := local[ent.parent];
      var mid := ResolveTraced(fs, global, done, local, up, busy + {ent.hash}, chains, all);
      after := mid[ent.hash := Link(ent, mid[up.hash])];
    }
  }

  /** The entries with the paths found for them. */
  ghost predicate Placements(fs: Naming, all: set<Entry>, entries: seq<Entry>, placed: seq<Entry>) {
    |placed| == |entries|
    && forall i :: 0 <= i < |entries| ==>
         placed[i] == entries[i].(full := placed[i].full) && HasChain(fs, all, entries[i], placed[i].full)
  }

  lemma {:induction false} EntriesTraced(fs: Naming, ix: Index, done: set<Hash>, local: map<Hash, Entry>,
                                         entries: seq<Entry>,
                                         chains: map<Hash, Chain>, all: set<Entry>) returns (after: map<Hash, Chain>)
    requires Keyed(local) && done <= ix.global.Keys && (forall e :: e in entries ==> e.hash in local && local[e.hash] == e)
    requires local.Values <= all && Traced(fs, ix.global, chains, all) && DoneTraced(chains, done, local)
    requires IndexEntries(fs, ix, done, local, entries).ok
    ensures var o := IndexEntries(fs, ix, done, local, entries);
            Traced(fs, o.index.global, after, all) && Placements(fs, all, entries, o.placed)
    decreases |entries|
  {
    hide Resolve, Sound, Traced;
    if entries == [] {
      after := chains;
    } else {
      var e := entries[0];
      var r := Resolve(fs, ix.global, done, local, e, {});
      var mid := ResolveTraced(fs, ix.global, done, local, e, {}, chains, all);
      var ix' := Record(fs, ix.(global := r.global), e.(full := r.full));
      after := EntriesTraced(fs, ix', r.done, local, entries[1..], mid, all);
      ChainFor(fs, r.global, mid, all, e);
    }
  }

  lemma ChainFor(fs: Naming, global: map<Hash, string>, chains: map<Hash, Chain>, all: set<Entry>, ent: Entry)
    requires Traced(fs, global, chains, all) && ent.hash in chains && chains[ent.hash].Link? && chains[ent.hash].ent == ent
    ensures HasChain(fs, all, ent, global[ent.hash])
  {
    assert IsChain(fs, all, ent, global[ent.hash], chains[ent.hash]);
  }

  /* ------------------------------------------------------------------ */
  /* Contents of the two tables.                                          */
  /* ------------------------------------------------------------------ */

  /** The last of the listed entries at each path. */
  function ByPath(log: seq<Entry>): map<string, Entry> {
    if log == [] then map[] else ByPath(log[..|log| - 1])[log[|log| - 1].full := log[|log| - 1]]
  }

  /** The listed entries in a directory, in order. */
  function InDir(fs: Naming, log: seq<Entry>, d: string): seq<Entry> {
    if log == [] then []
    else
      var last := log[|log| - 1];
      InDir(fs, log[..|log| - 1], d) + if fs.dir(last.full) == d then [last] else []
  }

  ghost predicate Holds(fs: Naming, ix: Index, log: seq<Entry>) {
    ix.byPath == ByPath(log) && forall d :: ChildrenAt(ix.children, d) == InDir(fs, log, d)
  }

  lemma RecordHolds(fs: Naming, ix: Index, log: seq<Entry>, ent: Entry)
    requires Holds(fs, ix, log)
    ensures Holds(fs, Record(fs, ix, ent), log + [ent])
  {
    assert (log + [ent])[..|log|] == log;
  }

  lemma {:induction false} EntriesHold(fs: Naming, ix: Index, done: set<Hash>, local: map<Hash, Entry>,
                                       entries: seq<Entry>, log: seq<Entry>)
    requires Keyed(local) && done <= ix.global.Keys && (forall e :: e in entries ==> e.hash in local)
    requires Holds(fs, ix, log)
    ensures var o := IndexEntries(fs, ix, done, local, entries); Holds(fs, o.index, log + o.placed)
    decreases |entries|
  {
    hide Resolve, Holds, Record, IndexEntries;
    var o := IndexEntries(fs, ix, done, local, entries);
    if entries == [] {
      NothingToIndex(fs, ix, done, local);
      assert log + [] == log;
    } else {
      IndexStep(fs, ix, done, local, entries, 0);
      assert entries[0..] == entries;
      var r := Resolve(fs, ix.global, done, local, entries[0], {});
      if r.Failed? {
        assert log + [] == log;
      } else {
        var ent, ix' := entries[0].(full := r.full), ix.(global := r.global);
        SameTables(fs, ix, ix', log);
        RecordHolds(fs, ix', log, ent);
        RecordKeys(fs, ix', ent);
        EntriesHold(fs, Record(fs, ix', ent), r.done, local, entries[1..], log + [ent]);
        var rest := IndexEntries(fs, Record(fs, ix', ent), r.done, local, entries[1..]);
        assert log + ([ent] + rest.placed) == log + [ent] + rest.placed;
      }
    }
  }

  lemma SameTables(fs: Naming, ix: Index, ix': Index, log: seq<Entry>)
    requires Holds(fs, ix, log) && ix'.byPath == ix.byPath && ix'.children == ix.children
    ensures Holds(fs, ix', log)
  {
  }

  /** The table by path lists exactly the paths of the entries, each with an entry that has it. */
  lemma {:induction false} ByPathIsExact(log: seq<Entry>, q: string)
    ensures q in ByPath(log) <==> exists i :: 0 <= i < |log| && log[i].full == q
    ensures q in ByPath(log) ==> ByPath(log)[q] in log && ByPath(log)[q].full == q
  {
    if log != [] {
      var front := log[..|log| - 1];
      ByPathIsExact(front, q);
      if i :| 0 <= i < |log| - 1 && log[i].full == q {
        assert front[i].full == q;
      }
    }
  }

  /** A directory lists exactly the entries whose path is in it. */
  lemma {:induction false} InDirIsExact(fs: Naming, log: seq<Entry>, d: string, ent: Entry)
    ensures ent in InDir(fs, log, d) <==> ent in log && fs.dir(ent.full) == d
    ensures multiset(InDir(fs, log, d))[ent] == if fs.dir(ent.full) == d then multiset(log)[ent] else 0
  {
    if log != [] {
      InDirIsExact(fs, log[..|log| - 1], d, ent);
      assert log == log[..|log| - 1] + [log[|log| - 1]];
    }
  }

  /* ------------------------------------------------------------------ */
  /* Runs.                                                                */
  /* ------------------------------------------------------------------ */

  function IndexAll(fs: Naming, ix: Index, catalogs: seq<seq<Entry>>): Outcome
    decreases |catalogs|
  {
    if catalogs == [] then Outcome(true, ix, [])
    else
      var first := IndexCatalog(fs, ix, catalogs[0]);
      if !first.ok then first
      else
        var rest := IndexAll(fs, first.index, catalogs[1..]);
        rest.(placed := first.placed + rest.placed)
  }

  function Flatten(catalogs: seq<seq<Entry>>): seq<Entry> {
    if catalogs == [] then [] else catalogs[0] + Flatten(catalogs[1..])
  }

  function Entries(catalogs: seq<seq<Entry>>): set<Entry> { set e | e in Flatten(catalogs) }

  predicate CatalogsDistinct(catalogs: seq<seq<Entry>>) {
    catalogs == [] || (DistinctHashes(catalogs[0]) && CatalogsDistinct(catalogs[1..]))
  }

  lemma DistinctLocal(entries: seq<Entry>)
    requires DistinctHashes(entries)
    ensures forall e :: e in entries ==> Local(entries)[e.hash] == e
    ensures Local(entries).Values == set e | e in entries
  {
    forall e | e in entries
      ensures Local(entries)[e.hash] == e && e in Local(entries).Values
    {
      var i :| 0 <= i < |entries| && entries[i] == e;
      LocalHolds(entries, i);
    }
  }

  lemma {:induction false} RunTraced(fs: Naming, ix: Index, catalogs: seq<seq<Entry>>, chains: map<Hash, Chain>,
                                     all: set<Entry>)
    requires CatalogsDistinct(catalogs) && Entries(catalogs) <= all && Traced(fs, ix.global, chains, all)
    requires IndexAll(fs, ix, catalogs).ok
    ensures Placements(fs, all, Flatten(catalogs), IndexAll(fs, ix, catalogs).placed)
    decreases |catalogs|
  {
    hide IndexEntries, Traced, HasChain;
    if catalogs != [] {
      var first := IndexCatalog(fs, ix, catalogs[0]);
      DistinctLocal(catalogs[0]);
      assert forall e :: e in catalogs[0] ==> e in Entries(catalogs);
      assert Entries(catalogs[1..]) <= Entries(catalogs);
      var after := EntriesTraced(fs, ix, {}, Local(catalogs[0]), catalogs[0], chains, all);
      RunTraced(fs, first.index, catalogs[1..], after, all);
      JoinPlacements(fs, all, catalogs[0], first.placed, Flatten(catalogs[1..]), IndexAll(fs, first.index, catalogs[1..]).placed);
    }
  }

  lemma JoinPlacements(fs: Naming, all: set<Entry>, a: seq<Entry>, pa: seq<Entry>, b: seq<Entry>, pb: seq<Entry>)
    requires Placements(fs, all, a, pa) && Placements(fs, all, b, pb)
    ensures Placements(fs, all, a + b, pa + pb)
  {
    hide HasChain;
  }

  lemma {:induction false} RunHolds(fs: Naming, ix: Index, catalogs: seq<seq<Entry>>, log: seq<Entry>)
    requires Holds(fs, ix, log)
    ensures var o := IndexAll(fs, ix, catalogs); Holds(fs, o.index, log + o.placed)
    decreases |catalogs|
  {
    hide Holds, IndexEntries;
    assert log + [] == log;
    if catalogs != [] {
      var first := IndexCatalog(fs, ix, catalogs[0]);
      EntriesHold(fs, ix, {}, Local(catalogs[0]), catalogs[0], log);
      if first.ok {
        RunHolds(fs, first.index, catalogs[1..], log + first.placed);
        var rest := IndexAll(fs, first.index, catalogs[1..]);
        assert log + (first.placed + rest.placed) == log + first.placed + rest.placed;
      }
    }
  }

  /**
   After any run without a failure the two tables hold exactly the entries of the
   indexed catalogs, each under a path of its parent chain through those entries.
   */
  lemma IndexIsExact(fs: Naming, catalogs: seq<seq<Entry>>)
    requires CatalogsDistinct(catalogs) && IndexAll(fs, NEW_INDEX, catalogs).ok
    ensures var o := IndexAll(fs, NEW_INDEX, catalogs);
            Placements(fs, Entries(catalogs), Flatten(catalogs), o.placed) && Holds(fs, o.index, o.placed)
  {
    RunTraced(fs, NEW_INDEX, catalogs, map[ROOT := Top], Entries(catalogs));
    RunHolds(fs, NEW_INDEX, catalogs, []);
    assert [] + IndexAll(fs, NEW_INDEX, catalogs).placed == IndexAll(fs, NEW_INDEX, catalogs).placed;
  }

  /** Entries of the same hash agree on name and parent, and none has the hash of the root. */
  predicate HashesArePaths(all: set<Entry>) {
    && (forall e, f :: e in all && f in all && e.hash == f.hash ==> e.name == f.name && e.parent == f.parent)
    && (forall e :: e in all ==> e.hash != ROOT)
  }

  /** Chains to the same hash then agree on the path. */
  lemma {:induction false} OnePath(fs: Naming, all: set<Entry>, c: Chain, d: Chain)
    requires HashesArePaths(all) && Sound(c, all) && Sound(d, all) && HashOf(c) == HashOf(d)
    ensures PathOf(fs, c) == PathOf(fs, d)
  {
    if c.Link? && d.Link? {
      OnePath(fs, all, c.up, d.up);
    }
  }

  /** When hashes stand for paths, the path of an entry is the path of its chain, in whatever order things came. */
  lemma ThePath(fs: Naming, catalogs: seq<seq<Entry>>, i: nat, c: Chain)
    requires CatalogsDistinct(catalogs) && IndexAll(fs, NEW_INDEX, catalogs).ok && HashesArePaths(Entries(catalogs))
    requires i < |Flatten(catalogs)| && c.Link? && c.ent == Flatten(catalogs)[i] && Sound(c, Entries(catalogs))
    ensures |IndexAll(fs, NEW_INDEX, catalogs).placed| == |Flatten(catalogs)|
    ensures IndexAll(fs, NEW_INDEX, catalogs).placed[i].full == PathOf(fs, c)
  {
    IndexIsExact(fs, catalogs);
    var full := IndexAll(fs, NEW_INDEX, catalogs).placed[i].full;
    var d: Chain :| IsChain(fs, Entries(catalogs), c.ent, full, d);
    OnePath(fs, Entries(catalogs), c, d);
  }

  /** So an entry that two runs index gets the same path in both, whatever the order of catalogs and entries. */
  lemma RunsAgree(fs: Naming, catalogs: seq<seq<Entry>>, others: seq<seq<Entry>>, i: nat, j: nat)
    requires CatalogsDistinct(catalogs) && IndexAll(fs, NEW_INDEX, catalogs).ok
    requires CatalogsDistinct(others) && IndexAll(fs, NEW_INDEX, others).ok
    requires HashesArePaths(Entries(catalogs) + Entries(others))
    requires i < |Flatten(catalogs)| && j < |Flatten(others)| && Flatten(catalogs)[i] == Flatten(others)[j]
    ensures |IndexAll(fs, NEW_INDEX, catalogs).placed| == |Flatten(catalogs)|
    ensures |IndexAll(fs, NEW_INDEX, others).placed| == |Flatten(others)|
    ensures IndexAll(fs, NEW_INDEX, catalogs).placed[i].full == IndexAll(fs, NEW_INDEX, others).placed[j].full
  {
    var all := Entries(catalogs) + Entries(others);
    IndexIsExact(fs, catalogs);
    IndexIsExact(fs, others);
    var ent := Flatten(catalogs)[i];
    var p, q := IndexAll(fs, NEW_INDEX, catalogs).placed[i].full, IndexAll(fs, NEW_INDEX, others).placed[j].full;
    var c: Chain :| IsChain(fs, Entries(catalogs), ent, p, c);
    var d: Chain :| IsChain(fs, Entries(others), ent, q, d);
    SoundMore(c, Entries(catalogs), all);
    SoundMore(d, Entries(others), all);
    OnePath(fs, all, c, d);
  }
}
