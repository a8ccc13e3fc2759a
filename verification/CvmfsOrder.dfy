/** How the paths of a catalog depend on the order of its entries, and what a failed call leaves behind. */
module CvmfsOrder {
  import opened CvmfsIndex
  import opened CvmfsIndexRuns

  /* ------------------------------------------------------------------ */
  /* The path that the paths known beforehand give to an entry.           */
  /* ------------------------------------------------------------------ */

  function ClimbPath(fs: Naming, known: map<Hash, string>, local: map<Hash, Entry>, ent: Entry, k: nat): string
    requires Climbs(known.Keys, local, ent, k)
    decreases k
  {
    if ent.parent in known then fs.join(known[ent.parent], ent.name)
    else fs.join(ClimbPath(fs, known, local, local[ent.parent], k - 1), ent.name)
  }

  lemma {:induction false} ClimbPathSame(fs: Naming, known: map<Hash, string>, local: map<Hash, Entry>, ent: Entry,
                                         k: nat, m: nat)
    requires Climbs(known.Keys, local, ent, k) && Climbs(known.Keys, local, ent, m)
    ensures ClimbPath(fs, known, local, ent, k) == ClimbPath(fs, known, local, ent, m)
    decreases k
  {
    if ent.parent !in known {
      ClimbPathSame(fs, known, local, local[ent.parent], k - 1, m - 1);
    }
  }

  ghost function PathFrom(fs: Naming, known: map<Hash, string>, local: map<Hash, Entry>, ent: Entry): string
    requires Grounded(known.Keys, local, ent)
  {
    var k: nat :| Climbs(known.Keys, local, ent, k);
    ClimbPath(fs, known, local, ent, k)
  }

  /** Under a known parent, or under a parent of the same catalog. */
  lemma PathFromStep(fs: Naming, known: map<Hash, string>, local: map<Hash, Entry>, ent: Entry)
    ensures ent.parent in known ==> Grounded(known.Keys, local, ent)
                                    && PathFrom(fs, known, local, ent) == fs.join(known[ent.parent], ent.name)
    ensures ent.parent !in known && ent.parent in local && Grounded(known.Keys, local, local[ent.parent]) ==>
              && Grounded(known.Keys, local, ent)
              && PathFrom(fs, known, local, ent) == fs.join(PathFrom(fs, known, local, local[ent.parent]), ent.name)
  {
    if ent.parent in known {
      assert Climbs(known.Keys, local, ent, 0);
    } else if ent.parent in local && Grounded(known.Keys, local, local[ent.parent]) {
      var up := local[ent.parent];
      var k: nat :| Climbs(known.Keys, local, up, k) && PathFrom(fs, known, local, up) == ClimbPath(fs, known, local, up, k);
      assert Climbs(known.Keys, local, ent, k + 1);
      var m: nat :| Climbs(known.Keys, local, ent, m) && PathFrom(fs, known, local, ent) == ClimbPath(fs, known, local, ent, m);
      ClimbPathSame(fs, known, local, ent, m, k + 1);
    }
  }

  /** The climb from `ent` to a known parent goes through the entry of hash `h`. */
  predicate Through(known: set<Hash>, local: map<Hash, Entry>, ent: Entry, k: nat, h: Hash)
    decreases k
  {
    ent.hash == h
    || (ent.parent !in known && k > 0 && ent.parent in local && Through(known, local, local[ent.parent], k - 1, h))
  }

  ghost predicate Passes(known: set<Hash>, local: map<Hash, Entry>, ent: Entry, h: Hash) {
    exists k: nat :: Through(known, local, ent, k, h)
  }

  lemma PassesStep(known: set<Hash>, local: map<Hash, Entry>, ent: Entry, h: Hash)
    requires ent.parent !in known && ent.parent in local && Passes(known, local, local[ent.parent], h)
    ensures Passes(known, local, ent, h)
  {
    var k: nat :| Through(known, local, local[ent.parent], k, h);
    assert Through(known, local, ent, k + 1, h);
  }

  /* ------------------------------------------------------------------ */
  /* Catalogs whose paths do not depend on the order of their entries.    */
  /* ------------------------------------------------------------------ */

  /** The parent of `ent` is known and listed again, and is not itself reached through `ent`. */
  ghost predicate Rehung(known: set<Hash>, local: map<Hash, Entry>, ent: Entry) {
    && ent.parent in known && ent.parent in local && Grounded(known, local, local[ent.parent])
    && !Passes(known, local, local[ent.parent], ent.hash)
  }

  /** An entry whose parent is listed again has one path under the parent's old and new path. */
  ghost predicate Settled(fs: Naming, known: map<Hash, string>, local: map<Hash, Entry>) {
    forall c :: c in local && Rehung(known.Keys, local, local[c]) ==>
      fs.join(PathFrom(fs, known, local, local[local[c].parent]), local[c].name)
      == fs.join(known[local[c].parent], local[c].name)
  }

  /** Midway through the catalog: `done` hashes have the path that the start gives them, others are as at the start. */
  ghost predicate Follows(fs: Naming, known: map<Hash, string>, local: map<Hash, Entry>, global: map<Hash, string>,
                          done: set<Hash>) {
    && known.Keys <= global.Keys && done <= global.Keys && global.Keys <= known.Keys + done
    && (forall h :: h in known && h !in done ==> global[h] == known[h])
    && (forall h :: h in done ==> h in local && Grounded(known.Keys, local, local[h])
                                  && global[h] == PathFrom(fs, known, local, local[h]))
    && (forall h :: h in done && local[h].parent !in known ==> local[h].parent in done)
  }

  /** A resolved hash has everything on its climb resolved. */
  lemma {:induction false} PassedIsDone(fs: Naming, known: map<Hash, string>, local: map<Hash, Entry>,
                                        global: map<Hash, string>, done: set<Hash>, h: Hash, k: nat, c: Hash)
    requires Keyed(local) && Follows(fs, known, local, global, done) && h in done
    requires Through(known.Keys, local, local[h], k, c)
    ensures c in done
    decreases k
  {
    if local[h].hash != c {
      PassedIsDone(fs, known, local, global, done, local[h].parent, k - 1, c);
    }
  }

  /** The path under a known parent is the path that the start gives. */
  lemma KnownParent(fs: Naming, known: map<Hash, string>, local: map<Hash, Entry>, global: map<Hash, string>,
                    done: set<Hash>, ent: Entry)
    requires Keyed(local) && ent.hash in local && local[ent.hash] == ent && ent.hash !in done && ent.parent in global
    requires Follows(fs, known, local, global, done) && Settled(fs, known, local)
    ensures Grounded(known.Keys, local, ent)
    ensures fs.join(global[ent.parent], ent.name) == PathFrom(fs, known, local, ent)
  {
    var h := ent.parent;
    PathFromStep(fs, known, local, ent);
    if h in known && h in done {
      if Passes(known.Keys, local, local[h], ent.hash) {
        var k: nat :| Through(known.Keys, local, local[h], k, ent.hash);
        PassedIsDone(fs, known, local, global, done, h, k, ent.hash);
      }
      assert Rehung(known.Keys, local, local[ent.hash]);
    }
  }

  lemma FollowsMore(fs: Naming, known: map<Hash, string>, local: map<Hash, Entry>, global: map<Hash, string>,
                    done: set<Hash>, ent: Entry, full: string)
    requires Keyed(local) && ent.hash in local && local[ent.hash] == ent && Follows(fs, known, local, global, done)
    requires Grounded(known.Keys, local, ent) && full == PathFrom(fs, known, local, ent)
    requires ent.parent in known || ent.parent in done
    ensures Follows(fs, known, local, global[ent.hash := full], done + {ent.hash})
  {
    hide PathFrom, Grounded;
  }

  lemma {:induction false} ResolveFollows(fs: Naming, known: map<Hash, string>, local: map<Hash, Entry>,
                                          global: map<Hash, string>, done: set<Hash>, ent: Entry, busy: set<Hash>)
    requires Keyed(local) && ent.hash in local && local[ent.hash] == ent
    requires Follows(fs, known, local, global, done) && Settled(fs, known, local)
    requires Resolve(fs, global, done, local, ent, busy).Resolved?
    ensures var r := Resolve(fs, global, done, local, ent, busy);
            && Grounded(known.Keys, local, ent) && r.full == PathFrom(fs, known, local, ent)
            && Follows(fs, known, local, r.global, r.done)
    decreases local.Keys - busy
  {
    hide Settled, PathFrom, Grounded;
    if ent.hash !in done {
      if ent.parent in global {
        KnownParent(fs, known, local, global, done, ent);
        FollowsMore(fs, known, local, global, done, ent, fs.join(global[ent.parent], ent.name));
      } else {
        var up := local[ent.parent];
        var r := Resolve(fs, global, done, local, up, busy + {ent.hash});
        ResolveFollows(fs, known, local, global, done, up, busy + {ent.hash});
        PathFromStep(fs, known, local, ent);
        FollowsMore(fs, known, local, r.global, r.done, ent, fs.join(r.full, ent.name));
      }
    }
  }

  /** The entries with the paths that the start gives them. */
  ghost predicate Given(fs: Naming, known: map<Hash, string>, local: map<Hash, Entry>, entries: seq<Entry>,
                        placed: seq<Entry>) {
    |placed| <= |entries|
    && forall i :: 0 <= i < |placed| ==>
         Grounded(known.Keys, local, entries[i]) && placed[i] == entries[i].(full := PathFrom(fs, known, local, entries[i]))
  }

  lemma {:induction false} EntriesFollow(fs: Naming, known: map<Hash, string>, ix: Index, done: set<Hash>,
                                         local: map<Hash, Entry>, entries: seq<Entry>) returns (after: set<Hash>)
    requires Keyed(local) && (forall e :: e in entries ==> e.hash in local && local[e.hash] == e)
    requires Follows(fs, known, local, ix.global, done) && Settled(fs, known, local)
    ensures var o := IndexEntries(fs, ix, done, local, entries);
            Given(fs, known, local, entries, o.placed) && Follows(fs, known, local, o.index.global, after)
    decreases |entries|
  {
    assert done <= ix.global.Keys;
    hide Settled, PathFrom, Grounded, Follows, Resolve, Record, IndexEntries, Given;
    if entries == [] {
      NothingToIndex(fs, ix, done, local);
      GivenNone(fs, known, local, entries);
      after := done;
    } else {
      Split(fs, ix, done, local, entries);
      var r := Resolve(fs, ix.global, done, local, entries[0], {});
      if r.Failed? {
        GivenNone(fs, known, local, entries);
        after := done;
      } else {
        ResolveFollows(fs, known, local, ix.global, done, entries[0], {});
        var next := Next(fs, ix, entries[0], r);
        after := EntriesFollow(fs, known, next, r.done, local, entries[1..]);
        GivenOne(fs, known, local, entries, IndexEntries(fs, next, r.done, local, entries[1..]).placed);
      }
    }
  }

  lemma GivenNone(fs: Naming, known: map<Hash, string>, local: map<Hash, Entry>, entries: seq<Entry>)
    ensures Given(fs, known, local, entries, [])
  {
  }

  lemma GivenOne(fs: Naming, known: map<Hash, string>, local: map<Hash, Entry>, entries: seq<Entry>, more: seq<Entry>)
    requires entries != [] && Grounded(known.Keys, local, entries[0]) && Given(fs, known, local, entries[1..], more)
    ensures Given(fs, known, local, entries, [entries[0].(full := PathFrom(fs, known, local, entries[0]))] + more)
  {
    hide PathFrom, Grounded;
  }

  /**
   In a settled catalog every entry that is recorded, also by a call that fails later,
   gets the path that the start gives it.
   */
  lemma SettledPaths(fs: Naming, ix: Index, entries: seq<Entry>)
    requires DistinctHashes(entries) && Settled(fs, ix.global, Local(entries))
    ensures Given(fs, ix.global, Local(entries), entries, IndexCatalog(fs, ix, entries).placed)
  {
    DistinctLocal(entries);
    var after := EntriesFollow(fs, ix.global, ix, {}, Local(entries), entries);
  }

  /* ------------------------------------------------------------------ */
  /* Orders.                                                              */
  /* ------------------------------------------------------------------ */

  predicate Reorders(order: seq<Entry>, entries: seq<Entry>) {
    multiset(order) == multiset(entries)
  }

  lemma ReorderedIn(order: seq<Entry>, entries: seq<Entry>, e: Entry)
    requires Reorders(order, entries)
    ensures e in order <==> e in entries
  {
    assert e in order <==> multiset(order)[e] > 0;
    assert e in entries <==> multiset(entries)[e] > 0;
  }

  lemma Twice(s: seq<Entry>, i: nat, j: nat)
    requires i < j < |s| && s[i] == s[j]
    ensures multiset(s)[s[i]] >= 2
  {
    assert s == s[..j] + s[j..];
    assert s[i] in s[..j] && s[j] in s[j..];
  }

  lemma {:induction false} Once(s: seq<Entry>, e: Entry)
    requires DistinctHashes(s)
    ensures multiset(s)[e] <= 1
  {
    if s != [] {
      var front, last := s[..|s| - 1], s[|s| - 1];
      assert s == front + [last];
      Once(front, e);
      if e == last {
        assert last !in front;
      }
    }
  }

  lemma ReorderKeeps(order: seq<Entry>, entries: seq<Entry>)
    requires DistinctHashes(entries) && Reorders(order, entries)
    ensures DistinctHashes(order) && Local(order) == Local(entries)
  {
    forall e {
      ReorderedIn(order, entries, e);
    }
    forall i, j | 0 <= i < j < |order|
      ensures order[i].hash != order[j].hash
    {
      ReorderedIn(order, entries, order[i]);
      ReorderedIn(order, entries, order[j]);
      if order[i] == order[j] {
        Twice(order, i, j);
        Once(entries, order[i]);
      }
    }
    DistinctLocal(order);
    DistinctLocal(entries);
    var a, b := Local(order), Local(entries);
    assert forall h :: h in a ==> a[h] in entries && h in b && b[h] == a[h];
    assert forall h :: h in b ==> b[h] in order && h in a;
  }

  /** Entries recorded by both calls have the same path. */
  predicate SamePaths(fs: Naming, ix: Index, a: seq<Entry>, b: seq<Entry>) {
    var pa, pb := IndexCatalog(fs, ix, a).placed, IndexCatalog(fs, ix, b).placed;
    forall i, j :: 0 <= i < |pa| && 0 <= j < |pb| && a[i] == b[j] ==> pa[i].full == pb[j].full
  }

  /** Whatever the order of the entries, each gets the same path. */
  ghost predicate OrderFree(fs: Naming, ix: Index, entries: seq<Entry>) {
    forall a, b :: Reorders(a, entries) && Reorders(b, entries) ==> SamePaths(fs, ix, a, b)
  }

  lemma SettledIsOrderFree(fs: Naming, ix: Index, entries: seq<Entry>)
    requires DistinctHashes(entries) && Settled(fs, ix.global, Local(entries))
    ensures OrderFree(fs, ix, entries)
  {
    hide IndexCatalog, Settled, PathFrom, Grounded;
    forall a, b | Reorders(a, entries) && Reorders(b, entries)
      ensures SamePaths(fs, ix, a, b)
    {
      ReorderKeeps(a, entries);
      ReorderKeeps(b, entries);
      SettledPaths(fs, ix, a);
      SettledPaths(fs, ix, b);
    }
  }

  /** `e` first, the other entries after it. */
  function Moved(entries: seq<Entry>, e: Entry): (r: seq<Entry>)
    requires e in entries
    ensures Reorders(r, entries) && r != [] && r[0] == e
  {
    if entries[0] == e then entries
    else
      var rest := Moved(entries[1..], e);
      assert entries == [entries[0]] + entries[1..] && rest == [e] + rest[1..];
      [e, entries[0]] + rest[1..]
  }

  /** Resolved first, an entry gets the path that the start gives it, and only its own climb is resolved. */
  lemma {:induction false} FirstResolve(fs: Naming, known: map<Hash, string>, local: map<Hash, Entry>, ent: Entry,
                                        busy: set<Hash>)
    requires Keyed(local) && ent.hash in local && local[ent.hash] == ent
    requires Resolve(fs, known, {}, local, ent, busy).Resolved?
    ensures var r := Resolve(fs, known, {}, local, ent, busy);
            && Grounded(known.Keys, local, ent) && r.full == PathFrom(fs, known, local, ent)
            && (forall h :: h in r.done ==> Passes(known.Keys, local, ent, h))
    decreases local.Keys - busy
  {
    PathFromStep(fs, known, local, ent);
    assert Through(known.Keys, local, ent, 0, ent.hash);
    hide PathFrom, Grounded, Through;
    if ent.parent !in known {
      var up := local[ent.parent];
      FirstResolve(fs, known, local, up, busy + {ent.hash});
      forall h | Passes(known.Keys, local, up, h)
        ensures Passes(known.Keys, local, ent, h)
      {
        PassesStep(known.Keys, local, ent, h);
      }
    }
  }

  /** An entry under a known parent, listed first. */
  lemma ListedFirst(fs: Naming, ix: Index, order: seq<Entry>)
    requires order != [] && order[0].parent in ix.global
    ensures var p := IndexCatalog(fs, ix, order).placed;
            p != [] && p[0].full == fs.join(ix.global[order[0].parent], order[0].name)
  {
  }

  /** A known hash listed first, and then an entry that hangs from it: the entry goes under the new path. */
  lemma ListedSecond(fs: Naming, ix: Index, order: seq<Entry>)
    requires DistinctHashes(order) && |order| >= 2 && order[1].parent == order[0].hash
    requires Resolve(fs, ix.global, {}, Local(order), order[0], {}).Resolved?
    requires !Passes(ix.global.Keys, Local(order), order[0], order[1].hash)
    ensures Grounded(ix.global.Keys, Local(order), order[0])
    ensures var p := IndexCatalog(fs, ix, order).placed;
            |p| >= 2 && p[1].full == fs.join(PathFrom(fs, ix.global, Local(order), order[0]), order[1].name)
  {
    var local := Local(order);
    DistinctLocal(order);
    var r := Resolve(fs, ix.global, {}, local, order[0], {});
    FirstResolve(fs, ix.global, local, order[0], {});
    hide PathFrom, Grounded, Passes;
    assert order[1].hash !in r.done;
    var ix' := Record(fs, ix.(global := r.global), order[0].(full := r.full));
    assert r.global[order[0].hash] == r.full;
    assert Resolve(fs, r.global, r.done, local, order[1], {}).Resolved?;
    assert order[1..][0] == order[1];
    var more := IndexEntries(fs, ix', r.done, local, order[1..]);
    assert more.placed != [] && more.placed[0].full == fs.join(r.full, order[1].name);
  }

  /** Two orders of the catalog that give `e` two paths. */
  lemma UnsettledShows(fs: Naming, ix: Index, entries: seq<Entry>, p: Entry, e: Entry)
    requires DistinctHashes(entries) && p in entries && e in entries && p != e
    requires p.hash in ix.global && e.parent == p.hash && Grounded(ix.global.Keys, Local(entries), p)
    requires !Passes(ix.global.Keys, Local(entries), p, e.hash)
    requires fs.join(PathFrom(fs, ix.global, Local(entries), p), e.name) != fs.join(ix.global[p.hash], e.name)
    ensures !OrderFree(fs, ix, entries)
  {
    ResolvesFirst(fs, ix, entries, p);
    hide Local, IndexCatalog, PathFrom, Resolve, Passes, Grounded, Moved, DistinctHashes;
    var a := Moved(entries, e);
    SecondIs(entries, e, p);
    var b := Moved(a, p);
    assert Reorders(b, entries);
    ReorderKeeps(b, entries);
    hide Reorders;
    ListedFirst(fs, ix, a);
    ListedSecond(fs, ix, b);
    Differ(fs, ix, a, b, 0, 1);
  }

  lemma Differ(fs: Naming, ix: Index, a: seq<Entry>, b: seq<Entry>, i: nat, j: nat)
    requires var pa, pb := IndexCatalog(fs, ix, a).placed, IndexCatalog(fs, ix, b).placed;
             i < |pa| && j < |pb| && a[i] == b[j] && pa[i].full != pb[j].full
    ensures !SamePaths(fs, ix, a, b)
  {
    hide IndexCatalog;
  }

  lemma ResolvesFirst(fs: Naming, ix: Index, entries: seq<Entry>, p: Entry)
    requires DistinctHashes(entries) && p in entries && Grounded(ix.global.Keys, Local(entries), p)
    ensures Local(entries)[p.hash] == p && Resolve(fs, ix.global, {}, Local(entries), p, {}).Resolved?
  {
    DistinctLocal(entries);
    ResolveIff(fs, ix.global, {}, Local(entries), p);
  }

  lemma SecondIs(entries: seq<Entry>, e: Entry, p: Entry)
    requires e in entries && p in entries && e != p
    ensures p in Moved(entries, e)
    ensures var b := Moved(Moved(entries, e), p); |b| >= 2 && b[1] == e
  {
    ReorderedIn(Moved(entries, e), entries, p);
  }

  /** The order of the entries does not matter exactly when no entry gets another path by its parent being listed again. */
  lemma OrderIff(fs: Naming, ix: Index, entries: seq<Entry>)
    requires DistinctHashes(entries)
    ensures OrderFree(fs, ix, entries) <==> Settled(fs, ix.global, Local(entries))
  {
    hide IndexCatalog, Grounded, PathFrom, Passes, OrderFree;
    var local := Local(entries);
    if Settled(fs, ix.global, local) {
      SettledIsOrderFree(fs, ix, entries);
    } else {
      var c :| c in local && Rehung(ix.global.Keys, local, local[c])
               && fs.join(PathFrom(fs, ix.global, local, local[local[c].parent]), local[c].name)
                  != fs.join(ix.global[local[c].parent], local[c].name);
      var p := local[local[c].parent];
      PassesItself(ix.global.Keys, local, p);
      UnsettledShows(fs, ix, entries, p, local[c]);
    }
  }

  lemma PassesItself(known: set<Hash>, local: map<Hash, Entry>, ent: Entry)
    ensures Passes(known, local, ent, ent.hash)
  {
    assert Through(known, local, ent, 0, ent.hash);
  }

  const MOVED := Entry((1, 1), ROOT, "b", 0, "")
  const CHILD := Entry((2, 2), (1, 1), "x", 0, "")

  /** A directory known as /a that is listed again as /b: an entry in it is /a/x if it comes first, else /b/x. */
  lemma MovedDirectory(fs: Naming, ix: Index)
    requires ix.global == map[ROOT := "/", MOVED.hash := "/a"]
    requires fs.join("/", "b") == "/b" && fs.join("/a", "x") == "/a/x" && fs.join("/b", "x") == "/b/x"
    ensures !OrderFree(fs, ix, [MOVED, CHILD])
  {
    var known, entries := ix.global.Keys, [MOVED, CHILD];
    var local := Local(entries);
    PathFromStep(fs, ix.global, local, MOVED);
    assert forall k: nat :: !Through(known, local, MOVED, k, CHILD.hash);
    hide Local, PathFrom, Grounded, OrderFree;
    UnsettledShows(fs, ix, entries, MOVED, CHILD);
  }

  /* ------------------------------------------------------------------ */
  /* Calls that fail.                                                     */
  /* ------------------------------------------------------------------ */

  /** `n` entries are grounded and the next one, if any, is not. */
  ghost predicate StopsAt(known: set<Hash>, local: map<Hash, Entry>, entries: seq<Entry>, n: nat) {
    && n <= |entries| && (forall i :: 0 <= i < n ==> Grounded(known, local, entries[i]))
    && (n < |entries| ==> !Grounded(known, local, entries[n]))
  }

  lemma StopsOnce(known: set<Hash>, local: map<Hash, Entry>, entries: seq<Entry>, n: nat, m: nat)
    requires StopsAt(known, local, entries, n) && StopsAt(known, local, entries, m)
    ensures n == m
  {
  }

  lemma StopsAfterOne(known: set<Hash>, local: map<Hash, Entry>, entries: seq<Entry>, n: nat)
    requires entries != [] && Grounded(known, local, entries[0]) && StopsAt(known, local, entries[1..], n)
    ensures StopsAt(known, local, entries, n + 1)
  {
    hide Grounded;
    forall i | 0 <= i < n + 1
      ensures Grounded(known, local, entries[i])
    {
      if i > 0 {
        assert entries[1..][i - 1] == entries[i];
      }
    }
  }

  /** A call records the entries before the first that is not grounded. */
  lemma {:induction false} EntriesStop(fs: Naming, known: set<Hash>, ix: Index, done: set<Hash>, local: map<Hash, Entry>,
                                       entries: seq<Entry>)
    requires Keyed(local) && (forall e :: e in entries ==> e.hash in local && local[e.hash] == e)
    requires DoneHangs(ix.global, done, local) && Sprung(known, ix.global, local)
    ensures var o := IndexEntries(fs, ix, done, local, entries);
            StopsAt(known, local, entries, |o.placed|) && (o.ok <==> |o.placed| == |entries|)
    decreases |entries|
  {
    assert done <= ix.global.Keys;
    hide Grounded, Resolve, Record, IndexEntries, DoneHangs, Sprung, StopsAt;
    if entries == [] {
      NothingToIndex(fs, ix, done, local);
      StopsHere(known, local, entries);
    } else {
      Split(fs, ix, done, local, entries);
      OneStep(fs, known, ix, done, local, entries[0]);
      var r := Resolve(fs, ix.global, done, local, entries[0], {});
      if r.Failed? {
        StopsHere(known, local, entries);
      } else {
        var next := Next(fs, ix, entries[0], r);
        EntriesStop(fs, known, next, r.done, local, entries[1..]);
        StopsAfterOne(known, local, entries, |IndexEntries(fs, next, r.done, local, entries[1..]).placed|);
      }
    }
  }

  /** The index with `e` recorded under the path just found. */
  function Next(fs: Naming, ix: Index, e: Entry, r: Resolved): (next: Index)
    requires r.Resolved?
    ensures next.global == r.global
  {
    Record(fs, ix.(global := r.global), e.(full := r.full))
  }

  /** A call takes the first entry, and goes on with the others unless that failed. */
  lemma Split(fs: Naming, ix: Index, done: set<Hash>, local: map<Hash, Entry>, entries: seq<Entry>)
    requires Keyed(local) && done <= ix.global.Keys && (forall e :: e in entries ==> e.hash in local) && entries != []
    ensures var r, o := Resolve(fs, ix.global, done, local, entries[0], {}), IndexEntries(fs, ix, done, local, entries);
            if r.Failed? then o == Outcome(false, ix, [])
            else
              var more := IndexEntries(fs, Next(fs, ix, entries[0], r), r.done, local, entries[1..]);
              o == more.(placed := [entries[0].(full := r.full)] + more.placed)
  {
    hide Resolve, Record;
  }

  lemma OneStep(fs: Naming, known: set<Hash>, ix: Index, done: set<Hash>, local: map<Hash, Entry>, e: Entry)
    requires Keyed(local) && e.hash in local && local[e.hash] == e
    requires DoneHangs(ix.global, done, local) && Sprung(known, ix.global, local)
    ensures done <= ix.global.Keys
    ensures var r := Resolve(fs, ix.global, done, local, e, {});
            && (r.Resolved? <==> Grounded(known, local, e))
            && (r.Resolved? ==> DoneHangs(r.global, r.done, local) && Sprung(known, r.global, local))
  {
    assert done <= ix.global.Keys;
    hide Grounded, Resolve, DoneHangs, Sprung;
    ResolveIff(fs, ix.global, done, local, e);
    GroundedIff(known, ix.global, local, e);
    var r := Resolve(fs, ix.global, done, local, e, {});
    if r.Resolved? {
      ResolveKeeps(fs, known, ix.global, done, local, e, {});
    }
  }

  /** The paths known afterwards belong to entries that climb from the paths known before. */
  lemma {:induction false} EntriesSprung(fs: Naming, known: set<Hash>, ix: Index, done: set<Hash>,
                                         local: map<Hash, Entry>, entries: seq<Entry>)
    requires Keyed(local) && (forall e :: e in entries ==> e.hash in local && local[e.hash] == e)
    requires DoneHangs(ix.global, done, local) && Sprung(known, ix.global, local)
    ensures Sprung(known, IndexEntries(fs, ix, done, local, entries).index.global, local)
    decreases |entries|
  {
    assert done <= ix.global.Keys;
    hide Grounded, Resolve, Record, IndexEntries, DoneHangs, Sprung;
    if entries == [] {
      NothingToIndex(fs, ix, done, local);
    } else {
      Split(fs, ix, done, local, entries);
      OneStep(fs, known, ix, done, local, entries[0]);
      var r := Resolve(fs, ix.global, done, local, entries[0], {});
      if r.Resolved? {
        EntriesSprung(fs, known, Next(fs, ix, entries[0], r), r.done, local, entries[1..]);
      }
    }
  }

  lemma StopsHere(known: set<Hash>, local: map<Hash, Entry>, entries: seq<Entry>)
    requires entries == [] || !Grounded(known, local, entries[0])
    ensures StopsAt(known, local, entries, 0)
  {
  }

  lemma {:induction false} InDirJoin(fs: Naming, a: seq<Entry>, b: seq<Entry>, d: string)
    ensures InDir(fs, a + b, d) == InDir(fs, a, d) + InDir(fs, b, d)
    decreases |b|
  {
    if b == [] {
      assert a + b == a;
    } else {
      InDirJoin(fs, a, b[..|b| - 1], d);
      assert (a + b)[..|a + b| - 1] == a + b[..|b| - 1];
    }
  }

  lemma RecordAppends(fs: Naming, ix: Index, ent: Entry, d: string)
    ensures ChildrenAt(Record(fs, ix, ent).children, d) == ChildrenAt(ix.children, d) + InDir(fs, [ent], d)
  {
    assert [ent][..0] == [];
    assert InDir(fs, [ent], d) == [] + if fs.dir(ent.full) == d then [ent] else [];
  }

  /** A directory gains exactly the entries recorded in it. */
  lemma {:induction false} EntriesAppend(fs: Naming, ix: Index, done: set<Hash>, local: map<Hash, Entry>,
                                         entries: seq<Entry>, d: string)
    requires Keyed(local) && done <= ix.global.Keys && (forall e :: e in entries ==> e.hash in local)
    ensures var o := IndexEntries(fs, ix, done, local, entries);
            ChildrenAt(o.index.children, d) == ChildrenAt(ix.children, d) + InDir(fs, o.placed, d)
    decreases |entries|
  {
    hide Resolve, IndexEntries, Record, ChildrenAt;
    if entries == [] {
      NothingToIndex(fs, ix, done, local);
    } else {
      Split(fs, ix, done, local, entries);
      var r := Resolve(fs, ix.global, done, local, entries[0], {});
      if r.Resolved? {
        var next := Next(fs, ix, entries[0], r);
        RecordAppends(fs, ix.(global := r.global), entries[0].(full := r.full), d);
        EntriesAppend(fs, next, r.done, local, entries[1..], d);
        InDirJoin(fs, [entries[0].(full := r.full)], IndexEntries(fs, next, r.done, local, entries[1..]).placed, d);
      }
    }
  }

  /** What is recorded are the entries themselves, in order, with their paths. */
  lemma {:induction false} EntriesPlaced(fs: Naming, ix: Index, done: set<Hash>, local: map<Hash, Entry>,
                                         entries: seq<Entry>)
    requires Keyed(local) && done <= ix.global.Keys && (forall e :: e in entries ==> e.hash in local)
    ensures var placed := IndexEntries(fs, ix, done, local, entries).placed;
            forall i :: 0 <= i < |placed| ==> placed[i] == entries[i].(full := placed[i].full)
    decreases |entries|
  {
    hide Resolve, Record;
    if entries != [] {
      var r := Resolve(fs, ix.global, done, local, entries[0], {});
      if r.Resolved? {
        EntriesPlaced(fs, Next(fs, ix, entries[0], r), r.done, local, entries[1..]);
      }
    }
  }

  /**
   A call records exactly the entries before the first one without a chain of parents to a
   known path; when it fails, the tables are as before exactly when that is the first entry.
   */
  lemma FailureLeaves(fs: Naming, ix: Index, entries: seq<Entry>)
    requires DistinctHashes(entries)
    ensures var o := IndexCatalog(fs, ix, entries);
            && (forall n: nat :: StopsAt(ix.global.Keys, Local(entries), entries, n) <==> n == |o.placed|)
            && (o.ok <==> |o.placed| == |entries|)
            && (forall i :: 0 <= i < |o.placed| ==> o.placed[i] == entries[i].(full := o.placed[i].full))
            && (forall d :: ChildrenAt(o.index.children, d) == ChildrenAt(ix.children, d) + InDir(fs, o.placed, d))
            && (!o.ok ==> entries != [] && (o.index == ix <==> !Grounded(ix.global.Keys, Local(entries), entries[0])))
            && (!o.ok && o.index != ix ==> o.index.children != ix.children)
  {
    hide Grounded, Resolve, Local, IndexCatalog, InDir;
    CatalogStops(fs, ix, entries);
    var o := IndexCatalog(fs, ix, entries);
    forall n: nat | StopsAt(ix.global.Keys, Local(entries), entries, n)
      ensures n == |o.placed|
    {
      StopsOnce(ix.global.Keys, Local(entries), entries, n, |o.placed|);
    }
    if o.placed != [] {
      var d := fs.dir(o.placed[0].full);
      InDirIsExact(fs, o.placed, d, o.placed[0]);
      assert o.placed[0] in InDir(fs, o.placed, d);
    }
  }

  lemma CatalogStops(fs: Naming, ix: Index, entries: seq<Entry>)
    requires DistinctHashes(entries)
    ensures var o := IndexCatalog(fs, ix, entries);
            && StopsAt(ix.global.Keys, Local(entries), entries, |o.placed|) && (o.ok <==> |o.placed| == |entries|)
            && (forall i :: 0 <= i < |o.placed| ==> o.placed[i] == entries[i].(full := o.placed[i].full))
            && (forall d :: ChildrenAt(o.index.children, d) == ChildrenAt(ix.children, d) + InDir(fs, o.placed, d))
            && (o.placed == [] ==> o.index == ix)
  {
    hide Grounded, Resolve, InDir, StopsAt, Sprung, IndexEntries, ChildrenAt;
    DistinctLocal(entries);
    var local := Local(entries);
    StartSprung(ix.global, local);
    EntriesStop(fs, ix.global.Keys, ix, {}, local, entries);
    EntriesPlaced(fs, ix, {}, local, entries);
    forall d
      ensures ChildrenAt(IndexCatalog(fs, ix, entries).index.children, d)
           == ChildrenAt(ix.children, d) + InDir(fs, IndexCatalog(fs, ix, entries).placed, d)
    {
      EntriesAppend(fs, ix, {}, local, entries, d);
    }
    if IndexCatalog(fs, ix, entries).placed == [] {
      NothingPlaced(fs, ix, {}, local, entries);
    }
  }

  lemma StartSprung(global: map<Hash, string>, local: map<Hash, Entry>)
    ensures Sprung(global.Keys, global, local)
  {
  }

  lemma NothingPlaced(fs: Naming, ix: Index, done: set<Hash>, local: map<Hash, Entry>, entries: seq<Entry>)
    requires Keyed(local) && done <= ix.global.Keys && (forall e :: e in entries ==> e.hash in local)
    requires IndexEntries(fs, ix, done, local, entries).placed == []
    ensures IndexEntries(fs, ix, done, local, entries).index == ix
  {
    hide Resolve;
  }

  /**
   Trying a failed catalog again records every entry a second time that was recorded before the
   failure; if nothing else has become known, it fails at the same place.
   */
  lemma RetryRepeats(fs: Naming, ix: Index, back: Index, entries: seq<Entry>)
    requires DistinctHashes(entries) && !IndexCatalog(fs, ix, entries).ok
    requires var o := IndexCatalog(fs, ix, entries);
             back.children == o.index.children && o.index.global.Keys <= back.global.Keys
    ensures var o, again := IndexCatalog(fs, ix, entries), IndexCatalog(fs, back, entries);
            && |o.placed| <= |again.placed| && (back == o.index ==> |again.placed| == |o.placed| && !again.ok)
            && (forall i :: 0 <= i < |o.placed| ==> again.placed[i] == o.placed[i].(full := again.placed[i].full))
            && (forall d :: ChildrenAt(again.index.children, d)
                         == ChildrenAt(ix.children, d) + InDir(fs, o.placed, d) + InDir(fs, again.placed, d))
  {
    FailureLeaves(fs, ix, entries);
    FailureLeaves(fs, back, entries);
    RetryReaches(fs, ix, back, entries);
    hide Grounded, IndexCatalog;
  }

  /** The second call gets as far as the first, and no further if nothing else is known. */
  lemma RetryReaches(fs: Naming, ix: Index, back: Index, entries: seq<Entry>)
    requires DistinctHashes(entries) && IndexCatalog(fs, ix, entries).index.global.Keys <= back.global.Keys
    ensures var o, again := IndexCatalog(fs, ix, entries), IndexCatalog(fs, back, entries);
            |o.placed| <= |again.placed| && (back == o.index ==> |o.placed| == |again.placed|)
  {
    hide Grounded, IndexCatalog, Sprung, Local, InDir, ChildrenAt, Climbs;
    FailureLeaves(fs, ix, entries);
    FailureLeaves(fs, back, entries);
    CatalogSprung(fs, ix, entries);
    var local, o, again := Local(entries), IndexCatalog(fs, ix, entries), IndexCatalog(fs, back, entries);
    var known, more := ix.global.Keys, back.global.Keys;
    SprungKnows(known, o.index.global, local);
    forall e | Grounded(known, local, e)
      ensures Grounded(more, local, e)
    {
      GroundedMore(known, more, local, e);
    }
    assert StopsAt(known, local, entries, |o.placed|) && StopsAt(more, local, entries, |again.placed|);
    if back == o.index {
      forall e
        ensures Grounded(more, local, e) <==> Grounded(known, local, e)
      {
        GroundedIff(known, back.global, local, e);
      }
    }
  }

  lemma CatalogSprung(fs: Naming, ix: Index, entries: seq<Entry>)
    requires DistinctHashes(entries)
    ensures Sprung(ix.global.Keys, IndexCatalog(fs, ix, entries).index.global, Local(entries))
  {
    DistinctLocal(entries);
    EntriesSprung(fs, ix.global.Keys, ix, {}, Local(entries), entries);
  }

  lemma SprungKnows(known: set<Hash>, global: map<Hash, string>, local: map<Hash, Entry>)
    requires Sprung(known, global, local)
    ensures known <= global.Keys
  {
  }

  lemma GroundedMore(known: set<Hash>, more: set<Hash>, local: map<Hash, Entry>, ent: Entry)
    requires Grounded(known, local, ent) && known <= more
    ensures Grounded(more, local, ent)
  {
    var k: nat :| Climbs(known, local, ent, k);
    ClimbsFromMore(known, more, local, ent, k);
  }
}
