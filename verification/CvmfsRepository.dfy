/** The repository's index in memory. */
module CvmfsRepository {
  import opened Wrappers
  import opened CvmfsIndex

  class Catalog {
    var entries: seq<Entry>
  }

  /** The entries of a catalog by hash; of entries with one hash the last is kept. */
  method LocalTable(entries: seq<Entry>) returns (local: map<Hash, Entry>)
    ensures local == Local(entries)
  {
    local := map[];
    var i := 0;
    while i < |entries|
      invariant i <= |entries| && local == Local(entries[..i])
    {
      assert entries[..i + 1][..i] == entries[..i];
      local := local[entries[i].hash := entries[i]];
      i := i + 1;
    }
    assert entries[..i] == entries;
  }

  /** The whole call comes to `o` after the entries already placed. */
  predicate Comes(whole: Outcome, placed: seq<Entry>, o: Outcome) {
    whole == o.(placed := placed + o.placed)
  }

  lemma ComesNext(whole: Outcome, placed: seq<Entry>, ent: Entry, more: Outcome)
    requires Comes(whole, placed, more.(placed := [ent] + more.placed))
    ensures Comes(whole, placed + [ent], more)
  {
    assert placed + ([ent] + more.placed) == placed + [ent] + more.placed;
  }

  class Repository {
    var globalPaths: map<Hash, string>
    var entriesByPath: map<string, Entry>
    var childrenByPath: map<string, seq<Entry>>
    var indexedCatalogs: set<Catalog>

    ghost function View(): Index
      reads this
    {
      Index(globalPaths, entriesByPath, childrenByPath)
    }

    constructor ()
      ensures View() == NEW_INDEX && indexedCatalogs == {}
    {
      globalPaths, entriesByPath, childrenByPath, indexedCatalogs := map[ROOT := "/"], map[], map[], {};
    }

    /** `memo` holds the paths found in this catalog, `resolving` the entries whose parents are being looked up. */
    method ResolvePath(fs: Naming, local: map<Hash, Entry>, memo: map<Hash, string>, resolving: set<Hash>, ent: Entry)
      returns (full: Option<string>, found: map<Hash, string>)
      requires Keyed(local) && ent.hash in local && memo.Keys <= globalPaths.Keys
      requires forall h :: h in memo ==> memo[h] == globalPaths[h]
      modifies this`globalPaths
      ensures var r := Resolve(fs, old(globalPaths), memo.Keys, local, ent, resolving);
              if r.Failed? then full == None && globalPaths == old(globalPaths) && found == memo
              else full == Some(r.full) && globalPaths == r.global && found.Keys == r.done
      ensures found.Keys <= globalPaths.Keys && forall h :: h in found ==> found[h] == globalPaths[h]
      decreases local.Keys - resolving
    {
      if ent.hash in memo {
        return Some(memo[ent.hash]), memo;
      }
      if ent.hash in resolving {
        return None, memo;
      }
      found := memo;
      var parentPath;
      if ent.parent in globalPaths {
        parentPath := globalPaths[ent.parent];
      } else if ent.parent in local {
        full, found := ResolvePath(fs, local, memo, resolving + {ent.hash}, local[ent.parent]);
        if full == None {
          return;
        }
        parentPath := full.value;
      } else {
        return None, memo;
      }
      var path := fs.join(parentPath, ent.name);
      found := found[ent.hash := path];
      globalPaths := globalPaths[ent.hash := path];
      full := Some(path);
    }

    method RecordEntry(fs: Naming, ent: Entry)
      modifies this`entriesByPath, this`childrenByPath
      ensures View() == Record(fs, old(View()), ent)
    {
      entriesByPath := entriesByPath[ent.full := ent];
      var parent := fs.dir(ent.full);
      childrenByPath := childrenByPath[parent := ChildrenAt(childrenByPath, parent) + [ent]];
    }

    /** A catalog indexed once; again it changes nothing. */
    method IndexCatalog(fs: Naming, cat: Catalog) returns (ok: bool)
      modifies this, cat
      ensures cat in old(indexedCatalogs) ==>
        ok && View() == old(View()) && indexedCatalogs == old(indexedCatalogs) && cat.entries == old(cat.entries)
      ensures cat !in old(indexedCatalogs) ==>
        var o := CvmfsIndex.IndexCatalog(fs, old(View()), old(cat.entries));
        && ok == o.ok && View() == o.index
        && cat.entries == o.placed + old(cat.entries)[|o.placed|..]
        && indexedCatalogs == old(indexedCatalogs) + if ok then {cat} else {}
    {
      if cat in indexedCatalogs {
        return true;
      }
      var local := LocalTable(cat.entries);
      ok := IndexListed(fs, cat, local);
      if ok {
        indexedCatalogs := indexedCatalogs + {cat};
      }
    }

    method IndexOne(fs: Naming, cat: Catalog, local: map<Hash, Entry>, memo: map<Hash, string>, i: nat)
      returns (ok: bool, found: map<Hash, string>)
      requires Keyed(local) && i < |cat.entries| && cat.entries[i].hash in local && memo.Keys <= globalPaths.Keys
      requires forall h :: h in memo ==> memo[h] == globalPaths[h]
      modifies this`globalPaths, this`entriesByPath, this`childrenByPath, cat
      ensures var r, ent := Resolve(fs, old(globalPaths), memo.Keys, local, old(cat.entries[i]), {}), old(cat.entries[i]);
              if r.Failed? then !ok && View() == old(View()) && cat.entries == old(cat.entries) && found == memo
              else
                && ok && View() == Record(fs, old(View()).(global := r.global), ent.(full := r.full))
                && cat.entries == old(cat.entries)[i := ent.(full := r.full)] && found.Keys == r.done
      ensures found.Keys <= globalPaths.Keys && forall h :: h in found ==> found[h] == globalPaths[h]
    {
      hide Resolve, Record;
      var full;
      full, found := ResolvePath(fs, local, memo, {}, cat.entries[i]);
      if full == None {
        return false, found;
      }
      var entry := cat.entries[i].(full := full.value);
      cat.entries := cat.entries[i := entry];
      RecordEntry(fs, entry);
      RecordKeys(fs, old(View()).(global := globalPaths), entry);
      ok := true;
    }

    method IndexListed(fs: Naming, cat: Catalog, local: map<Hash, Entry>) returns (ok: bool)
      requires Keyed(local) && forall e :: e in cat.entries ==> e.hash in local
      modifies this`globalPaths, this`entriesByPath, this`childrenByPath, cat
      ensures var o := IndexEntries(fs, old(View()), {}, local, old(cat.entries));
              ok == o.ok && View() == o.index && cat.entries == o.placed + old(cat.entries)[|o.placed|..]
    {
      hide Resolve, Record, Comes, IndexEntries;
      ghost var given := cat.entries;
      ghost var placed: seq<Entry> := [];
      var memo: map<Hash, string> := map[];
      ghost var whole := IndexEntries(fs, View(), {}, local, given);
      FirstComes(whole);
      assert given[0..] == given && memo.Keys == {};
      var i := 0;
      while i < |cat.entries|
        invariant i == |placed| <= |given| && cat.entries == placed + given[i..]
        invariant memo.Keys <= globalPaths.Keys && forall h :: h in memo ==> memo[h] == globalPaths[h]
        invariant Comes(whole, placed, IndexEntries(fs, View(), memo.Keys, local, given[i..]))
      {
        assert cat.entries[i] == given[i] && given[i] in given;
        IndexStep(fs, View(), memo.Keys, local, given, i);
        var fine;
        fine, memo := IndexOne(fs, cat, local, memo, i);
        if !fine {
          LastComes(whole, placed, false, View());
          return false;
        }
        ComesNext(whole, placed, cat.entries[i], IndexEntries(fs, View(), memo.Keys, local, given[i + 1..]));
        placed := placed + [cat.entries[i]];
        i := i + 1;
      }
      NothingToIndex(fs, View(), memo.Keys, local);
      LastComes(whole, placed, true, View());
      ok := true;
    }
  }

  lemma FirstComes(whole: Outcome)
    ensures Comes(whole, [], whole)
  {
    assert [] + whole.placed == whole.placed;
  }

  lemma LastComes(whole: Outcome, placed: seq<Entry>, ok: bool, ix: Index)
    requires Comes(whole, placed, Outcome(ok, ix, []))
    ensures whole == Outcome(ok, ix, placed)
  {
    assert placed + [] == placed;
  }
}
