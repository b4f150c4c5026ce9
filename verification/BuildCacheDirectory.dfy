/** storeBuildCache, lookupBuildCache and pruneBuildCache as they run on the shared cache directory. */
module BuildCacheDirectory {
  import opened Strings
  import opened Recency
  import opened BuildCache

  /** buildCacheKeep. */
  const ENTRIES_KEPT: nat := 3
  const TEMP_PREFIX: string := ".tmp-"

  datatype DirEntry = DirEntry(name: string, isDir: bool, modified: int)

  predicate IsTemporary(e: DirEntry) {
    e.isDir && TEMP_PREFIX <= e.name
  }

  predicate IsEntry(e: DirEntry) {
    e.isDir && !(TEMP_PREFIX <= e.name)
  }

  function EntriesIn(listing: seq<DirEntry>): seq<Used> {
    if listing == [] then []
    else
      var last := listing[|listing| - 1];
      EntriesIn(listing[..|listing| - 1]) + (if IsEntry(last) then [Used(last.name, last.modified)] else [])
  }

  lemma {:induction false} EntriesInAre(listing: seq<DirEntry>)
    requires forall i, j :: 0 <= i < j < |listing| ==> listing[i].name != listing[j].name
    ensures forall x :: x in EntriesIn(listing) ==>
        exists i :: 0 <= i < |listing| && IsEntry(listing[i]) && listing[i].name == x.name
    ensures DistinctNames(EntriesIn(listing))
  {
    if listing != [] {
      var n := |listing| - 1;
      var front := EntriesIn(listing[..n]);
      EntriesInAre(listing[..n]);
      forall x | x in EntriesIn(listing)
        ensures exists i :: 0 <= i < |listing| && IsEntry(listing[i]) && listing[i].name == x.name
      {
        if x in front {
          var i :| 0 <= i < n && IsEntry(listing[..n][i]) && listing[..n][i].name == x.name;
          assert IsEntry(listing[i]);
        } else {
          assert IsEntry(listing[n]);
        }
      }
      forall k | 0 <= k < |front|
        ensures front[k].name != listing[n].name
      {
        assert front[k] in front;
        var i :| 0 <= i < n && IsEntry(listing[..n][i]) && listing[..n][i].name == front[k].name;
        assert listing[i].name != listing[n].name;
      }
    }
  }

  /**
   * pruneBuildCache: sweeps exactly the temporary directories older than an hour, and keeps the three
   * most recently used entries.
   */
  method SelectPruned(listing: seq<DirEntry>, now: int) returns (swept: seq<string>, removed: seq<string>)
    requires forall i, j :: 0 <= i < j < |listing| ==> listing[i].name != listing[j].name
    ensures forall i :: 0 <= i < |listing| ==>
              (listing[i].name in swept <==> IsTemporary(listing[i]) && now - listing[i].modified > TEMP_MAX_AGE)
    ensures RemovesOldest(EntriesIn(listing), ENTRIES_KEPT, removed)
    ensures forall i :: 0 <= i < |listing| && listing[i].name in removed ==> IsEntry(listing[i])
  {
    var complete: seq<Used> := [];
    swept := [];
    for k := 0 to |listing|
      invariant complete == EntriesIn(listing[..k])
      invariant forall name :: name in swept ==> exists i :: 0 <= i < k && listing[i].name == name
      invariant forall i :: 0 <= i < k ==>
          (listing[i].name in swept <==> IsTemporary(listing[i]) && now - listing[i].modified > TEMP_MAX_AGE)
    {
      assert listing[..k + 1][..k] == listing[..k];
      if !listing[k].isDir {
        continue;
      }
      if TEMP_PREFIX <= listing[k].name {
        if now - listing[k].modified > TEMP_MAX_AGE {
          swept := swept + [listing[k].name];
        }
        continue;
      }
      complete := complete + [Used(listing[k].name, listing[k].modified)];
    }
    assert listing[..|listing|] == listing;
    EntriesInAre(listing);
    removed := Stale(complete, ENTRIES_KEPT);
    forall i | 0 <= i < |listing| && listing[i].name in removed
      ensures IsEntry(listing[i])
    {
      var x :| x in complete && x.name == listing[i].name;
      var j :| 0 <= j < |listing| && IsEntry(listing[j]) && listing[j].name == x.name;
      assert j == i;
    }
  }

  // ---- What a listing of the cache directory holds ----

  /** The number stands for the random suffix of os.MkdirTemp. */
  function TempName(id: nat): string {
    TEMP_PREFIX + Decimal(id)
  }

  lemma TempNamesDiffer(a: nat, b: nat)
    requires TempName(a) == TempName(b)
    ensures a == b
  {
    assert TempName(a)[|TEMP_PREFIX|..] == Decimal(a) && TempName(b)[|TEMP_PREFIX|..] == Decimal(b);
    DecimalRoundTrip(a);
    DecimalRoundTrip(b);
  }

  /** Entry names are hexadecimal digits; all the model needs is that none looks like a temporary one. */
  predicate NamesAreEntries(c: Cache) {
    && (forall name :: name in c.entries ==> !(TEMP_PREFIX <= name))
    && (forall id :: id in c.stores ==> !(TEMP_PREFIX <= c.stores[id].name))
  }

  lemma StepKeepsNames(c: Cache, step: Step)
    requires NamesAreEntries(c) && Enabled(c, step) && (step.Begin? ==> !(TEMP_PREFIX <= step.name))
    ensures NamesAreEntries(Next(c, step))
  {
  }

  predicate Describes(c: Cache, e: DirEntry) {
    || (e.name in c.entries && e == DirEntry(e.name, true, c.entries[e.name].modified))
    || exists id :: id in c.temporaries && e == DirEntry(TempName(id), true, c.temporaries[id].modified)
  }

  /** Every entry and every temporary directory once, and nothing else. */
  ghost predicate Lists(c: Cache, listing: seq<DirEntry>) {
    && (forall i, j :: 0 <= i < j < |listing| ==> listing[i].name != listing[j].name)
    && (forall i :: 0 <= i < |listing| ==> Describes(c, listing[i]))
    && (forall name :: name in c.entries ==> DirEntry(name, true, c.entries[name].modified) in listing)
    && (forall id :: id in c.temporaries ==> DirEntry(TempName(id), true, c.temporaries[id].modified) in listing)
  }

  lemma ListOneMore(c: Cache, listing: seq<DirEntry>, name: string, entry: Entry)
    requires Lists(c, listing) && c.temporaries == map[] && name !in c.entries
    ensures Lists(c.(entries := c.entries[name := entry]), listing + [DirEntry(name, true, entry.modified)])
  {
    var d, longer := c.(entries := c.entries[name := entry]), listing + [DirEntry(name, true, entry.modified)];
    forall i | 0 <= i < |listing| ensures listing[i].name != name {
      assert Describes(c, listing[i]);
    }
    forall i | 0 <= i < |longer| ensures Describes(d, longer[i]) {
      assert i < |listing| ==> Describes(c, listing[i]);
    }
    assert longer[|listing|] == DirEntry(name, true, entry.modified);
  }

  lemma ListTemporary(c: Cache, listing: seq<DirEntry>, id: nat, entry: Entry)
    requires Lists(c, listing) && id !in c.temporaries && forall name :: name in c.entries ==> !(TEMP_PREFIX <= name)
    ensures Lists(c.(temporaries := c.temporaries[id := entry]),
        listing + [DirEntry(TempName(id), true, entry.modified)])
  {
    var e := DirEntry(TempName(id), true, entry.modified);
    var d, longer := c.(temporaries := c.temporaries[id := entry]), listing + [e];
    forall i | 0 <= i < |listing| ensures listing[i].name != TempName(id) {
      assert Describes(c, listing[i]);
      if other :| other in c.temporaries && listing[i].name == TempName(other) && TempName(other) == TempName(id) {
        TempNamesDiffer(other, id);
      }
    }
    forall i | 0 <= i < |longer| ensures Describes(d, longer[i]) {
      if i < |listing| {
        assert Describes(c, listing[i]);
        if other :|
            other in c.temporaries && listing[i] == DirEntry(TempName(other), true, c.temporaries[other].modified) {
          assert other in d.temporaries;
        }
      } else {
        assert id in d.temporaries && longer[i] == DirEntry(TempName(id), true, d.temporaries[id].modified);
      }
    }
    assert longer[|listing|] == e;
  }

  /** Exactly the temporary directories older than the limit are swept. */
  lemma SweptAreOld(c: Cache, listing: seq<DirEntry>, swept: seq<string>)
    requires Lists(c, listing)
    requires forall i :: 0 <= i < |listing| ==>
               (listing[i].name in swept <==> IsTemporary(listing[i]) && c.now - listing[i].modified > TEMP_MAX_AGE)
    ensures forall id :: id in c.temporaries ==>
              (TempName(id) in swept <==> c.now - c.temporaries[id].modified > TEMP_MAX_AGE)
  {
    forall id | id in c.temporaries
      ensures TempName(id) in swept <==> c.now - c.temporaries[id].modified > TEMP_MAX_AGE
    {
      var i :| 0 <= i < |listing| && listing[i] == DirEntry(TempName(id), true, c.temporaries[id].modified);
      assert IsTemporary(listing[i]);
    }
  }

  lemma RemovedAreEntries(c: Cache, listing: seq<DirEntry>, removed: seq<string>)
    requires Lists(c, listing) && RemovesOldest(EntriesIn(listing), ENTRIES_KEPT, removed)
    ensures forall name :: name in removed ==> name in c.entries
  {
    forall name | name in removed
      ensures name in c.entries
    {
      EntriesInAre(listing);
      var x :| x in EntriesIn(listing) && x.name == name;
      var i :| 0 <= i < |listing| && IsEntry(listing[i]) && listing[i].name == x.name;
      assert Describes(c, listing[i]);
    }
  }

  method ListEntries(c: Cache) returns (listing: seq<DirEntry>)
    ensures Lists(c.(temporaries := map[]), listing)
  {
    listing := [];
    var names := c.entries.Keys;
    ghost var listed: map<string, Entry> := map[];
    while names != {}
      invariant names <= c.entries.Keys && forall name :: name in listed <==> name in c.entries && name !in names
      invariant forall name :: name in listed ==> listed[name] == c.entries[name]
      invariant Lists(c.(entries := listed, temporaries := map[]), listing)
    {
      var name :| name in names;
      ListOneMore(c.(entries := listed, temporaries := map[]), listing, name, c.entries[name]);
      listing := listing + [DirEntry(name, true, c.entries[name].modified)];
      listed := listed[name := c.entries[name]];
      names := names - {name};
    }
    assert listed == c.entries;
  }

  /** os.ReadDir of the cache directory. */
  method ListDirectory(c: Cache) returns (listing: seq<DirEntry>)
    requires NamesAreEntries(c)
    ensures Lists(c, listing)
  {
    listing := ListEntries(c);
    var ids := c.temporaries.Keys;
    ghost var listed: map<nat, Entry> := map[];
    while ids != {}
      invariant ids <= c.temporaries.Keys && forall id :: id in listed <==> id in c.temporaries && id !in ids
      invariant forall id :: id in listed ==> listed[id] == c.temporaries[id]
      invariant Lists(c.(temporaries := listed), listing)
    {
      var id :| id in ids;
      ListTemporary(c.(temporaries := listed), listing, id, c.temporaries[id]);
      listing := listing + [DirEntry(TempName(id), true, c.temporaries[id].modified)];
      listed := listed[id := c.temporaries[id]];
      ids := ids - {id};
    }
    assert listed == c.temporaries;
  }

  /**
   * The temporary directories older than an hour, all of them, and the entries beyond the three most
   * recently used.
   */
  ghost predicate IsPruning(c: Cache, swept: set<nat>, removed: set<string>) {
    && (forall id :: id in swept <==> id in c.temporaries && c.now - c.temporaries[id].modified > TEMP_MAX_AGE)
    && removed <= c.entries.Keys
    && |removed| == (if |c.entries| > ENTRIES_KEPT then |c.entries| - ENTRIES_KEPT else 0)
    && (forall r, k :: r in removed && k in c.entries && k !in removed ==>
        c.entries[r].modified <= c.entries[k].modified)
  }

  lemma {:induction false} EntriesCounted(c: Cache, listing: seq<DirEntry>)
    requires Lists(c, listing) && NamesAreEntries(c)
    ensures |EntriesIn(listing)| == |c.entries|
    ensures forall name :: name in c.entries <==> exists x :: x in EntriesIn(listing) && x.name == name
    ensures forall x :: x in EntriesIn(listing) ==> x.name in c.entries && x.at == c.entries[x.name].modified
  {
    var used := EntriesIn(listing);
    EntriesInAre(listing);
    forall x | x in used
      ensures x.name in c.entries && x.at == c.entries[x.name].modified
    {
      EntryOf(listing, x);
      var i :| 0 <= i < |listing| && IsEntry(listing[i]) && x == Used(listing[i].name, listing[i].modified);
      assert Describes(c, listing[i]);
    }
    forall name | name in c.entries
      ensures Used(name, c.entries[name].modified) in used
    {
      var i :| 0 <= i < |listing| && listing[i] == DirEntry(name, true, c.entries[name].modified);
      EntryListed(listing, i);
    }
    NamesCount(used, c.entries.Keys);
  }

  lemma {:induction false} EntryOf(listing: seq<DirEntry>, x: Used)
    requires x in EntriesIn(listing)
    ensures exists i :: 0 <= i < |listing| && IsEntry(listing[i]) && x == Used(listing[i].name, listing[i].modified)
  {
    var n := |listing| - 1;
    if x in EntriesIn(listing[..n]) {
      EntryOf(listing[..n], x);
      var i :| 0 <= i < n && IsEntry(listing[..n][i]) && x == Used(listing[..n][i].name, listing[..n][i].modified);
      assert listing[i] == listing[..n][i];
    }
  }

  lemma {:induction false} EntryListed(listing: seq<DirEntry>, i: nat)
    requires i < |listing| && IsEntry(listing[i])
    ensures Used(listing[i].name, listing[i].modified) in EntriesIn(listing)
  {
    if i < |listing| - 1 {
      EntryListed(listing[..|listing| - 1], i);
    }
  }

  lemma {:induction false} NamesCount(used: seq<Used>, names: set<string>)
    requires DistinctNames(used) && forall name :: name in names <==> exists x :: x in used && x.name == name
    ensures |used| == |names|
  {
    if used != [] {
      var n := |used| - 1;
      var rest := names - {used[n].name};
      forall name
        ensures name in rest <==> exists x :: x in used[..n] && x.name == name
      {
        if x :| x in used && x.name == name && name != used[n].name {
          var i :| 0 <= i < |used| && used[i] == x;
          assert used[..n][i] == x;
        }
        if x :| x in used[..n] && x.name == name {
          var i :| 0 <= i < n && used[..n][i] == x;
          assert used[i] == x;
        }
      }
      NamesCount(used[..n], rest);
      assert used[n] in used;
      assert names == rest + {used[n].name};
    } else {
      assert names == {};
    }
  }

  lemma SelectedIsPruning(c: Cache, listing: seq<DirEntry>, removed: seq<string>, names: set<string>)
    requires Lists(c, listing) && NamesAreEntries(c)
    requires RemovesOldest(EntriesIn(listing), ENTRIES_KEPT, removed)
    requires forall name :: name in names <==> name in removed
    ensures names <= c.entries.Keys
    ensures |names| == (if |c.entries| > ENTRIES_KEPT then |c.entries| - ENTRIES_KEPT else 0)
    ensures forall r, k :: r in names && k in c.entries && k !in names ==>
        c.entries[r].modified <= c.entries[k].modified
  {
    EntriesCounted(c, listing);
    RemovedAreEntries(c, listing, removed);
    SetOfDistinct(removed, names);
    forall r, k | r in names && k in c.entries && k !in names
      ensures c.entries[r].modified <= c.entries[k].modified
    {
      var x :| x in EntriesIn(listing) && x.name == r;
      var y :| y in EntriesIn(listing) && y.name == k;
    }
  }

  lemma {:induction false} SetOfDistinct(xs: seq<string>, names: set<string>)
    requires Distinct(xs) && forall name :: name in names <==> name in xs
    ensures |names| == |xs|
  {
    if xs != [] {
      var n := |xs| - 1;
      SetOfDistinct(xs[..n], names - {xs[n]});
      assert names == (names - {xs[n]}) + {xs[n]};
    } else {
      assert names == {};
    }
  }

  /** What pruneBuildCache selects is a Prune step that can be taken. */
  method PruningOf(c: Cache) returns (swept: set<nat>, removed: set<string>)
    requires NamesAreEntries(c)
    ensures IsPruning(c, swept, removed) && Enabled(c, Prune(swept, removed))
  {
    var listing := ListDirectory(c);
    var aged, stale := SelectPruned(listing, c.now);
    swept := set id | id in c.temporaries && TempName(id) in aged;
    removed := set name | name in stale;
    SweptAreOld(c, listing, aged);
    SelectedIsPruning(c, listing, stale, removed);
  }

  datatype StoreResult = AlreadyStored | Published | RaceLost | StoreFailed

  class CacheDirectory {
    var now: int
    var entries: map<string, Entry>
    var temporaries: map<nat, Entry>
    var stores: map<nat, Store>

    function Now(): Cache
      reads this
    {
      Cache(now, entries, temporaries, stores)
    }

    ghost predicate Valid()
      reads this
    {
      Inv(Now()) && NoneOutlives(Now()) && NamesAreEntries(Now())
    }

    constructor ()
      ensures Valid() && Now() == Init()
    {
      now, entries, temporaries, stores := 0, map[], map[], map[];
    }

    /** One step of anybody, as long as no store outlives the age limit. */
    method Take(step: Step)
      requires Valid() && Enabled(Now(), step) && NoneOutlives(Next(Now(), step))
      requires step.Begin? ==> !(TEMP_PREFIX <= step.name)
      modifies this
      ensures Valid() && Now() == Next(old(Now()), step)
    {
      ghost var before := Now();
      var next := Next(Now(), step);
      now, entries, temporaries, stores := next.now, next.entries, next.temporaries, next.stores;
      StepKeepsInv(before, step);
      StepKeepsNames(before, step);
    }

    /** The step can be taken, and no store outlives the age limit through it. */
    predicate Possible(step: Step)
      reads this
    {
      && Enabled(Now(), step) && NoneOutlives(Next(Now(), step))
      && (step.Begin? ==> !(TEMP_PREFIX <= step.name))
    }

    predicate ByAnother(step: Step, me: nat) {
      match step
      case Wait(_) => true
      case Touch(_) => true
      case Prune(_, _) => true
      case _ => step.id != me
    }

    method TakeAnother(step: Step, me: nat)
      requires Valid() && Enabled(Now(), step) && NoneOutlives(Next(Now(), step))
      requires ByAnother(step, me) && me in stores && (step.Begin? ==> !(TEMP_PREFIX <= step.name))
      modifies this
      ensures Valid() && me in stores && stores[me] == old(stores)[me]
    {
      Take(step);
    }

    /** Any number of steps of other stores, lookups and prunes, and any time within the limit. */
    method Others(me: nat)
      requires Valid() && me in stores
      modifies this
      ensures Valid() && me in stores && stores[me] == old(stores)[me]
    {
      var rounds: nat := *;
      while rounds > 0
        invariant Valid() && me in stores && stores[me] == old(stores)[me]
      {
        var step: Step := *;
        if Possible(step) && ByAnother(step, me) {
          TakeAnother(step, me);
        }
        rounds := rounds - 1;
      }
    }

    /** The same around an operation that belongs to no store. */
    method Anybody()
      requires Valid()
      modifies this
      ensures Valid()
    {
      var rounds: nat := *;
      while rounds > 0
        invariant Valid()
      {
        var step: Step := *;
        if Possible(step) {
          Take(step);
        }
        rounds := rounds - 1;
      }
    }

    /** A step of this store; the copy, the marker or any other operation may fail instead. */
    method Attempt(step: Step) returns (ok: bool)
      requires Valid() && Enabled(Now(), step)
      requires step.MakeTemporary? || step.CopyNext? || step.MarkComplete? || step.Publish?
      modifies this
      ensures Valid() && step.id in stores
      ensures stores[step.id].built == old(stores)[step.id].built && stores[step.id].name == old(stores)[step.id].name
      ensures if ok then Now() == Next(old(Now()), step) && (step.Publish? || stores[step.id].phase != Over)
              else stores[step.id].phase == Over && (old(entries) == entries)
    {
      ok := *;
      if !ok {
        Take(Fail(step.id));
        return;
      }
      Take(step);
      ok := step.Publish? || stores[step.id].phase != Over;
    }

    /** Copies the tree into the temporary directory, item by item. */
    method CopyTree(me: nat) returns (ok: bool)
      requires Valid() && me in stores && stores[me].phase == Copying(0)
      modifies this
      ensures Valid() && me in stores
      ensures stores[me].built == old(stores)[me].built && stores[me].name == old(stores)[me].name
      ensures if ok then stores[me].phase == Copying(|stores[me].built|) else stores[me].phase == Over
    {
      var k := 0;
      while k < |stores[me].built|
        invariant Valid() && me in stores && stores[me].phase == Copying(k) && k <= |stores[me].built|
        invariant stores[me].built == old(stores)[me].built && stores[me].name == old(stores)[me].name
        decreases |stores[me].built| - k
      {
        ok := Attempt(CopyNext(me));
        if !ok {
          return;
        }
        Others(me);
        k := k + 1;
      }
      ok := true;
    }

    /** Renames the finished temporary directory into place, unless another store was first. */
    method PublishEntry(me: nat) returns (r: StoreResult)
      requires Valid() && me in stores && stores[me].phase == Publishing
      modifies this
      ensures Valid() && me in stores && stores[me].phase == Over && r != AlreadyStored
      ensures var name := old(stores)[me].name;
              && (r != StoreFailed ==> name in entries && WholeCopy(Now(), name))
              && (r == Published ==> entries[name].tree == Items(old(stores)[me].built))
    {
      var name := stores[me].name;
      assert StoreAgrees(Now(), me);
      var free := name !in entries;
      var ok := Attempt(Publish(me));
      if ok && free {
        assert WholeCopy(Now(), name);
        return Published;
      }
      if name in entries && entries[name].complete {
        assert WholeCopy(Now(), name);
        return RaceLost;
      }
      return StoreFailed;
    }

    /** Looks for a complete entry first. */
    method BeginStore(me: nat, name: string, built: seq<Item>) returns (found: bool)
      requires Valid() && me !in stores && me !in temporaries && IsWalk(built) && !(TEMP_PREFIX <= name)
      modifies this
      ensures Valid() && me in stores && stores[me].name == name && stores[me].built == built
      ensures if found then stores[me].phase == Over && name in entries && WholeCopy(Now(), name)
              else stores[me].phase == MakingTemporary
    {
      Take(Begin(me, name, built));
      Others(me);
      Take(Check(me));
      found := stores[me].phase == Over;
      if found {
        assert WholeCopy(Now(), name);
      }
    }

    /** Makes the temporary directory, copies the tree into it and marks it complete. */
    method FillTemporary(me: nat) returns (ok: bool)
      requires Valid() && me in stores && stores[me].phase == MakingTemporary
      modifies this
      ensures Valid() && me in stores
      ensures stores[me].built == old(stores)[me].built && stores[me].name == old(stores)[me].name
      ensures stores[me].phase == if ok then Publishing else Over
    {
      if me in temporaries {
        Take(Fail(me));
        return false;
      }
      ok := Attempt(MakeTemporary(me));
      if !ok {
        return;
      }
      Others(me);
      ok := CopyTree(me);
      if !ok {
        return;
      }
      ok := Attempt(MarkComplete(me));
      if ok {
        Others(me);
      }
    }

    /**
     * Whatever else goes on in the directory, a store that reports success found or left a whole copy
     * under its name: the copy it published is the tree it was given. `seen` is the directory then,
     * before this store's own prune.
     */
    method StoreBuild(me: nat, name: string, built: seq<Item>) returns (r: StoreResult, ghost seen: Cache)
      requires Valid() && me !in stores && me !in temporaries && IsWalk(built) && !(TEMP_PREFIX <= name)
      modifies this
      ensures Valid() && me in stores && stores[me].phase == Over
      ensures r != StoreFailed ==> Inv(seen) && name in seen.entries && WholeCopy(seen, name)
      ensures r == Published ==> seen.entries[name].tree == Items(built)
    {
      var found := BeginStore(me, name, built);
      seen := Now();
      if found {
        return AlreadyStored, seen;
      }
      var ok := FillTemporary(me);
      if !ok {
        return StoreFailed, seen;
      }
      r := PublishEntry(me);
      seen := Now();
      if r == Published {
        PruneEntries();
      }
    }

    // ---- Pruning ----

    /**
     * pruneBuildCache, as one Prune step: it takes exactly the temporary directories that are older than
     * an hour, and of the entries all but the three most recently used.
     */
    method PruneEntries()
      requires Valid()
      modifies this
      ensures Valid() && stores == old(stores) && now == old(now)
      ensures exists swept, removed ::
          IsPruning(old(Now()), swept, removed) && Now() == Next(old(Now()), Prune(swept, removed))
    {
      var swept, removed := PruningOf(Now());
      Take(Prune(swept, removed));
    }

    /** lookupBuildCache: two looks at the directory, with anything in between; a hit makes the entry recent. */
    method Lookup(name: string, manifest: string) returns (hit: bool, tree: set<Item>)
      requires Valid()
      modifies this
      ensures Valid()
      ensures hit ==>
          name in entries && tree == entries[name].tree && (exists item :: item in tree && item.path == [manifest])
      ensures hit ==> exists id :: id in stores && stores[id].name == name && tree == Items(stores[id].built)
    {
      if name !in entries || !entries[name].complete {
        return false, {};
      }
      Anybody();
      if name !in entries || forall item :: item in entries[name].tree ==> item.path != [manifest] {
        return false, {};
      }
      Take(Touch(name));
      assert WholeCopy(Now(), name);
      return true, entries[name].tree;
    }
  }
}
