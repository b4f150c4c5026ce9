/**
 * The build artifact cache of internal/cmd/deploy_build_cache.go: any number of stores, lookups and
 * prunes share one cache directory. Every step is one file operation of a store, one prune, or the
 * passing of time; stores interleave at every step, fail, or are killed.
 */
module BuildCache {
  import opened Wrappers

  type Path = seq<string>

  /** What `linkTree` meets on its walk, root first and parents before children. */
  datatype Item = Directory(path: Path) | File(path: Path, content: string)

  /** A directory under the cache: what its `tree` holds, whether `.complete` is there, its modification time. */
  datatype Entry = Entry(tree: set<Item>, complete: bool, modified: int)

  datatype Phase = Checking | MakingTemporary | Copying(next: nat) | Publishing | Over

  /** One call of storeBuildCache for the finished build `built`; its temporary directory has its number. */
  datatype Store = Store(phase: Phase, name: string, built: seq<Item>, started: int)

  datatype Cache = Cache(now: int, entries: map<string, Entry>, temporaries: map<nat, Entry>, stores: map<nat, Store>)

  /** buildCacheTempMaxAge in seconds. */
  const TEMP_MAX_AGE: int := 3600

  datatype Step =
    | Wait(seconds: nat)
    | Begin(id: nat, name: string, built: seq<Item>)
    | Check(id: nat)
    | MakeTemporary(id: nat)
    | CopyNext(id: nat)
    | MarkComplete(id: nat)
    | Publish(id: nat)
    | Fail(id: nat)
    | Kill(id: nat)
    | Touch(name: string)
    | Prune(sweptTemporaries: set<nat>, removedEntries: set<string>)

  function Init(): Cache {
    Cache(0, map[], map[], map[])
  }

  function Items(built: seq<Item>): set<Item> {
    set i | 0 <= i < |built| :: built[i]
  }

  /** The walk of a tree: it starts at the root, and what contains an item comes before it. */
  predicate IsWalk(built: seq<Item>) {
    && built != [] && built[0] == Directory([])
    && forall i :: 0 <= i < |built| && built[i].path != [] ==>
         Directory(built[i].path[..|built[i].path| - 1]) in Items(built[..i])
  }

  /** `os.MkdirAll`: the directory and all its ancestors. */
  function Ancestors(path: Path): set<Item> {
    set n | 0 <= n <= |path| :: Directory(path[..n])
  }

  /** What one item of the copy leaves in the temporary directory, or nothing if it cannot be made. */
  function Copied(c: Cache, id: nat, item: Item): Option<Entry> {
    match item
    case Directory(path) =>
      if id in c.temporaries then
        var t := c.temporaries[id];
        Some(Entry(t.tree + Ancestors(path), t.complete, if t.tree == {} then c.now else t.modified))
      else
        Some(Entry(Ancestors(path), false, c.now))
    case File(path, _) =>
      if id in c.temporaries && path != [] && Directory(path[..|path| - 1]) in c.temporaries[id].tree then
        Some(c.temporaries[id].(tree := c.temporaries[id].tree + {item}))
      else None
  }

  predicate InPhase(c: Cache, id: nat, phase: Phase) {
    id in c.stores && c.stores[id].phase == phase
  }

  predicate Live(s: Store) {
    s.phase != Over
  }

  predicate Enabled(c: Cache, step: Step) {
    match step
    case Wait(_) => true
    case Begin(id, _, built) => id !in c.stores && id !in c.temporaries && IsWalk(built)
    case Check(id) => InPhase(c, id, Checking)
    case MakeTemporary(id) => InPhase(c, id, MakingTemporary) && id !in c.temporaries
    case CopyNext(id) => id in c.stores && c.stores[id].phase.Copying? && c.stores[id].phase.next < |c.stores[id].built|
    case MarkComplete(id) => id in c.stores && c.stores[id].phase == Copying(|c.stores[id].built|)
    case Publish(id) => InPhase(c, id, Publishing)
    case Fail(id) => id in c.stores && Live(c.stores[id])
    case Kill(id) => id in c.stores && Live(c.stores[id])
    case Touch(name) => name in c.entries
    case Prune(swept, removed) =>
      && removed <= c.entries.Keys
      && forall id :: id in swept ==> id in c.temporaries && c.now - c.temporaries[id].modified > TEMP_MAX_AGE
  }

  function SetPhase(c: Cache, id: nat, phase: Phase): Cache
    requires id in c.stores
  {
    c.(stores := c.stores[id := c.stores[id].(phase := phase)])
  }

  /** A store that gives up removes its temporary directory. */
  function GiveUp(c: Cache, id: nat): Cache
    requires id in c.stores
  {
    SetPhase(c, id, Over).(temporaries := c.temporaries - {id})
  }

  function Next(c: Cache, step: Step): Cache
    requires Enabled(c, step)
  {
    match step
    case Wait(seconds) => c.(now := c.now + seconds)
    case Begin(id, name, built) => c.(stores := c.stores[id := Store(Checking, name, built, c.now)])
    case Check(id) =>
      var name := c.stores[id].name;
      SetPhase(c, id, if name in c.entries && c.entries[name].complete then Over else MakingTemporary)
    case MakeTemporary(id) => SetPhase(c, id, Copying(0)).(temporaries := c.temporaries[id := Entry({}, false, c.now)])
    case CopyNext(id) =>
      var k := c.stores[id].phase.next;
      (match Copied(c, id, c.stores[id].built[k])
       case None => GiveUp(c, id)
       case Some(t) => SetPhase(c, id, Copying(k + 1)).(temporaries := c.temporaries[id := t]))
    case MarkComplete(id) =>
      if id in c.temporaries then
        SetPhase(c, id, Publishing).(temporaries :=
          c.temporaries[id := c.temporaries[id].(complete := true, modified := c.now)])
      else GiveUp(c, id)
    case Publish(id) =>
      var name := c.stores[id].name;
      if id in c.temporaries && name !in c.entries then
        SetPhase(c, id, Over).(entries := c.entries[name := c.temporaries[id]], temporaries := c.temporaries - {id})
      else GiveUp(c, id)
    case Fail(id) => GiveUp(c, id)
    case Kill(id) => SetPhase(c, id, Over)
    case Touch(name) => c.(entries := c.entries[name := c.entries[name].(modified := c.now)])
    case Prune(swept, removed) => c.(temporaries := c.temporaries - swept, entries := c.entries - removed)
  }

  ghost predicate IsRun(states: seq<Cache>, steps: seq<Step>) {
    && |states| == |steps| + 1
    && states[0] == Init()
    && forall k {:trigger steps[k]} :: 0 <= k < |steps| ==>
        Enabled(states[k], steps[k]) && states[k + 1] == Next(states[k], steps[k])
  }

  /** lookupBuildCache finds the marker and the artifact manifest. */
  predicate Hit(c: Cache, name: string, manifest: string) {
    name in c.entries && c.entries[name].complete
    && exists item :: item in c.entries[name].tree && item.path == [manifest]
  }

  // ---- The invariant ----

  /** No store that is still running is older than the age at which temporary directories are swept. */
  predicate NoneOutlives(c: Cache) {
    forall id :: id in c.stores && Live(c.stores[id]) ==> c.now - c.stores[id].started <= TEMP_MAX_AGE
  }

  ghost predicate StoreAgrees(c: Cache, id: nat)
    requires id in c.stores
  {
    var s := c.stores[id];
    && IsWalk(s.built) && s.started <= c.now
    && (s.phase.Copying? ==>
          && s.phase.next <= |s.built| && id in c.temporaries
          && c.temporaries[id].tree == Items(s.built[..s.phase.next]) && !c.temporaries[id].complete
          && c.temporaries[id].modified >= s.started)
    && (s.phase.Publishing? ==>
          && id in c.temporaries && c.temporaries[id].tree == Items(s.built) && c.temporaries[id].complete
          && c.temporaries[id].modified >= s.started)
  }

  /** A whole copy of a tree that some finished build stored under this name. */
  ghost predicate WholeCopy(c: Cache, name: string)
    requires name in c.entries
  {
    && c.entries[name].complete
    && exists id :: id in c.stores && c.stores[id].name == name && c.entries[name].tree == Items(c.stores[id].built)
  }

  ghost predicate Inv(c: Cache) {
    && (forall id :: id in c.stores ==> StoreAgrees(c, id))
    && (forall name :: name in c.entries ==> WholeCopy(c, name))
  }

  /** Every proper ancestor of an item was met before it. */
  lemma {:induction false} AncestorPresent(built: seq<Item>, k: nat, n: nat)
    requires IsWalk(built) && k < |built| && n < |built[k].path|
    ensures Directory(built[k].path[..n]) in Items(built[..k])
    decreases k, |built[k].path| - n
  {
    var path := built[k].path;
    var parent := path[..|path| - 1];
    assert Directory(parent) in Items(built[..k]);
    var j :| 0 <= j < k && built[..k][j] == Directory(parent);
    assert built[j] == Directory(parent);
    if n < |parent| {
      AncestorPresent(built, j, n);
      assert parent[..n] == path[..n];
      var i :| 0 <= i < j && built[..j][i] == Directory(parent[..n]);
      assert built[..k][i] == built[i];
    } else {
      assert path[..n] == parent;
    }
  }

  /** Copying one more item of a walk adds exactly that item. */
  lemma CopyAddsItem(built: seq<Item>, k: nat)
    requires IsWalk(built) && k < |built|
    ensures Items(built[..k + 1]) == Items(built[..k]) + {built[k]}
    ensures built[k].Directory? ==> Items(built[..k]) + Ancestors(built[k].path) == Items(built[..k + 1])
    ensures built[k].File? ==> built[k].path != [] ==>
        Directory(built[k].path[..|built[k].path| - 1]) in Items(built[..k])
  {
    assert built[..k + 1] == built[..k] + [built[k]];
    forall x | x in Items(built[..k + 1])
      ensures x in Items(built[..k]) + {built[k]}
    {
      var i :| 0 <= i < k + 1 && built[..k + 1][i] == x;
      if i < k {
        assert built[..k][i] == x;
      }
    }
    forall x | x in Items(built[..k]) + {built[k]}
      ensures x in Items(built[..k + 1])
    {
      if x == built[k] {
        assert built[..k + 1][k] == x;
      } else {
        var i :| 0 <= i < k && built[..k][i] == x;
        assert built[..k + 1][i] == x;
      }
    }
    if built[k].Directory? {
      var path := built[k].path;
      assert path[..|path|] == path;
      forall x | x in Ancestors(path)
        ensures x in Items(built[..k + 1])
      {
        var n :| 0 <= n <= |path| && x == Directory(path[..n]);
        if n < |path| {
          AncestorPresent(built, k, n);
        }
      }
      assert built[k] in Ancestors(path);
    }
  }

  /** Nothing that other stores and the entries rely on changes when one store moves. */
  ghost predicate OnlyStoreMoves(c: Cache, d: Cache, id: nat) {
    && id in d.stores && d.stores == c.stores[id := d.stores[id]] && d.now == c.now
    && (id in c.stores ==> d.stores[id].name == c.stores[id].name && d.stores[id].built == c.stores[id].built)
    && (forall other :: other in c.temporaries && other != id ==>
        other in d.temporaries && d.temporaries[other] == c.temporaries[other])
  }

  lemma StoreMoveKeepsInv(c: Cache, d: Cache, id: nat)
    requires Inv(c) && OnlyStoreMoves(c, d, id) && StoreAgrees(d, id)
    requires forall name :: name in d.entries ==>
        (name in c.entries && d.entries[name] == c.entries[name]) || WholeCopy(d, name)
    ensures Inv(d)
  {
    forall other | other in d.stores
      ensures StoreAgrees(d, other)
    {
      if other != id {
        assert StoreAgrees(c, other);
      }
    }
    forall name | name in d.entries
      ensures WholeCopy(d, name)
    {
      if name in c.entries && d.entries[name] == c.entries[name] {
        assert WholeCopy(c, name);
        var other :| other in c.stores && c.stores[other].name == name
            && c.entries[name].tree == Items(c.stores[other].built);
        assert other in d.stores && d.stores[other].name == name && d.stores[other].built == c.stores[other].built;
      }
    }
  }

  lemma CopyKeepsInv(c: Cache, step: Step)
    requires Inv(c) && Enabled(c, step) && step.CopyNext?
    ensures Inv(Next(c, step))
  {
    assert StoreAgrees(c, step.id);
    var s := c.stores[step.id];
    CopyAddsItem(s.built, s.phase.next);
    StoreMoveKeepsInv(c, Next(c, step), step.id);
  }

  lemma FinishingKeepsInv(c: Cache, step: Step)
    requires Inv(c) && Enabled(c, step) && (step.MarkComplete? || step.Publish?)
    ensures Inv(Next(c, step))
  {
    assert StoreAgrees(c, step.id);
    var s, d := c.stores[step.id], Next(c, step);
    assert s.built[..|s.built|] == s.built;
    if step.Publish? && step.id in c.temporaries && s.name !in c.entries {
      assert d.stores[step.id].name == s.name && d.entries[s.name].tree == Items(d.stores[step.id].built);
      assert WholeCopy(d, s.name);
    }
    StoreMoveKeepsInv(c, d, step.id);
  }

  lemma BeginningKeepsInv(c: Cache, step: Step)
    requires Inv(c) && Enabled(c, step)
    requires step.Begin? || step.Check? || step.MakeTemporary? || step.Fail? || step.Kill?
    ensures Inv(Next(c, step))
  {
    if !step.Begin? {
      assert StoreAgrees(c, step.id);
      assert c.stores[step.id].built[..0] == [];
      assert Items([]) == {};
    }
    StoreMoveKeepsInv(c, Next(c, step), step.id);
  }

  /** A sweep takes only temporary directories older than any running store. */
  lemma SharedStepKeepsInv(c: Cache, step: Step)
    requires Inv(c) && NoneOutlives(c) && Enabled(c, step)
    requires step.Wait? || step.Touch? || step.Prune?
    ensures Inv(Next(c, step))
  {
    var d := Next(c, step);
    forall id | id in d.stores
      ensures StoreAgrees(d, id)
    {
      assert StoreAgrees(c, id);
    }
    forall name | name in d.entries
      ensures WholeCopy(d, name)
    {
      assert WholeCopy(c, name);
      var id :| id in c.stores && c.stores[id].name == name && c.entries[name].tree == Items(c.stores[id].built);
      assert d.stores[id] == c.stores[id];
    }
  }

  lemma StepKeepsInv(c: Cache, step: Step)
    requires Inv(c) && NoneOutlives(c) && Enabled(c, step)
    ensures Inv(Next(c, step))
  {
    match step
    case CopyNext(_) => CopyKeepsInv(c, step);
    case MarkComplete(_) => FinishingKeepsInv(c, step);
    case Publish(_) => FinishingKeepsInv(c, step);
    case Wait(_) => SharedStepKeepsInv(c, step);
    case Touch(_) => SharedStepKeepsInv(c, step);
    case Prune(_, _) => SharedStepKeepsInv(c, step);
    case _ => BeginningKeepsInv(c, step);
  }

  lemma {:induction false} ReachableInv(states: seq<Cache>, steps: seq<Step>, k: nat)
    requires IsRun(states, steps) && k < |states|
    requires forall i :: 0 <= i < k ==> NoneOutlives(states[i])
    ensures Inv(states[k])
  {
    if k > 0 {
      ReachableInv(states, steps, k - 1);
      assert states[k] == Next(states[k - 1], steps[k - 1]);
      StepKeepsInv(states[k - 1], steps[k - 1]);
    }
  }

  /**
   * Integrity: while no store outlives the age at which temporary directories are swept, a hit finds a
   * whole copy of a tree that some finished build stored under that entry name.
   */
  lemma HitIsWhole(states: seq<Cache>, steps: seq<Step>, k: nat, name: string, manifest: string)
    requires IsRun(states, steps) && k < |states|
    requires forall i :: 0 <= i < k ==> NoneOutlives(states[i])
    requires Hit(states[k], name, manifest)
    ensures exists id :: id in states[k].stores && states[k].stores[id].name == name
              && IsWalk(states[k].stores[id].built) && states[k].entries[name].tree == Items(states[k].stores[id].built)
  {
    ReachableInv(states, steps, k);
    assert WholeCopy(states[k], name);
    var id :| id in states[k].stores && states[k].stores[id].name == name
      && states[k].entries[name].tree == Items(states[k].stores[id].built);
    assert StoreAgrees(states[k], id);
  }

  // ---- The side condition is needed ----

  /** A tree with a file, a directory and the manifest. */
  const SMALL_TREE: seq<Item> := [Directory([]), File(["a"], "1"), Directory(["d"]), File(["manifest"], "2")]

  lemma SmallTreeIsWalk()
    ensures IsWalk(SMALL_TREE)
  {
    forall i | 0 <= i < |SMALL_TREE| && SMALL_TREE[i].path != []
      ensures Directory(SMALL_TREE[i].path[..|SMALL_TREE[i].path| - 1]) in Items(SMALL_TREE[..i])
    {
      assert SMALL_TREE[i].path[..0] == [];
      assert SMALL_TREE[..i][0] == Directory([]);
    }
  }

  /** The cache with one store of the small tree under the name `e`. */
  function Storing(now: int, phase: Phase, temporaries: map<nat, Entry>): Cache {
    Cache(now, map[], temporaries, map[0 := Store(phase, "e", SMALL_TREE, 0)])
  }

  lemma Extend(states: seq<Cache>, steps: seq<Step>, step: Step, next: Cache)
      returns (longer: seq<Cache>, more: seq<Step>)
    requires IsRun(states, steps) && Enabled(states[|steps|], step) && next == Next(states[|steps|], step)
    ensures IsRun(longer, more) && longer == states + [next] && more == steps + [step]
  {
    longer, more := states + [next], steps + [step];
  }

  lemma CopyStep(now: int, k: nat, temporaries: map<nat, Entry>, after: Entry)
    requires k < |SMALL_TREE|
    requires Copied(Storing(now, Copying(k), temporaries), 0, SMALL_TREE[k]) == Some(after)
    ensures Enabled(Storing(now, Copying(k), temporaries), CopyNext(0))
    ensures Next(Storing(now, Copying(k), temporaries), CopyNext(0))
        == Storing(now, Copying(k + 1), temporaries[0 := after])
  {
  }

  lemma RootAndD()
    ensures Ancestors([]) == {Directory([])} && Ancestors(["d"]) == {Directory([]), Directory(["d"])}
  {
    var root: Path := [];
    assert root[..0] == root && ["d"][..0] == root && ["d"][..1] == ["d"];
    forall x ensures x in Ancestors(root) <==> x == Directory(root) {
      if x == Directory(root) {
        assert x == Directory(root[..0]);
      }
    }
    forall x ensures x in Ancestors(["d"]) <==> x == Directory(root) || x == Directory(["d"]) {
      if x == Directory(root) {
        assert x == Directory(["d"][..0]);
      }
      if x == Directory(["d"]) {
        assert x == Directory(["d"][..1]);
      }
    }
  }

  const ROOT_ONLY: Entry := Entry({Directory([])}, false, 0)
  const HALF_COPY: Entry := Entry({Directory([]), File(["a"], "1")}, false, 0)
  const REMADE: Entry := Entry({Directory([]), Directory(["d"])}, false, 3601)
  const TORN_COPY: Entry := Entry({Directory([]), Directory(["d"]), File(["manifest"], "2")}, false, 3601)

  lemma HalfIsCopied()
    ensures Copied(Storing(0, Copying(0), map[0 := Entry({}, false, 0)]), 0, SMALL_TREE[0]) == Some(ROOT_ONLY)
    ensures Copied(Storing(0, Copying(1), map[0 := ROOT_ONLY]), 0, SMALL_TREE[1]) == Some(HALF_COPY)
  {
    var root: Path := [];
    RootAndD();
    assert {} + Ancestors(root) == {Directory(root)};
    assert SMALL_TREE[1].path[..|SMALL_TREE[1].path| - 1] == root;
    assert {Directory(root)} + {File(["a"], "1")} == HALF_COPY.tree;
  }

  lemma RestIsCopied()
    ensures Copied(Storing(3601, Copying(2), map[]), 0, SMALL_TREE[2]) == Some(REMADE)
    ensures Copied(Storing(3601, Copying(3), map[0 := REMADE]), 0, SMALL_TREE[3]) == Some(TORN_COPY)
  {
    var root: Path := [];
    RootAndD();
    assert SMALL_TREE[3].path[..|SMALL_TREE[3].path| - 1] == root;
    assert REMADE.tree + {File(["manifest"], "2")} == TORN_COPY.tree;
  }

  lemma StoreStarts() returns (states: seq<Cache>, steps: seq<Step>)
    ensures IsRun(states, steps) && states[|steps|] == Storing(0, Copying(0), map[0 := Entry({}, false, 0)])
  {
    SmallTreeIsWalk();
    states, steps := [Init()], [];
    states, steps := Extend(states, steps, Begin(0, "e", SMALL_TREE), Storing(0, Checking, map[]));
    states, steps := Extend(states, steps, Check(0), Storing(0, MakingTemporary, map[]));
    states, steps := Extend(states, steps, MakeTemporary(0), Storing(0, Copying(0), map[0 := Entry({}, false, 0)]));
  }

  /** The store copies the root and `a`, and then an hour and a second pass. */
  lemma StoreStalls() returns (states: seq<Cache>, steps: seq<Step>)
    ensures IsRun(states, steps) && states[|steps|] == Storing(3601, Copying(2), map[0 := HALF_COPY])
  {
    HalfIsCopied();
    CopyStep(0, 0, map[0 := Entry({}, false, 0)], ROOT_ONLY);
    CopyStep(0, 1, map[0 := ROOT_ONLY], HALF_COPY);
    states, steps := StoreStarts();
    states, steps := Extend(states, steps, CopyNext(0), Storing(0, Copying(1), map[0 := ROOT_ONLY]));
    states, steps := Extend(states, steps, CopyNext(0), Storing(0, Copying(2), map[0 := HALF_COPY]));
    states, steps := Extend(states, steps, Wait(3601), Storing(3601, Copying(2), map[0 := HALF_COPY]));
  }

  /** A sweep removes what was copied; the copy goes on in a new directory. */
  lemma StoreIsSwept() returns (states: seq<Cache>, steps: seq<Step>)
    ensures IsRun(states, steps) && states[|steps|] == Storing(3601, Copying(4), map[0 := TORN_COPY])
  {
    RestIsCopied();
    CopyStep(3601, 2, map[], REMADE);
    CopyStep(3601, 3, map[0 := REMADE], TORN_COPY);
    states, steps := StoreStalls();
    states, steps := Extend(states, steps, Prune({0}, {}), Storing(3601, Copying(2), map[]));
    states, steps := Extend(states, steps, CopyNext(0), Storing(3601, Copying(3), map[0 := REMADE]));
    states, steps := Extend(states, steps, CopyNext(0), Storing(3601, Copying(4), map[0 := TORN_COPY]));
  }

  /**
   * Without the side condition integrity fails: a store that is still copying after an hour can be
   * swept, recreates its directory with the rest of the tree, and publishes a torn copy that a lookup
   * accepts.
   */
  lemma SlowStoreCanTear() returns (states: seq<Cache>, steps: seq<Step>)
    ensures IsRun(states, steps)
    ensures Hit(states[|steps|], "e", "manifest")
    ensures forall id :: id in states[|steps|].stores ==>
              states[|steps|].entries["e"].tree != Items(states[|steps|].stores[id].built)
  {
    states, steps := StoreIsSwept();
    var marked := TORN_COPY.(complete := true);
    states, steps := Extend(states, steps, MarkComplete(0), Storing(3601, Publishing, map[0 := marked]));
    states, steps := Extend(states, steps, Publish(0), Storing(3601, Over, map[]).(entries := map["e" := marked]));
    assert File(["manifest"], "2") in marked.tree;
    assert SMALL_TREE[1] in Items(SMALL_TREE);
  }
}
