/**
 * Exactly when a published entry of the build cache is whole, over every run, with sweeps of temporary
 * directories that are still in use.
 */
module BuildCacheSweeps {
  import opened BuildCache

  /** The step sweeps the temporary directory of a store that is copying. */
  predicate SweepsCopy(c: Cache, step: Step, id: nat) {
    step.Prune? && id in step.sweptTemporaries && id in c.stores && c.stores[id].phase.Copying?
  }

  /** How much the store had copied when its temporary directory was last swept, and 0 if it never was. */
  ghost function LostBefore(states: seq<Cache>, steps: seq<Step>, k: nat, id: nat): nat
    requires k <= |steps| <= |states|
  {
    if k == 0 then 0
    else if SweepsCopy(states[k - 1], steps[k - 1], id) then states[k - 1].stores[id].phase.next
    else LostBefore(states, steps, k - 1, id)
  }

  /** What copying the items into an empty directory leaves: each directory is made with its ancestors. */
  function Made(items: seq<Item>): set<Item> {
    if items == [] then {}
    else
      var last := items[|items| - 1];
      Made(items[..|items| - 1]) + (if last.Directory? then Ancestors(last.path) else {last})
  }

  /** Copying `later` makes `item` too: it is the item itself, or a directory with its ancestors. */
  predicate MadeBy(item: Item, later: Item) {
    item == later || (item.Directory? && later.Directory? && item.path <= later.path)
  }

  /** Everything copied before the sweep is made again by something copied after it. */
  ghost predicate Recovered(built: seq<Item>, lost: nat)
    requires lost <= |built|
  {
    forall i :: 0 <= i < lost ==> RecoveredAt(built, lost, i)
  }

  ghost predicate RecoveredAt(built: seq<Item>, lost: nat, i: nat)
    requires lost <= |built| && i < |built|
  {
    exists j :: lost <= j < |built| && MadeBy(built[i], built[j])
  }

  lemma {:induction false} MadeAre(items: seq<Item>, x: Item)
    ensures x in Made(items) <==> exists j :: 0 <= j < |items| && MadeBy(x, items[j])
  {
    if items != [] {
      var n := |items| - 1;
      MadeAre(items[..n], x);
      if j :| 0 <= j < n && MadeBy(x, items[..n][j]) {
        assert MadeBy(x, items[j]);
      }
      if j :| 0 <= j < |items| && MadeBy(x, items[j]) {
        assert j < n ==> items[..n][j] == items[j];
      }
      AncestorsAre(items[n].path, x);
    }
  }

  lemma AncestorsAre(path: Path, x: Item)
    ensures x in Ancestors(path) <==> x.Directory? && x.path <= path
  {
    if x.Directory? && x.path <= path {
      assert x == Directory(path[..|x.path|]);
    }
  }

  /** A walk has met the ancestors of what it copies, so copying the rest makes nothing new. */
  lemma MadeStaysInside(built: seq<Item>, lost: nat, x: Item)
    requires IsWalk(built) && lost <= |built| && x in Made(built[lost..])
    ensures x in Items(built)
  {
    MadeAre(built[lost..], x);
    var j :| 0 <= j < |built[lost..]| && MadeBy(x, built[lost..][j]);
    assert MadeBy(x, built[lost + j]);
    MadeByIsMet(built, lost + j, x);
  }

  lemma MadeByIsMet(built: seq<Item>, k: nat, x: Item)
    requires IsWalk(built) && k < |built| && MadeBy(x, built[k])
    ensures x in Items(built)
  {
    if x != built[k] && |x.path| < |built[k].path| {
      AncestorPresent(built, k, |x.path|);
      var i :| 0 <= i < k && built[..k][i] == Directory(built[k].path[..|x.path|]);
      assert built[i] == x;
    } else {
      assert built[k] == x;
    }
  }

  /** The copy from the sweep on is the whole tree iff what was lost is recovered. */
  lemma RestIsWholeIff(built: seq<Item>, lost: nat)
    requires IsWalk(built) && lost <= |built|
    ensures Made(built[lost..]) == Items(built) <==> Recovered(built, lost)
  {
    forall x | x in Made(built[lost..]) ensures x in Items(built) {
      MadeStaysInside(built, lost, x);
    }
    forall i | 0 <= i < |built|
      ensures built[i] in Made(built[lost..]) <==> i >= lost || RecoveredAt(built, lost, i)
    {
      MadeAgain(built, lost, i);
    }
    if Made(built[lost..]) == Items(built) {
      forall i | 0 <= i < lost ensures RecoveredAt(built, lost, i) {
        assert built[i] in Items(built);
      }
    }
  }

  lemma MadeAgain(built: seq<Item>, lost: nat, i: nat)
    requires lost <= |built| && i < |built|
    ensures built[i] in Made(built[lost..]) <==> i >= lost || RecoveredAt(built, lost, i)
  {
    MadeAre(built[lost..], built[i]);
    if i >= lost {
      assert MadeBy(built[i], built[lost..][i - lost]);
    }
    if j :| lost <= j < |built| && MadeBy(built[i], built[j]) {
      assert built[lost..][j - lost] == built[j];
    }
  }

  // ---- What every run keeps, whatever is swept ----

  /** A temporary directory holds exactly what was copied since it was last swept. */
  ghost predicate CopyAgrees(c: Cache, id: nat, lost: nat)
    requires id in c.stores
  {
    var s := c.stores[id];
    && IsWalk(s.built)
    && (s.phase == Checking || s.phase == MakingTemporary ==> lost == 0)
    && (s.phase.Copying? ==>
          && lost <= s.phase.next <= |s.built|
          && (id in c.temporaries ==> c.temporaries[id].tree == Made(s.built[lost..s.phase.next]))
          && (id !in c.temporaries ==> lost == s.phase.next))
    && (s.phase == Publishing ==>
          && lost <= |s.built|
          && (id in c.temporaries ==> c.temporaries[id].tree == Made(s.built[lost..])))
  }

  lemma CopyExtends(c: Cache, id: nat, lost: nat)
    requires id in c.stores && c.stores[id].phase.Copying? && CopyAgrees(c, id, lost)
    requires c.stores[id].phase.next < |c.stores[id].built|
    ensures CopyAgrees(Next(c, CopyNext(id)), id, lost)
  {
    var built, k := c.stores[id].built, c.stores[id].phase.next;
    MadeExtends(built, lost, k);
    CopiedIs(c, id, built[k]);
    if Copied(c, id, built[k]).Some? {
      AfterCopy(c, id, k, Copied(c, id, built[k]).value);
    }
  }

  lemma AfterCopy(c: Cache, id: nat, k: nat, t: Entry)
    requires id in c.stores && c.stores[id].phase == Copying(k) && k < |c.stores[id].built|
    requires Copied(c, id, c.stores[id].built[k]).Some? && Copied(c, id, c.stores[id].built[k]).value == t
    ensures var d := Next(c, CopyNext(id));
            && id in d.stores && d.stores[id] == c.stores[id].(phase := Copying(k + 1))
            && id in d.temporaries && d.temporaries[id] == t
  {
  }

  lemma MadeExtends(built: seq<Item>, lost: nat, k: nat)
    requires lost <= k < |built|
    ensures Made(built[lost..k + 1])
         == Made(built[lost..k]) + (if built[k].Directory? then Ancestors(built[k].path) else {built[k]})
    ensures lost == k ==> Made(built[lost..k]) == {}
  {
    assert built[lost..k + 1][..k - lost] == built[lost..k];
    assert lost == k ==> built[lost..k] == [];
  }

  /** A copied item is added to what is there; with nothing there only a directory can be made. */
  lemma CopiedIs(c: Cache, id: nat, item: Item)
    ensures Copied(c, id, item).Some? ==>
              Copied(c, id, item).value.tree == (if id in c.temporaries then c.temporaries[id].tree else {})
                + (if item.Directory? then Ancestors(item.path) else {item})
  {
  }

  lemma StepKeepsCopy(c: Cache, step: Step, id: nat, lost: nat)
    requires Enabled(c, step) && id in c.stores && CopyAgrees(c, id, lost)
    ensures CopyAgrees(Next(c, step), id, if SweepsCopy(c, step, id) then c.stores[id].phase.next else lost)
  {
    if step == CopyNext(id) {
      CopyExtends(c, id, lost);
    } else if OwnStep(step, id) {
      OwnStepKeepsCopy(c, step, id, lost);
    } else if step.Prune? && id in step.sweptTemporaries {
      SweepKeepsCopy(c, step, id, lost);
    } else {
      OtherStepIsApart(c, step, id);
      CopyAgreesApart(c, Next(c, step), id, lost);
    }
  }

  predicate OwnStep(step: Step, id: nat) {
    match step
    case Wait(_) => false
    case Touch(_) => false
    case Prune(_, _) => false
    case _ => step.id == id
  }

  lemma OwnStepKeepsCopy(c: Cache, step: Step, id: nat, lost: nat)
    requires Enabled(c, step) && id in c.stores && CopyAgrees(c, id, lost) && OwnStep(step, id) && !step.CopyNext?
    ensures CopyAgrees(Next(c, step), id, lost)
  {
    var s := c.stores[id];
    assert s.built[0..0] == [];
    if step.MarkComplete? {
      assert s.built[lost..|s.built|] == s.built[lost..];
    }
  }

  lemma SweepKeepsCopy(c: Cache, step: Step, id: nat, lost: nat)
    requires Enabled(c, step) && id in c.stores && CopyAgrees(c, id, lost)
    requires step.Prune? && id in step.sweptTemporaries
    ensures CopyAgrees(Next(c, step), id, if c.stores[id].phase.Copying? then c.stores[id].phase.next else lost)
  {
  }

  /** Nothing of the store changes. */
  predicate Apart(c: Cache, d: Cache, id: nat)
    requires id in c.stores
  {
    && id in d.stores && d.stores[id] == c.stores[id]
    && (id in d.temporaries <==> id in c.temporaries)
    && (id in c.temporaries ==> d.temporaries[id] == c.temporaries[id])
  }

  lemma OtherStepIsApart(c: Cache, step: Step, id: nat)
    requires Enabled(c, step) && id in c.stores && !OwnStep(step, id)
    requires step.Prune? ==> id !in step.sweptTemporaries
    ensures Apart(c, Next(c, step), id)
  {
  }

  lemma CopyAgreesApart(c: Cache, d: Cache, id: nat, lost: nat)
    requires id in c.stores && Apart(c, d, id) && CopyAgrees(c, id, lost)
    ensures CopyAgrees(d, id, lost)
  {
  }

  lemma {:induction false} LostOnlyAfterBegin(states: seq<Cache>, steps: seq<Step>, k: nat, id: nat)
    requires IsRun(states, steps) && k <= |steps| && id !in states[k].stores
    ensures LostBefore(states, steps, k, id) == 0
  {
    if k > 0 {
      assert states[k] == Next(states[k - 1], steps[k - 1]);
      assert id !in states[k - 1].stores;
      LostOnlyAfterBegin(states, steps, k - 1, id);
    }
  }

  lemma {:induction false} ReachableCopy(states: seq<Cache>, steps: seq<Step>, k: nat, id: nat)
    requires IsRun(states, steps) && k <= |steps| && id in states[k].stores
    ensures CopyAgrees(states[k], id, LostBefore(states, steps, k, id))
  {
    if k > 0 {
      var c, step := states[k - 1], steps[k - 1];
      assert states[k] == Next(c, step);
      if id in c.stores {
        ReachableCopy(states, steps, k - 1, id);
        StepKeepsCopy(c, step, id, LostBefore(states, steps, k - 1, id));
      } else {
        LostOnlyAfterBegin(states, steps, k - 1, id);
      }
    }
  }

  // ---- Published entries ----

  /** At step j store `id` puts its temporary directory under the name. */
  predicate Publishes(states: seq<Cache>, steps: seq<Step>, j: nat, id: nat, name: string)
    requires |states| == |steps| + 1
  {
    && j < |steps| && steps[j] == Publish(id) && id in states[j].stores && states[j].stores[id].name == name
    && id in states[j].temporaries && name !in states[j].entries
  }

  /** An entry has the tree with which some store published it. */
  lemma {:induction false} EntryWasPublished(states: seq<Cache>, steps: seq<Step>, k: nat, name: string)
    returns (j: nat, id: nat)
    requires IsRun(states, steps) && k < |states| && name in states[k].entries
    ensures j < k && Publishes(states, steps, j, id, name)
    ensures states[k].entries[name].tree == states[j].temporaries[id].tree
  {
    var c, step := states[k - 1], steps[k - 1];
    assert Enabled(c, step) && states[k] == Next(c, step);
    if name in c.entries {
      j, id := EntryWasPublished(states, steps, k - 1, name);
    } else {
      j, id := k - 1, step.id;
    }
  }

  /**
   * Exact integrity, over every run: each entry was published by a store of that name, and it is a whole
   * copy of the tree that this store was given iff everything the store had copied when its temporary
   * directory was last swept was made again by what it copied afterwards. In particular it is whole when
   * the directory was not swept during the copy.
   */
  lemma EntryIsWholeIff(states: seq<Cache>, steps: seq<Step>, k: nat, name: string) returns (j: nat, id: nat)
    requires IsRun(states, steps) && k < |states| && name in states[k].entries
    ensures j < k && Publishes(states, steps, j, id, name)
    ensures var built, lost := states[j].stores[id].built, LostBefore(states, steps, j, id);
            && lost <= |built|
            && (states[k].entries[name].tree == Items(built) <==> Recovered(built, lost))
  {
    j, id := EntryWasPublished(states, steps, k, name);
    assert Enabled(states[j], steps[j]);
    ReachableCopy(states, steps, j, id);
    RestIsWholeIff(states[j].stores[id].built, LostBefore(states, steps, j, id));
  }

  /** A file that was copied before a sweep, and not again, is lost. */
  lemma LostFileIsNotRecovered(built: seq<Item>, lost: nat, i: nat)
    requires i < lost <= |built| && built[i].File?
    requires forall j :: lost <= j < |built| ==> built[j] != built[i]
    ensures !Recovered(built, lost)
  {
    assert !RecoveredAt(built, lost, i);
  }
}
