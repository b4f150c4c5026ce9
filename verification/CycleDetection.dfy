/** hasDependencyCycle of internal/audit/scheduler.go: a three-colour depth-first search. */
module CycleDetection {
  import opened JobGraph

  datatype Colour = Unvisited | Visiting | Visited

  /** `indices` is the ID index `validate` builds, and every named dependency is in it. */
  predicate Indexed(jobs: seq<Job>, indices: map<string, nat>) {
    && (forall i :: 0 <= i < |jobs| ==> jobs[i].id in indices && indices[jobs[i].id] == i)
    && (forall id :: id in indices ==> indices[id] < |jobs| && jobs[indices[id]].id == id)
  }

  predicate DependenciesKnown(jobs: seq<Job>, indices: map<string, nat>) {
    forall i :: 0 <= i < |jobs| ==> forall d :: d in jobs[i].dependsOn ==> d in indices
  }

  ghost function UnvisitedJobs(state: seq<Colour>): set<nat> {
    set i: nat | i < |state| && state[i] == Unvisited
  }

  /** Jobs in the order the search left them: each one after everything it waits for. */
  ghost predicate FinishOrder(jobs: seq<Job>, order: seq<nat>) {
    && (forall k :: 0 <= k < |order| ==> order[k] < |jobs|)
    && (forall k, j: nat :: 0 <= k < |order| && DependsOn(jobs, order[k], j) ==> j in order[..k])
  }

  /** What the colours mean: `path` is the chain of calls in progress, `order` what is finished. */
  ghost predicate Colouring(jobs: seq<Job>, state: seq<Colour>, path: seq<nat>, order: seq<nat>) {
    && |state| == |jobs|
    && (path == [] || IsPath(jobs, path))
    && FinishOrder(jobs, order)
    && (forall i: nat :: i < |jobs| ==> (state[i] == Visiting <==> i in path))
    && (forall i: nat :: i < |jobs| ==> (state[i] == Visited <==> i in order))
  }

  /** Meeting a job that is still in progress closes a cycle. */
  lemma BackEdgeIsCycle(jobs: seq<Job>, path: seq<nat>, index: nat)
    requires IsPath(jobs, path) && index in path
    requires DependsOn(jobs, path[|path| - 1], index)
    ensures HasCycle(jobs)
  {
    var p :| 0 <= p < |path| && path[p] == index;
    var loop := path[p..] + [index];
    forall k | 0 <= k < |loop| - 1
      ensures DependsOn(jobs, loop[k], loop[k + 1])
    {
      if k < |loop| - 2 {
        assert DependsOn(jobs, path[p + k], path[p + k + 1]);
      }
    }
    assert PathFromTo(jobs, loop, index, index);
    assert Reaches(jobs, index, index);
  }

  lemma ExtendPath(jobs: seq<Job>, path: seq<nat>, index: nat)
    requires path == [] || IsPath(jobs, path)
    requires index < |jobs|
    requires path != [] ==> DependsOn(jobs, path[|path| - 1], index)
    ensures IsPath(jobs, path + [index])
  {
    var longer := path + [index];
    forall k | 0 <= k < |longer| - 1
      ensures DependsOn(jobs, longer[k], longer[k + 1])
    {
      if k < |path| - 1 {
        assert DependsOn(jobs, path[k], path[k + 1]);
      }
    }
  }

  ghost function Members(path: seq<nat>): set<nat> {
    set i | i in path
  }

  /**
   * In an acyclic graph every non-empty set of jobs has one that waits for nothing else in the set:
   * a chain that always stays in the set would have to close.
   */
  lemma {:induction false} MinimalJob(jobs: seq<Job>, among: set<nat>, path: seq<nat>) returns (m: nat)
    requires !HasCycle(jobs)
    requires among != {} && forall i :: i in among ==> i < |jobs|
    requires path == [] || IsPath(jobs, path)
    requires forall i :: i in path ==> i in among
    ensures m in among && forall j: nat :: DependsOn(jobs, m, j) ==> j !in among
    decreases among - Members(path)
  {
    if path == [] {
      var i :| i in among;
      ExtendPath(jobs, path, i);
      assert i in among - Members(path) && i in Members([i]);
      m := MinimalJob(jobs, among, [i]);
    } else {
      var last := path[|path| - 1];
      if j: nat :| DependsOn(jobs, last, j) && j in among {
        if j in path {
          BackEdgeIsCycle(jobs, path, j);
        }
        ExtendPath(jobs, path, j);
        assert j in among - Members(path) && j in Members(path + [j]);
        m := MinimalJob(jobs, among, path + [j]);
      } else {
        m := last;
      }
    }
  }

  /** A job whose dependencies are all finished may be appended to the finish order. */
  lemma ExtendOrder(jobs: seq<Job>, order: seq<nat>, index: nat)
    requires FinishOrder(jobs, order) && index < |jobs|
    requires forall j: nat :: DependsOn(jobs, index, j) ==> j in order
    ensures FinishOrder(jobs, order + [index])
  {
    var longer := order + [index];
    forall k, j: nat | 0 <= k < |longer| && DependsOn(jobs, longer[k], j)
      ensures j in longer[..k]
    {
      if k < |order| {
        assert longer[..k] == order[..k];
      } else {
        assert longer[..k] == order;
      }
    }
  }

  ghost function FirstPosition(order: seq<nat>, i: nat): (p: nat)
    requires i in order
    ensures p < |order| && order[p] == i && forall m :: 0 <= m < p ==> order[m] != i
  {
    if order[0] == i then 0 else FirstPosition(order[1..], i) + 1
  }

  /** A finish order of every job is a topological ranking. */
  lemma OrderGivesRanking(jobs: seq<Job>, order: seq<nat>) returns (rank: seq<nat>)
    requires FinishOrder(jobs, order)
    requires forall i: nat :: i < |jobs| ==> i in order
    ensures IsRanking(jobs, rank)
  {
    rank := seq(|jobs|, (i: nat) requires i < |jobs| => FirstPosition(order, i));
    forall i: nat, j: nat | DependsOn(jobs, i, j)
      ensures rank[j] < rank[i]
    {
      var p := FirstPosition(order, i);
      assert j in order[..p];
      var q :| 0 <= q < p && order[q] == j;
    }
  }

  method Visit(jobs: seq<Job>, indices: map<string, nat>, state: array<Colour>, index: nat,
               ghost path: seq<nat>, ghost order: seq<nat>)
    returns (cyclic: bool, ghost finished: seq<nat>)
    requires Indexed(jobs, indices) && DependenciesKnown(jobs, indices)
    requires index < |jobs| && Colouring(jobs, state[..], path, order)
    requires path != [] ==> DependsOn(jobs, path[|path| - 1], index)
    modifies state
    ensures cyclic ==> HasCycle(jobs)
    ensures !cyclic ==> Colouring(jobs, state[..], path, finished)
    ensures !cyclic ==> order <= finished && index in finished
    ensures UnvisitedJobs(state[..]) <= UnvisitedJobs(old(state[..]))
    decreases UnvisitedJobs(state[..])
  {
    finished := order;
    if state[index] == Visiting {
      BackEdgeIsCycle(jobs, path, index);
      return true, finished;
    }
    if state[index] == Visited {
      return false, finished;
    }
    ghost var before := UnvisitedJobs(state[..]);
    assert index in before;
    state[index] := Visiting;
    assert index !in UnvisitedJobs(state[..]);
    assert UnvisitedJobs(state[..]) < before;
    ExtendPath(jobs, path, index);
    ghost var deeper := path + [index];
    assert Colouring(jobs, state[..], deeper, finished);
    for k := 0 to |jobs[index].dependsOn|
      invariant Colouring(jobs, state[..], deeper, finished) && order <= finished
      invariant UnvisitedJobs(state[..]) < before
      invariant forall m :: 0 <= m < k ==> indices[jobs[index].dependsOn[m]] in finished
    {
      var dependency := jobs[index].dependsOn[k];
      assert dependency in jobs[index].dependsOn;
      assert DependsOn(jobs, index, indices[dependency]);
      var found;
      found, finished := Visit(jobs, indices, state, indices[dependency], deeper, finished);
      if found {
        return true, finished;
      }
    }
    forall j: nat | DependsOn(jobs, index, j)
      ensures j in finished
    {
      var m :| 0 <= m < |jobs[index].dependsOn| && jobs[index].dependsOn[m] == jobs[j].id;
      assert indices[jobs[index].dependsOn[m]] == j;
    }
    assert index in deeper;
    assert state[index] == Visiting;
    assert state[index] != Visited;
    assert index !in finished;
    ExtendOrder(jobs, finished, index);
    assert index !in path by {
      assert old(state[..])[index] == Unvisited;
    }
    state[index] := Visited;
    finished := finished + [index];
    cyclic := false;
  }

  /** Reports exactly the cyclic graphs; an acyclic one comes with a topological ranking. */
  method HasDependencyCycle(jobs: seq<Job>, indices: map<string, nat>) returns (cyclic: bool)
    requires Indexed(jobs, indices) && DependenciesKnown(jobs, indices)
    ensures cyclic <==> HasCycle(jobs)
    ensures !cyclic <==> exists rank :: IsRanking(jobs, rank)
  {
    var state := new Colour[|jobs|](_ => Unvisited);
    ghost var order: seq<nat> := [];
    for index := 0 to |jobs|
      invariant Colouring(jobs, state[..], [], order)
      invariant forall i: nat :: i < index ==> i in order
    {
      var found;
      found, order := Visit(jobs, indices, state, index, [], order);
      if found {
        forall rank | IsRanking(jobs, rank) ensures false {
          RankingExcludesCycles(jobs, rank);
        }
        return true;
      }
    }
    ghost var rank := OrderGivesRanking(jobs, order);
    RankingExcludesCycles(jobs, rank);
    cyclic := false;
  }
}
