/** The job graph of internal/audit/scheduler.go: jobs name the jobs they wait for by ID. */
module JobGraph {

  datatype Resources = Resources(cpu: int, memoryMB: int)

  /** `hasRunner` stands for `Run != nil`; what a job computes is decided by the environment. */
  datatype Job = Job(id: string, dependsOn: seq<string>, resources: Resources, hasRunner: bool)

  /** Job i waits for job j. */
  predicate DependsOn(jobs: seq<Job>, i: nat, j: nat) {
    i < |jobs| && j < |jobs| && jobs[j].id in jobs[i].dependsOn
  }

  /** Each job on the path waits for the next one. */
  ghost predicate IsPath(jobs: seq<Job>, path: seq<nat>) {
    && |path| > 0
    && (forall k :: 0 <= k < |path| ==> path[k] < |jobs|)
    && (forall k :: 0 <= k < |path| - 1 ==> DependsOn(jobs, path[k], path[k + 1]))
  }

  ghost predicate PathFromTo(jobs: seq<Job>, path: seq<nat>, i: nat, j: nat) {
    IsPath(jobs, path) && path[0] == i && path[|path| - 1] == j
  }

  /** j is a transitive dependency of i. */
  ghost predicate Reaches(jobs: seq<Job>, i: nat, j: nat) {
    exists path :: |path| >= 2 && PathFromTo(jobs, path, i, j)
  }

  ghost predicate HasCycle(jobs: seq<Job>) {
    exists i: nat :: Reaches(jobs, i, i)
  }

  /** A topological ranking: every job ranks above the jobs it waits for. */
  ghost predicate IsRanking(jobs: seq<Job>, rank: seq<nat>) {
    |rank| == |jobs| && forall i: nat, j: nat :: DependsOn(jobs, i, j) ==> rank[j] < rank[i]
  }

  lemma {:induction false} PathsDescend(jobs: seq<Job>, rank: seq<nat>, path: seq<nat>)
    requires IsRanking(jobs, rank)
    requires IsPath(jobs, path) && |path| >= 2
    ensures rank[path[|path| - 1]] < rank[path[0]]
    decreases |path|
  {
    var rest := path[1..];
    assert DependsOn(jobs, path[0], path[1]);
    if |path| > 2 {
      forall k | 0 <= k < |rest| - 1
        ensures DependsOn(jobs, rest[k], rest[k + 1])
      {
        assert DependsOn(jobs, path[k + 1], path[k + 1 + 1]);
      }
      PathsDescend(jobs, rank, rest);
    }
  }

  lemma RankingExcludesCycles(jobs: seq<Job>, rank: seq<nat>)
    requires IsRanking(jobs, rank)
    ensures !HasCycle(jobs)
  {
    if i: nat :| Reaches(jobs, i, i) {
      var path :| |path| >= 2 && PathFromTo(jobs, path, i, i);
      PathsDescend(jobs, rank, path);
    }
  }

  lemma ReachesByStep(jobs: seq<Job>, i: nat, j: nat)
    requires DependsOn(jobs, i, j)
    ensures Reaches(jobs, i, j)
  {
    assert PathFromTo(jobs, [i, j], i, j);
  }

  lemma ReachesByStepThen(jobs: seq<Job>, i: nat, j: nat, k: nat)
    requires DependsOn(jobs, i, j) && Reaches(jobs, j, k)
    ensures Reaches(jobs, i, k)
  {
    var path :| |path| >= 2 && PathFromTo(jobs, path, j, k);
    var longer := [i] + path;
    assert forall m :: 1 <= m < |longer| ==> longer[m] == path[m - 1];
    forall m | 0 <= m < |longer| - 1
      ensures DependsOn(jobs, longer[m], longer[m + 1])
    {
      if m > 0 {
        assert DependsOn(jobs, path[m - 1], path[m - 1 + 1]);
      }
    }
    assert PathFromTo(jobs, longer, i, k);
  }

  /** Unfolds a transitive dependency into its first step and the rest. */
  lemma ReachesUnfold(jobs: seq<Job>, i: nat, k: nat) returns (j: nat)
    requires Reaches(jobs, i, k)
    ensures DependsOn(jobs, i, j)
    ensures j == k || Reaches(jobs, j, k)
  {
    var path :| |path| >= 2 && PathFromTo(jobs, path, i, k);
    j := path[1];
    assert DependsOn(jobs, path[0], path[0 + 1]);
    if |path| > 2 {
      var rest := path[1..];
      forall m | 0 <= m < |rest| - 1
        ensures DependsOn(jobs, rest[m], rest[m + 1])
      {
        assert DependsOn(jobs, path[m + 1], path[m + 1 + 1]);
      }
      assert PathFromTo(jobs, rest, j, k);
    }
  }
}
