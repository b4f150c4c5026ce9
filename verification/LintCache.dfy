/** The analyzer cache of internal/audit/lint_govard.go: its input marker and the pruning of generations. */
module LintCache {
  import opened Recency

  // ---- Pruning generations ----

  const GENERATIONS_KEPT: nat := 2
  /** govardLintCacheGenerationGrace in seconds. */
  const GRACE: int := 3600

  /** A name in the namespace directory; `used` is when it was last used, 0 where that is unknown. */
  datatype Generation = Generation(name: string, isDir: bool, used: int)

  /** Neither the current generation, nor one used within the grace hour, nor a file. */
  predicate Candidate(g: Generation, current: string, now: int) {
    g.isDir && g.name != current && (g.used == 0 || now - g.used >= GRACE)
  }

  function Candidates(entries: seq<Generation>, current: string, now: int): seq<Used> {
    if entries == [] then []
    else
      var last := entries[|entries| - 1];
      Candidates(entries[..|entries| - 1], current, now)
      + (if Candidate(last, current, now) then [Used(last.name, last.used)] else [])
  }

  predicate IsCandidateAt(entries: seq<Generation>, current: string, now: int, x: Used, i: nat) {
    i < |entries| && Candidate(entries[i], current, now) && x == Used(entries[i].name, entries[i].used)
  }

  lemma {:induction false} CandidateIs(entries: seq<Generation>, current: string, now: int, x: Used)
    ensures x in Candidates(entries, current, now) <==> exists i: nat :: IsCandidateAt(entries, current, now, x, i)
  {
    if entries != [] {
      var n := |entries| - 1;
      CandidateIs(entries[..n], current, now, x);
      if i: nat :| IsCandidateAt(entries[..n], current, now, x, i) {
        assert IsCandidateAt(entries, current, now, x, i);
      }
      if i: nat :| IsCandidateAt(entries, current, now, x, i) {
        assert i < n ==> IsCandidateAt(entries[..n], current, now, x, i);
      }
      assert Candidate(entries[n], current, now) ==>
          IsCandidateAt(entries, current, now, Used(entries[n].name, entries[n].used), n);
    }
  }

  ghost predicate NamesDiffer(entries: seq<Generation>) {
    forall i, j :: 0 <= i < j < |entries| ==> entries[i].name != entries[j].name
  }

  lemma {:induction false} CandidatesDiffer(entries: seq<Generation>, current: string, now: int)
    requires NamesDiffer(entries)
    ensures DistinctNames(Candidates(entries, current, now))
  {
    if entries != [] {
      var n := |entries| - 1;
      var front := Candidates(entries[..n], current, now);
      CandidatesDiffer(entries[..n], current, now);
      forall k | 0 <= k < |front|
        ensures front[k].name != entries[n].name
      {
        assert front[k] in front;
        CandidateIs(entries[..n], current, now, front[k]);
        var i: nat :| IsCandidateAt(entries[..n], current, now, front[k], i);
        assert entries[i].name != entries[n].name;
      }
    }
  }

  /**
   * Pruning spares the current generation and every one used within the grace hour, keeps two of the
   * others, and removes only generations no more recently used than every one it keeps of them.
   */
  method PruneGenerations(entries: seq<Generation>, current: string, now: int) returns (removed: seq<string>)
    requires NamesDiffer(entries)
    ensures forall i :: 0 <= i < |entries| && entries[i].name in removed ==> Candidate(entries[i], current, now)
    ensures current !in removed
    ensures RemovesOldest(Candidates(entries, current, now), GENERATIONS_KEPT, removed)
  {
    var candidates: seq<Used> := [];
    for k := 0 to |entries|
      invariant candidates == Candidates(entries[..k], current, now)
    {
      assert entries[..k + 1][..k] == entries[..k];
      if !entries[k].isDir || entries[k].name == current {
        continue;
      }
      if entries[k].used != 0 && now - entries[k].used < GRACE {
        continue;
      }
      candidates := candidates + [Used(entries[k].name, entries[k].used)];
    }
    assert entries[..|entries|] == entries;
    CandidatesDiffer(entries, current, now);
    if |candidates| <= GENERATIONS_KEPT {
      removed := [];
    } else {
      removed := Stale(candidates, GENERATIONS_KEPT);
    }
    forall name | name in removed
      ensures exists i :: 0 <= i < |entries| && entries[i].name == name && Candidate(entries[i], current, now)
    {
      var x :| x in candidates && x.name == name;
      CandidateIs(entries, current, now, x);
      var i: nat :| IsCandidateAt(entries, current, now, x, i);
    }
  }
}
