/** Statuses of a run, and markBlockedJobsCancelled of internal/audit/scheduler.go. */
module BlockedJobs {
  import opened JobGraph

  datatype Status = Pending | Running | Passed | Failed | Cancelled

  predicate Terminal(s: Status) {
    s != Pending && s != Running
  }

  predicate Blocking(s: Status) {
    s == Failed || s == Cancelled
  }

  /** A dependency path from i through pending jobs to a job that failed or was cancelled. */
  ghost predicate BlockedVia(jobs: seq<Job>, status: seq<Status>, path: seq<nat>)
    requires |status| == |jobs|
  {
    && |path| >= 2 && IsPath(jobs, path)
    && (forall k :: 0 <= k < |path| - 1 ==> status[path[k]] == Pending)
    && Blocking(status[path[|path| - 1]])
  }

  ghost predicate Blocked(jobs: seq<Job>, status: seq<Status>, i: nat)
    requires |status| == |jobs|
  {
    exists path :: BlockedVia(jobs, status, path) && path[0] == i
  }

  ghost function MarkBlocked(jobs: seq<Job>, status: seq<Status>): (marked: seq<Status>)
    requires |status| == |jobs|
    ensures |marked| == |status|
  {
    seq(|status|, (i: nat) requires i < |status| => if Blocked(jobs, status, i) then Cancelled else status[i])
  }

  /** No pending job waits for a job that failed or was cancelled. */
  ghost predicate Closed(jobs: seq<Job>, status: seq<Status>)
    requires |status| == |jobs|
  {
    forall i: nat, j: nat :: DependsOn(jobs, i, j) && status[i] == Pending ==> !Blocking(status[j])
  }

  lemma BlockedStep(jobs: seq<Job>, status: seq<Status>, i: nat, j: nat)
    requires |status| == |jobs| && DependsOn(jobs, i, j) && status[i] == Pending
    requires Blocking(status[j]) || Blocked(jobs, status, j)
    ensures Blocked(jobs, status, i)
  {
    if Blocking(status[j]) {
      assert BlockedVia(jobs, status, [i, j]);
    } else {
      var path :| BlockedVia(jobs, status, path) && path[0] == j;
      var longer := [i] + path;
      forall k | 0 <= k < |longer| - 1
        ensures DependsOn(jobs, longer[k], longer[k + 1]) && status[longer[k]] == Pending
      {
        if k > 0 {
          assert DependsOn(jobs, path[k - 1], path[k - 1 + 1]);
        }
      }
      assert BlockedVia(jobs, status, longer);
    }
  }

  /** The loop has only cancelled blocked jobs so far. */
  ghost predicate Between(jobs: seq<Job>, before: seq<Status>, now: seq<Status>)
    requires |before| == |jobs|
  {
    && |now| == |jobs|
    && forall i: nat :: i < |jobs| ==>
         now[i] == before[i] || (now[i] == Cancelled && Blocked(jobs, before, i))
  }

  lemma {:induction false} PathIsCancelled(jobs: seq<Job>, before: seq<Status>, now: seq<Status>, path: seq<nat>)
    requires |before| == |jobs| && Between(jobs, before, now) && Closed(jobs, now)
    requires BlockedVia(jobs, before, path)
    ensures now[path[0]] == Cancelled
    decreases |path|
  {
    assert DependsOn(jobs, path[0], path[0 + 1]);
    if |path| > 2 {
      var rest := path[1..];
      forall k | 0 <= k < |rest| - 1
        ensures DependsOn(jobs, rest[k], rest[k + 1])
      {
        assert DependsOn(jobs, path[k + 1], path[k + 1 + 1]);
      }
      PathIsCancelled(jobs, before, now, rest);
    } else {
      BlockedIsPending(jobs, before, path[1]);
    }
  }

  lemma BlockedIsPending(jobs: seq<Job>, status: seq<Status>, i: nat)
    requires |status| == |jobs| && i < |jobs|
    ensures Blocked(jobs, status, i) ==> status[i] == Pending
  {
    if Blocked(jobs, status, i) {
      var path :| BlockedVia(jobs, status, path) && path[0] == i;
      assert status[path[0]] == Pending;
    }
  }

  /** A fixpoint reached by cancelling only blocked jobs has cancelled all of them. */
  lemma FixpointIsMarkBlocked(jobs: seq<Job>, before: seq<Status>, now: seq<Status>)
    requires |before| == |jobs| && Between(jobs, before, now) && Closed(jobs, now)
    ensures now == MarkBlocked(jobs, before)
  {
    forall i: nat | i < |jobs|
      ensures now[i] == MarkBlocked(jobs, before)[i]
    {
      if Blocked(jobs, before, i) {
        var path :| BlockedVia(jobs, before, path) && path[0] == i;
        PathIsCancelled(jobs, before, now, path);
      }
    }
  }

  /** After marking, no pending job waits for a blocking one, and marking again changes nothing. */
  lemma MarkBlockedCloses(jobs: seq<Job>, status: seq<Status>)
    requires |status| == |jobs|
    ensures Closed(jobs, MarkBlocked(jobs, status))
    ensures MarkBlocked(jobs, MarkBlocked(jobs, status)) == MarkBlocked(jobs, status)
  {
    var marked := MarkBlocked(jobs, status);
    forall i: nat, j: nat | DependsOn(jobs, i, j) && marked[i] == Pending
      ensures !Blocking(marked[j])
    {
      if Blocking(marked[j]) {
        BlockedStep(jobs, status, i, j);
      }
    }
    FixpointIsMarkBlocked(jobs, marked, marked);
  }

  ghost function PendingJobs(status: seq<Status>): set<nat> {
    set i: nat | i < |status| && status[i] == Pending
  }

  ghost predicate HasBlockingDependency(jobs: seq<Job>, status: seq<Status>, i: nat)
    requires |status| == |jobs|
  {
    exists j: nat :: DependsOn(jobs, i, j) && Blocking(status[j])
  }

  /** The two inner loops: look up every dependency of one pending job by ID. */
  method CancelIfBlocked(status: array<Status>, jobs: seq<Job>, index: nat) returns (changed: bool)
    requires status.Length == |jobs| && index < |jobs| && status[index] == Pending
    modifies status
    ensures changed <==> HasBlockingDependency(jobs, old(status[..]), index)
    ensures status[..] == if changed then old(status[..])[index := Cancelled] else old(status[..])
  {
    ghost var before := status[..];
    changed := false;
    for d := 0 to |jobs[index].dependsOn|
      invariant changed ==> HasBlockingDependency(jobs, before, index)
      invariant status[..] == if changed then before[index := Cancelled] else before
      invariant !changed ==> forall e, j: nat ::
          0 <= e < d && j < |jobs| && jobs[j].id == jobs[index].dependsOn[e] ==> !Blocking(before[j])
    {
      for other := 0 to |jobs|
        invariant changed ==> HasBlockingDependency(jobs, before, index)
        invariant status[..] == if changed then before[index := Cancelled] else before
        invariant !changed ==> forall e, j: nat ::
            0 <= e < d && j < |jobs| && jobs[j].id == jobs[index].dependsOn[e] ==> !Blocking(before[j])
        invariant !changed ==> forall j: nat ::
            j < other && jobs[j].id == jobs[index].dependsOn[d] ==> !Blocking(before[j])
      {
        if jobs[other].id != jobs[index].dependsOn[d] {
          continue;
        }
        if status[other] == Failed || status[other] == Cancelled {
          if !changed {
            assert DependsOn(jobs, index, other);
          }
          status[index] := Cancelled;
          changed := true;
        }
      }
    }
  }

  /** One pass of the outer loop cannot leave a blocked job behind without reporting a change. */
  method MarkBlockedPass(status: array<Status>, jobs: seq<Job>, ghost before: seq<Status>) returns (changed: bool)
    requires status.Length == |jobs| == |before| && Between(jobs, before, status[..])
    modifies status
    ensures Between(jobs, before, status[..])
    ensures changed ==> PendingJobs(status[..]) < PendingJobs(old(status[..]))
    ensures !changed ==> Closed(jobs, status[..]) && status[..] == old(status[..])
  {
    changed := false;
    for index := 0 to |jobs|
      invariant Between(jobs, before, status[..])
      invariant changed ==> PendingJobs(status[..]) < PendingJobs(old(status[..]))
      invariant !changed ==> status[..] == old(status[..])
      invariant !changed ==> forall i: nat :: i < index && status[i] == Pending ==>
          !HasBlockingDependency(jobs, status[..], i)
    {
      if status[index] != Pending {
        continue;
      }
      ghost var atJob := status[..];
      var cancelled := CancelIfBlocked(status, jobs, index);
      if cancelled {
        ghost var other: nat :| DependsOn(jobs, index, other) && Blocking(atJob[other]);
        BlockedStep(jobs, before, index, other);
        assert PendingJobs(status[..]) == PendingJobs(atJob) - {index};
        assert index in PendingJobs(atJob);
        changed := true;
      }
    }
    if !changed {
      forall i: nat, j: nat | DependsOn(jobs, i, j) && status[i] == Pending
        ensures !Blocking(status[j])
      {
        assert !HasBlockingDependency(jobs, status[..], i);
      }
    }
  }

  /** Repeats passes until one changes nothing; cancels exactly the blocked jobs. */
  method MarkBlockedJobsCancelled(status: array<Status>, jobs: seq<Job>)
    requires status.Length == |jobs|
    modifies status
    ensures status[..] == MarkBlocked(jobs, old(status[..]))
  {
    ghost var before := status[..];
    var changed := true;
    while changed
      invariant Between(jobs, before, status[..])
      invariant !changed ==> Closed(jobs, status[..])
      decreases PendingJobs(status[..]), changed
    {
      changed := MarkBlockedPass(status, jobs, before);
    }
    FixpointIsMarkBlocked(jobs, before, status[..]);
  }

  /** markPendingCancelled. */
  function CancelPending(status: seq<Status>): (r: seq<Status>)
    ensures |r| == |status|
    ensures forall i :: 0 <= i < |r| ==> r[i] == (if status[i] == Pending then Cancelled else status[i])
  {
    seq(|status|, (i: nat) requires i < |status| => if status[i] == Pending then Cancelled else status[i])
  }

  method MarkPendingCancelled(status: array<Status>)
    modifies status
    ensures status[..] == CancelPending(old(status[..]))
  {
    for index := 0 to status.Length
      invariant forall i :: 0 <= i < index ==>
          status[i] == (if old(status[i]) == Pending then Cancelled else old(status[i]))
      invariant forall i :: index <= i < status.Length ==> status[i] == old(status[i])
    {
      if status[index] == Pending {
        status[index] := Cancelled;
      }
    }
  }
}
