/** Without cancellation the final statuses depend only on the graph and on which jobs succeed. */
module Confluence {
  import opened JobGraph
  import opened CycleDetection
  import opened JobValidation
  import opened BlockedJobs
  import opened SchedulerSteps
  import opened SchedulerRuns

  ghost predicate UpstreamSucceeds(jobs: seq<Job>, succeeds: seq<bool>, i: nat)
    requires |succeeds| == |jobs|
  {
    forall j: nat :: Reaches(jobs, i, j) && j < |jobs| ==> succeeds[j]
  }

  /** The order-free meaning of a run. */
  ghost function FinalStatus(jobs: seq<Job>, succeeds: seq<bool>, i: nat): Status
    requires |succeeds| == |jobs| && i < |jobs|
  {
    if !UpstreamSucceeds(jobs, succeeds, i) then Cancelled
    else if succeeds[i] then Passed else Failed
  }

  /** The context is never cancelled, and each job fails exactly when it is fixed to. */
  ghost predicate Undisturbed(jobs: seq<Job>, events: seq<Event>, succeeds: seq<bool>)
    requires |succeeds| == |jobs|
  {
    forall k {:trigger events[k]} :: 0 <= k < |events| ==>
      match events[k]
      case CancelContext => false
      case JobEnds(i, failed) => i < |jobs| && failed == !succeeds[i]
      case _ => true
  }

  ghost predicate CancelledForReason(jobs: seq<Job>, status: seq<Status>, i: nat)
    requires |status| == |jobs|
  {
    exists j: nat :: DependsOn(jobs, i, j) && Blocking(status[j])
  }

  /** What an undisturbed run keeps, beside the scheduler's own invariant. */
  ghost predicate Faithful(jobs: seq<Job>, succeeds: seq<bool>, s: State)
    requires |succeeds| == |jobs|
  {
    && |s.status| == |jobs|
    && !s.contextDone && !s.contextCancelled
    && (forall k :: 0 <= k < |s.completed| ==>
          s.completed[k].index < |jobs| && !s.completed[k].cancelled
          && s.completed[k].failed == !succeeds[s.completed[k].index])
    && (forall i :: i in s.ended ==>
          i < |jobs| && s.ended[i].index == i && !s.ended[i].cancelled && s.ended[i].failed == !succeeds[i])
    && (forall i: nat :: i < |jobs| && s.status[i] == Passed ==> succeeds[i])
    && (forall i: nat :: i < |jobs| && s.status[i] == Failed ==> !succeeds[i])
    && (forall i: nat :: i < |jobs| && s.status[i] == Cancelled ==> CancelledForReason(jobs, s.status, i))
  }

  /** Blocking statuses are final, so a reason to be cancelled stays one. */
  lemma ReasonStays(jobs: seq<Job>, s: State, t: State)
    requires |s.status| == |jobs| && Monotone(s, t)
    ensures forall i: nat :: CancelledForReason(jobs, s.status, i) ==> CancelledForReason(jobs, t.status, i)
  {
    forall i: nat | CancelledForReason(jobs, s.status, i)
      ensures CancelledForReason(jobs, t.status, i)
    {
      var j: nat :| DependsOn(jobs, i, j) && Blocking(s.status[j]);
      assert Blocking(t.status[j]);
    }
  }

  lemma MarkedForReason(jobs: seq<Job>, status: seq<Status>, i: nat)
    requires |status| == |jobs| && i < |jobs| && Blocked(jobs, status, i)
    ensures CancelledForReason(jobs, MarkBlocked(jobs, status), i)
  {
    var path :| BlockedVia(jobs, status, path) && path[0] == i;
    var next := path[1];
    assert DependsOn(jobs, path[0], path[0 + 1]);
    if |path| == 2 {
      BlockedIsPending(jobs, status, next);
    } else {
      var rest := path[1..];
      forall k | 0 <= k < |rest| - 1
        ensures DependsOn(jobs, rest[k], rest[k + 1])
      {
        assert DependsOn(jobs, path[k + 1], path[k + 1 + 1]);
      }
      assert BlockedVia(jobs, status, rest);
    }
    assert Blocking(MarkBlocked(jobs, status)[next]);
  }

  lemma HeadKeepsFaithful(jobs: seq<Job>, budget: Resources, succeeds: seq<bool>, s: State)
    requires |succeeds| == |jobs| && Faithful(jobs, succeeds, s) && s.phase == LoopHead
    ensures Faithful(jobs, succeeds, LoopNext(jobs, budget, s))
  {
    var t := LoopNext(jobs, budget, s);
    LoopHeadIsMonotone(jobs, budget, s);
    ReasonStays(jobs, s, t);
    forall i: nat | i < |jobs| && t.status[i] == Cancelled
      ensures CancelledForReason(jobs, t.status, i)
    {
      if Blocked(jobs, s.status, i) {
        MarkedForReason(jobs, s.status, i);
      }
    }
  }

  lemma ScanKeepsFaithful(jobs: seq<Job>, budget: Resources, succeeds: seq<bool>, s: State)
    requires |succeeds| == |jobs| && Faithful(jobs, succeeds, s) && s.phase.Scan?
    ensures Faithful(jobs, succeeds, LoopNext(jobs, budget, s))
  {
    ReasonStays(jobs, s, LoopNext(jobs, budget, s));
  }

  lemma ReceiveKeepsFaithful(jobs: seq<Job>, succeeds: seq<bool>, s: State)
    requires |succeeds| == |jobs| && Faithful(jobs, succeeds, s) && ChannelAgrees(s) && s.completed != []
    ensures Faithful(jobs, succeeds, Receive(jobs, s))
  {
    var t := Receive(jobs, s);
    assert Monotone(s, t);
    ReasonStays(jobs, s, t);
    assert forall k :: 0 <= k < |t.completed| ==> t.completed[k] == s.completed[k + 1];
  }

  lemma StepKeepsFaithful(jobs: seq<Job>, budget: Resources, succeeds: seq<bool>, s: State, e: Event)
    requires |succeeds| == |jobs| && Faithful(jobs, succeeds, s) && ChannelAgrees(s)
    requires Enabled(jobs, s, e) && e != CancelContext
    requires e.JobEnds? ==> e.index < |jobs| && e.failed == !succeeds[e.index]
    ensures Faithful(jobs, succeeds, Next(jobs, budget, s, e))
  {
    if e == LoopStep {
      match s.phase {
        case LoopHead => HeadKeepsFaithful(jobs, budget, succeeds, s);
        case Scan(_) => ScanKeepsFaithful(jobs, budget, succeeds, s);
        case AwaitCompletion => ReceiveKeepsFaithful(jobs, succeeds, s);
        case _ =>
      }
    }
  }

  lemma ChannelAlwaysAgrees(jobs: seq<Job>, budget: Resources, states: seq<State>, events: seq<Event>, k: nat)
    requires Acceptable(budget, jobs) && IsRun(jobs, budget, states, events) && k < |states|
    ensures ChannelAgrees(states[k])
  {
    ReachableInv(jobs, budget, states, events, k);
  }

  lemma {:induction false} UndisturbedIsFaithful(jobs: seq<Job>, budget: Resources, succeeds: seq<bool>,
                                                states: seq<State>, events: seq<Event>, k: nat)
    requires Acceptable(budget, jobs) && IsRun(jobs, budget, states, events)
    requires |succeeds| == |jobs| && Undisturbed(jobs, events, succeeds)
    requires k < |states|
    ensures Faithful(jobs, succeeds, states[k])
  {
    if k > 0 {
      UndisturbedIsFaithful(jobs, budget, succeeds, states, events, k - 1);
      var s, e := states[k - 1], events[k - 1];
      assert states[k] == Next(jobs, budget, s, e);
      ChannelAlwaysAgrees(jobs, budget, states, events, k - 1);
      StepKeepsFaithful(jobs, budget, succeeds, s, e);
    }
  }

  ghost predicate Unexplained(jobs: seq<Job>, succeeds: seq<bool>, status: seq<Status>, i: nat)
    requires |succeeds| == |status| == |jobs|
  {
    i < |jobs| && status[i] == Cancelled && UpstreamSucceeds(jobs, succeeds, i)
  }

  /** A cancelled job has a failing job somewhere upstream: the blame cannot go round in circles. */
  lemma CancelledHasFailureUpstream(jobs: seq<Job>, succeeds: seq<bool>, s: State)
    requires !HasCycle(jobs) && |succeeds| == |jobs| && Faithful(jobs, succeeds, s)
    ensures forall i: nat :: !Unexplained(jobs, succeeds, s.status, i)
  {
    var odd := set i: nat | i < |jobs| && Unexplained(jobs, succeeds, s.status, i);
    if i: nat :| Unexplained(jobs, succeeds, s.status, i) {
      assert i in odd;
      var m := MinimalJob(jobs, odd, []);
      assert CancelledForReason(jobs, s.status, m);
      var j: nat :| DependsOn(jobs, m, j) && Blocking(s.status[j]);
      ReachesByStep(jobs, m, j);
      if s.status[j] == Cancelled {
        assert j !in odd;
        var k: nat :| Reaches(jobs, j, k) && k < |jobs| && !succeeds[k];
        ReachesByStepThen(jobs, m, j, k);
      }
    }
  }

  /**
   * A finished undisturbed run ends as the graph and the fixed outcomes say: a job is Passed iff it
   * and everything upstream succeed, Failed iff only it fails, Cancelled otherwise.
   */
  lemma FinishedAsFixed(jobs: seq<Job>, budget: Resources, succeeds: seq<bool>,
                        states: seq<State>, events: seq<Event>)
    requires Acceptable(budget, jobs) && IsRun(jobs, budget, states, events)
    requires |succeeds| == |jobs| && Undisturbed(jobs, events, succeeds)
    requires states[|events|].phase == Returned
    ensures |states[|events|].status| == |jobs|
    ensures forall i: nat :: i < |jobs| ==> states[|events|].status[i] == FinalStatus(jobs, succeeds, i)
  {
    var s := states[|events|];
    ReachableInv(jobs, budget, states, events, |events|);
    UndisturbedIsFaithful(jobs, budget, succeeds, states, events, |events|);
    CancelledHasFailureUpstream(jobs, succeeds, s);
    forall i: nat | i < |jobs|
      ensures s.status[i] == FinalStatus(jobs, succeeds, i)
    {
      assert Terminal(s.status[i]);
      if s.status[i] == Cancelled {
        assert !Unexplained(jobs, succeeds, s.status, i);
      } else {
        StartedUpstreamSucceeds(jobs, succeeds, s, i);
      }
    }
  }

  lemma StartedUpstreamSucceeds(jobs: seq<Job>, succeeds: seq<bool>, s: State, i: nat)
    requires |succeeds| == |jobs| && Faithful(jobs, succeeds, s) && StartsAgree(jobs, s)
    requires i < |jobs| && s.status[i] in {Passed, Failed}
    ensures UpstreamSucceeds(jobs, succeeds, i)
  {
    UpstreamHasPassed(jobs, s);
    assert i in s.starts;
  }

  /** Confluence: any two finished runs agree, whatever the order of job ends and the budgets. */
  lemma RunsAgree(jobs: seq<Job>, succeeds: seq<bool>,
                  budget1: Resources, states1: seq<State>, events1: seq<Event>,
                  budget2: Resources, states2: seq<State>, events2: seq<Event>)
    requires |succeeds| == |jobs|
    requires Acceptable(budget1, jobs) && IsRun(jobs, budget1, states1, events1)
    requires Acceptable(budget2, jobs) && IsRun(jobs, budget2, states2, events2)
    requires Undisturbed(jobs, events1, succeeds) && Undisturbed(jobs, events2, succeeds)
    requires states1[|events1|].phase == Returned && states2[|events2|].phase == Returned
    ensures states1[|events1|].status == states2[|events2|].status
  {
    FinishedAsFixed(jobs, budget1, succeeds, states1, events1);
    FinishedAsFixed(jobs, budget2, succeeds, states2, events2);
  }
}
