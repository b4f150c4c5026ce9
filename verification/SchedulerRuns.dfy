/** What holds over every run of the scheduler: every order of job ends, every cancellation point. */
module SchedulerRuns {
  import opened JobGraph
  import opened CycleDetection
  import opened JobValidation
  import opened BlockedJobs
  import opened SchedulerSteps

  /** With nothing running and nothing left to start, an acyclic graph has no pending job. */
  lemma NothingRunningMeansDone(jobs: seq<Job>, s: State)
    requires !HasCycle(jobs)
    requires |s.status| == |jobs| && forall i :: 0 <= i < |jobs| ==> s.status[i] != Running
    requires PhaseAgrees(jobs, s) && s.phase == CheckRunning && s.running == 0
    ensures AllTerminal(s.status)
  {
    var pending := PendingJobs(s.status);
    assert forall i :: 0 <= i < |jobs| && s.status[i] == Pending ==> i in pending;
    if pending != {} {
      var m := SomePendingIsFree(jobs, s.status);
      assert false;
    }
  }

  /** Some pending job of an acyclic graph waits for no pending one. */
  lemma SomePendingIsFree(jobs: seq<Job>, status: seq<Status>) returns (m: nat)
    requires !HasCycle(jobs) && |status| == |jobs| && PendingJobs(status) != {}
    ensures m < |jobs| && status[m] == Pending
    ensures forall j: nat :: DependsOn(jobs, m, j) ==> status[j] != Pending
  {
    m := MinimalJob(jobs, PendingJobs(status), []);
    assert forall i :: 0 <= i < |jobs| && status[i] == Pending ==> i in PendingJobs(status);
  }

  lemma JobEndsKeepsInv(jobs: seq<Job>, budget: Resources, s: State, i: nat, failed: bool)
    requires Inv(jobs, budget, s) && i in s.executing && i !in s.ended
    ensures Inv(jobs, budget, Next(jobs, budget, s, JobEnds(i, failed)))
  {
  }

  lemma JobSendsKeepsInv(jobs: seq<Job>, budget: Resources, s: State, i: nat)
    requires Inv(jobs, budget, s) && i in s.executing && i in s.ended
    ensures Inv(jobs, budget, Next(jobs, budget, s, JobSends(i)))
  {
    SendKeepsChannel(jobs, budget, s, i);
  }

  lemma SendKeepsChannel(jobs: seq<Job>, budget: Resources, s: State, i: nat)
    requires |s.status| == |jobs| && ChannelAgrees(s) && i in s.executing && i in s.ended
    ensures ChannelAgrees(Next(jobs, budget, s, JobSends(i)))
  {
    var t := Next(jobs, budget, s, JobSends(i));
    assert |t.executing| == |s.executing| - 1;
  }

  lemma CheckKeepsInv(jobs: seq<Job>, budget: Resources, s: State)
    requires Acceptable(budget, jobs)
    requires Inv(jobs, budget, s) && s.phase == CheckRunning
    ensures Inv(jobs, budget, LoopNext(jobs, budget, s))
  {
    if s.running == 0 {
      NoLoadNoneRunning(jobs, s.status);
      NothingRunningMeansDone(jobs, s);
      KeepsAllButPhase(jobs, budget, s, Returned);
    } else {
      KeepsAllButPhase(jobs, budget, s, AwaitCompletion);
    }
  }

  lemma StepKeepsInv(jobs: seq<Job>, budget: Resources, s: State, e: Event)
    requires Acceptable(budget, jobs)
    requires Inv(jobs, budget, s) && Enabled(jobs, s, e)
    ensures Inv(jobs, budget, Next(jobs, budget, s, e))
  {
    match e
    case CancelContext =>
    case JobEnds(i, failed) => JobEndsKeepsInv(jobs, budget, s, i, failed);
    case JobSends(i) => JobSendsKeepsInv(jobs, budget, s, i);
    case LoopStep =>
      match s.phase
      case LoopHead => LoopHeadKeepsInv(jobs, budget, s);
      case Scan(_) => ScanKeepsInv(jobs, budget, s);
      case CheckRunning => CheckKeepsInv(jobs, budget, s);
      case AwaitCompletion => ReceiveKeepsInv(jobs, budget, s);
      case _ =>
  }

  lemma {:induction false} ReachableInv(jobs: seq<Job>, budget: Resources, states: seq<State>, events: seq<Event>,
      k: nat)
    requires Acceptable(budget, jobs) && IsRun(jobs, budget, states, events)
    requires k < |states|
    ensures Inv(jobs, budget, states[k])
  {
    if k == 0 {
      InitInv(jobs, budget);
    } else {
      ReachableInv(jobs, budget, states, events, k - 1);
      assert states[k - 1 + 1] == Next(jobs, budget, states[k - 1], events[k - 1]);
      StepKeepsInv(jobs, budget, states[k - 1], events[k - 1]);
    }
  }

  /** No stuck run: "could not run remaining jobs within resource budget" is unreachable. */
  lemma NeverStuck(jobs: seq<Job>, budget: Resources, states: seq<State>, events: seq<Event>, k: nat)
    requires Acceptable(budget, jobs) && IsRun(jobs, budget, states, events)
    requires k < |states|
    ensures states[k].phase != Stuck && |states[k].status| == |jobs|
    ensures states[k].phase == Returned ==> AllTerminal(states[k].status)
  {
    ReachableInv(jobs, budget, states, events, k);
  }

  /**
   * Budget safety. `maxInt` bounds the machine's int: every sum and difference the loop forms
   * when it admits or releases a job stays within it.
   */
  lemma BudgetSafety(jobs: seq<Job>, budget: Resources, states: seq<State>, events: seq<Event>, k: nat, maxInt: int)
    requires Acceptable(budget, jobs) && IsRun(jobs, budget, states, events)
    requires k < |states|
    requires Fits(Normalized(budget), Resources(maxInt, maxInt))
    ensures var s, capacity := states[k], Normalized(budget);
            && |s.status| == |jobs|
            && s.running == LoadOf(jobs, s.status).count
            && s.allocation == Resources(LoadOf(jobs, s.status).cpu, LoadOf(jobs, s.status).memoryMB)
            && 0 <= s.allocation.cpu <= capacity.cpu && 0 <= s.allocation.memoryMB <= capacity.memoryMB
            && 0 <= capacity.cpu - s.allocation.cpu <= maxInt
            && 0 <= capacity.memoryMB - s.allocation.memoryMB <= maxInt
    ensures k + 1 < |states| ==>
              0 <= states[k + 1].allocation.cpu <= maxInt && 0 <= states[k + 1].allocation.memoryMB <= maxInt
  {
    ReachableInv(jobs, budget, states, events, k);
    SoundJobsAreNonNegative(jobs, budget);
    LoadNonNegative(jobs, states[k].status);
    if k + 1 < |states| {
      ReachableInv(jobs, budget, states, events, k + 1);
      LoadNonNegative(jobs, states[k + 1].status);
    }
  }

  lemma SoundJobsAreNonNegative(jobs: seq<Job>, budget: Resources)
    requires Acceptable(budget, jobs)
    ensures forall i :: 0 <= i < |jobs| ==> NonNegative(jobs[i].resources)
  {
    forall i | 0 <= i < |jobs| ensures NonNegative(jobs[i].resources) {
      assert SoundJob(budget, jobs[i]);
    }
  }

  /** Everything a started job waits for, however far away, was started and has passed. */
  lemma {:induction false} UpstreamOfStarted(jobs: seq<Job>, s: State, path: seq<nat>)
    requires |s.status| == |jobs| && StartsAgree(jobs, s)
    requires IsPath(jobs, path) && |path| >= 2
    requires path[0] in s.starts
    ensures path[|path| - 1] in s.starts && s.status[path[|path| - 1]] == Passed
    decreases |path|
  {
    assert DependsOn(jobs, path[0], path[0 + 1]);
    if |path| > 2 {
      var rest := path[1..];
      forall k | 0 <= k < |rest| - 1
        ensures DependsOn(jobs, rest[k], rest[k + 1])
      {
        assert DependsOn(jobs, path[k + 1], path[k + 1 + 1]);
      }
      UpstreamOfStarted(jobs, s, rest);
    }
  }

  lemma UpstreamHasPassed(jobs: seq<Job>, s: State)
    requires |s.status| == |jobs| && StartsAgree(jobs, s)
    ensures forall i, j: nat :: i in s.starts && Reaches(jobs, i, j) ==> j in s.starts && s.status[j] == Passed
  {
    forall i, j: nat | i in s.starts && Reaches(jobs, i, j)
      ensures j in s.starts && s.status[j] == Passed
    {
      var path :| |path| >= 2 && PathFromTo(jobs, path, i, j);
      UpstreamOfStarted(jobs, s, path);
    }
  }

  lemma StartableUpstreamHasPassed(jobs: seq<Job>, budget: Resources, s: State, i: nat, j: nat)
    requires |s.status| == |jobs| && StartsAgree(jobs, s) && i < |jobs|
    requires Startable(jobs, budget, s, i) && Reaches(jobs, i, j)
    ensures j in s.starts && s.status[j] == Passed
  {
    var d := ReachesUnfold(jobs, i, j);
    assert s.status[d] == Passed && d in s.starts;
    if d != j {
      UpstreamHasPassed(jobs, s);
    }
  }

  /** The only step that starts a job starts one that was startable. */
  lemma OnlyScanStarts(jobs: seq<Job>, budget: Resources, s: State, e: Event)
    requires Enabled(jobs, s, e)
    ensures var t := Next(jobs, budget, s, e);
            t.starts == s.starts ||
            exists i: nat :: i < |jobs| && Startable(jobs, budget, s, i) && t.starts == s.starts + [i]
  {
  }

  /** Jobs start at most once, and only after all their transitive dependencies finished Passed. */
  lemma StartsAreSafe(jobs: seq<Job>, budget: Resources, states: seq<State>, events: seq<Event>, k: nat)
    requires Acceptable(budget, jobs) && IsRun(jobs, budget, states, events)
    requires k < |events|
    ensures |states[k].status| == |jobs|
    ensures forall a, b :: 0 <= a < b < |states[k].starts| ==> states[k].starts[a] != states[k].starts[b]
    ensures forall i, j: nat :: i in states[k + 1].starts && i !in states[k].starts && Reaches(jobs, i, j)
              ==> j < |jobs| && states[k].status[j] == Passed
  {
    var s, t := states[k], states[k + 1];
    ReachableInv(jobs, budget, states, events, k);
    assert t == Next(jobs, budget, s, events[k]);
    OnlyScanStarts(jobs, budget, s, events[k]);
    forall i, j: nat | i in t.starts && i !in s.starts && Reaches(jobs, i, j)
      ensures j < |jobs| && s.status[j] == Passed
    {
      StartableUpstreamHasPassed(jobs, budget, s, i, j);
    }
  }

  /** From s to t no terminal status changed, no start was forgotten, and a cancelled loop started nothing. */
  ghost predicate Monotone(s: State, t: State) {
    && |t.status| == |s.status|
    && (forall i :: 0 <= i < |s.status| && Terminal(s.status[i]) ==> t.status[i] == s.status[i])
    && s.starts <= t.starts
    && (s.contextCancelled ==> t.contextCancelled && t.starts == s.starts)
  }

  lemma LoopHeadIsMonotone(jobs: seq<Job>, budget: Resources, s: State)
    requires |s.status| == |jobs| && s.phase == LoopHead
    ensures Monotone(s, LoopNext(jobs, budget, s))
  {
    forall i: nat | i < |jobs| && Terminal(s.status[i])
      ensures LoopNext(jobs, budget, s).status[i] == s.status[i]
    {
      BlockedIsPending(jobs, s.status, i);
    }
  }

  lemma StepIsMonotone(jobs: seq<Job>, budget: Resources, s: State, e: Event)
    requires Enabled(jobs, s, e)
    requires ChannelAgrees(s) && (s.contextCancelled ==> !s.phase.Scan?)
    ensures Monotone(s, Next(jobs, budget, s, e))
  {
    if e == LoopStep {
      match s.phase {
        case LoopHead => LoopHeadIsMonotone(jobs, budget, s);
        case Scan(_) => ScanIsMonotone(jobs, budget, s);
        case AwaitCompletion => ReceiveIsMonotone(jobs, s);
        case _ =>
      }
    }
  }

  lemma ScanIsMonotone(jobs: seq<Job>, budget: Resources, s: State)
    requires Enabled(jobs, s, LoopStep) && s.phase.Scan? && !s.contextCancelled
    ensures Monotone(s, LoopNext(jobs, budget, s))
  {
  }

  lemma ReceiveIsMonotone(jobs: seq<Job>, s: State)
    requires Enabled(jobs, s, LoopStep) && s.phase == AwaitCompletion && ChannelAgrees(s)
    ensures Monotone(s, Receive(jobs, s))
  {
    assert s.status[s.completed[0].index] == Running;
  }

  /** A terminal status never changes, and no job starts after the loop has seen the cancellation. */
  lemma {:induction false} RunIsMonotone(jobs: seq<Job>, budget: Resources, states: seq<State>, events: seq<Event>,
      a: nat, b: nat)
    requires Acceptable(budget, jobs) && IsRun(jobs, budget, states, events)
    requires a <= b < |states|
    ensures Monotone(states[a], states[b])
    decreases b
  {
    if a < b {
      RunIsMonotone(jobs, budget, states, events, a, b - 1);
      EachStepIsMonotone(jobs, budget, states, events, b - 1);
      MonotoneChains(states[a], states[b - 1], states[b]);
    }
  }

  lemma MonotoneChains(r: State, s: State, t: State)
    requires Monotone(r, s) && Monotone(s, t)
    ensures Monotone(r, t)
  {
  }

  lemma EachStepIsMonotone(jobs: seq<Job>, budget: Resources, states: seq<State>, events: seq<Event>, k: nat)
    requires Acceptable(budget, jobs) && IsRun(jobs, budget, states, events) && k < |events|
    ensures Monotone(states[k], states[k + 1])
  {
    ReachableInv(jobs, budget, states, events, k);
    assert states[k + 1] == Next(jobs, budget, states[k], events[k]);
    StepIsMonotone(jobs, budget, states[k], events[k]);
  }

  /** The channel has room for every goroutine that has not sent, and each start is received at most once. */
  lemma ChannelNeverFull(jobs: seq<Job>, budget: Resources, states: seq<State>, events: seq<Event>, k: nat)
    requires Acceptable(budget, jobs) && IsRun(jobs, budget, states, events)
    requires k < |states|
    ensures |states[k].completed| + |states[k].executing| <= |jobs|
    ensures states[k].received <= states[k].received + states[k].running == |states[k].starts| <= |jobs|
    ensures states[k].executing != {} ==> |states[k].completed| < |jobs|
  {
    ReachableInv(jobs, budget, states, events, k);
    DistinctIsBounded(states[k].starts, |jobs|);
    if states[k].executing != {} {
      assert |states[k].executing| > 0;
    }
  }

  /** The loop only waits while a started job has not sent its completion or one has arrived. */
  lemma AwaitedJobExists(jobs: seq<Job>, budget: Resources, states: seq<State>, events: seq<Event>, k: nat)
    requires Acceptable(budget, jobs) && IsRun(jobs, budget, states, events)
    requires k < |states| && states[k].phase == AwaitCompletion
    ensures states[k].completed == [] ==> states[k].executing != {}
    ensures states[k].completed != [] ==> states[k].completed[0].index < |jobs|
  {
    ReachableInv(jobs, budget, states, events, k);
  }

  // ---- Termination ----

  function PhaseLeft(n: nat, p: Phase): int {
    match p
    case LoopHead => n + 3
    case Scan(k) => n + 2 - k
    case CheckRunning => 1
    case _ => 0
  }

  /** Bounds how many steps are left; every step lowers it. */
  function StepsLeft(jobs: seq<Job>, s: State): int {
    (|jobs| - s.received) * (|jobs| + 4) + PhaseLeft(|jobs|, s.phase)
    + (|jobs| - s.received - |s.completed|) + (|jobs| - s.received - |s.completed| - |s.ended|)
    + (if s.contextDone then 0 else 1)
  }

  /** Completions received or waiting belong to different jobs. */
  lemma CompletionsAreBounded(jobs: seq<Job>, s: State)
    requires |s.status| == |jobs| && ChannelAgrees(s) && StartsAgree(jobs, s)
    ensures s.received + |s.completed| + |s.executing| <= |jobs|
    ensures |s.ended| <= |s.executing|
  {
    DistinctIsBounded(s.starts, |jobs|);
    SubsetSize(s.ended.Keys, s.executing);
  }

  lemma StepLowersStepsLeft(jobs: seq<Job>, budget: Resources, s: State, e: Event)
    requires Enabled(jobs, s, e) && (s.phase.Scan? ==> s.phase.next <= |jobs|)
    requires s.received + |s.completed| + |s.executing| <= |jobs|
    ensures StepsLeft(jobs, Next(jobs, budget, s, e)) < StepsLeft(jobs, s)
  {
    if e != LoopStep {
      JobStepLowersStepsLeft(jobs, budget, s, e);
    } else if s.phase == AwaitCompletion {
      ReceiveLowersStepsLeft(jobs, s);
    } else {
      PhaseStepLowersStepsLeft(jobs, budget, s);
    }
  }

  lemma JobStepLowersStepsLeft(jobs: seq<Job>, budget: Resources, s: State, e: Event)
    requires Enabled(jobs, s, e) && e != LoopStep
    ensures StepsLeft(jobs, Next(jobs, budget, s, e)) < StepsLeft(jobs, s)
  {
    var t := Next(jobs, budget, s, e);
    assert t.received == s.received && t.phase == s.phase;
    if e.JobSends? {
      assert |t.ended| == |s.ended| - 1 by {
        assert t.ended.Keys == s.ended.Keys - {e.index};
      }
    }
  }

  lemma PhaseStepLowersStepsLeft(jobs: seq<Job>, budget: Resources, s: State)
    requires Enabled(jobs, s, LoopStep) && s.phase != AwaitCompletion && (s.phase.Scan? ==> s.phase.next <= |jobs|)
    ensures StepsLeft(jobs, LoopNext(jobs, budget, s)) < StepsLeft(jobs, s)
  {
    var t := LoopNext(jobs, budget, s);
    assert t.received == s.received && t.completed == s.completed;
    assert t.ended == s.ended && t.contextDone == s.contextDone;
    assert PhaseLeft(|jobs|, t.phase) < PhaseLeft(|jobs|, s.phase);
  }

  lemma ReceiveLowersStepsLeft(jobs: seq<Job>, s: State)
    requires |s.status| == |jobs| && s.phase == AwaitCompletion && s.completed != [] && s.completed[0].index < |jobs|
    ensures StepsLeft(jobs, Receive(jobs, s)) < StepsLeft(jobs, s)
  {
    OneFactorLess(|jobs| - s.received, |jobs| + 4);
  }

  lemma OneFactorLess(a: int, b: int)
    ensures a * b == (a - 1) * b + b
  {
  }

  /** As long as Run has not returned, some step is possible: the loop's, or one of a job it waits for. */
  lemma AlwaysAStep(jobs: seq<Job>, budget: Resources, s: State)
    requires Inv(jobs, budget, s) && s.phase != Returned
    ensures Enabled(jobs, s, LoopStep) || exists i: nat ::
              Enabled(jobs, s, JobSends(i))
                  || (Enabled(jobs, s, JobEnds(i, false)) && Enabled(jobs, s, JobEnds(i, true)))
  {
    if !Enabled(jobs, s, LoopStep) {
      assert s.phase == AwaitCompletion && s.completed == [];
      assert |s.executing| > 0;
      var i :| i in s.executing;
      if i in s.ended {
        assert Enabled(jobs, s, JobSends(i));
      } else {
        assert Enabled(jobs, s, JobEnds(i, false)) && Enabled(jobs, s, JobEnds(i, true));
      }
    }
  }

  lemma StoppedHasReturned(jobs: seq<Job>, budget: Resources, s: State)
    requires Inv(jobs, budget, s) && forall e :: !Enabled(jobs, s, e)
    ensures s.phase == Returned && AllTerminal(s.status)
  {
    if s.phase != Returned {
      AlwaysAStep(jobs, budget, s);
    }
  }

  /** No run is longer than (n + 3)(n + 4) steps, and one that cannot be extended has returned. */
  lemma {:induction false} RunsEnd(jobs: seq<Job>, budget: Resources, states: seq<State>, events: seq<Event>)
    requires Acceptable(budget, jobs) && IsRun(jobs, budget, states, events)
    ensures |events| <= (|jobs| + 3) * (|jobs| + 4)
    ensures (forall e :: !Enabled(jobs, states[|events|], e)) ==>
              states[|events|].phase == Returned && AllTerminal(states[|events|].status)
  {
    StepsAreCounted(jobs, budget, states, events, |events|);
    assert (|jobs| + 3) * (|jobs| + 4) == |jobs| * (|jobs| + 4) + 3 * |jobs| + 12;
    ReachableInv(jobs, budget, states, events, |events|);
    if forall e :: !Enabled(jobs, states[|events|], e) {
      StoppedHasReturned(jobs, budget, states[|events|]);
    }
  }

  lemma StepsLeftIsNatural(jobs: seq<Job>, budget: Resources, states: seq<State>, events: seq<Event>, k: nat)
    requires Acceptable(budget, jobs) && IsRun(jobs, budget, states, events) && k <= |events|
    ensures 0 <= StepsLeft(jobs, states[k])
  {
    ReachableInv(jobs, budget, states, events, k);
    BoundIsNatural(jobs, states[k]);
  }

  lemma BoundIsNatural(jobs: seq<Job>, s: State)
    requires |s.status| == |jobs| && ChannelAgrees(s) && StartsAgree(jobs, s)
    requires s.phase.Scan? ==> s.phase.next <= |jobs|
    ensures 0 <= StepsLeft(jobs, s)
  {
    CompletionsAreBounded(jobs, s);
    ProductIsNatural(|jobs| - s.received, |jobs| + 4);
  }

  lemma ProductIsNatural(a: nat, b: nat)
    ensures a * b >= 0
  {
  }

  lemma {:induction false} StepsAreCounted(jobs: seq<Job>, budget: Resources, states: seq<State>, events: seq<Event>,
      k: nat)
    requires Acceptable(budget, jobs) && IsRun(jobs, budget, states, events)
    requires k <= |events|
    ensures 0 <= StepsLeft(jobs, states[k]) <= StepsLeft(jobs, Init(jobs)) - k
  {
    StepsLeftIsNatural(jobs, budget, states, events, k);
    if k > 0 {
      StepsAreCounted(jobs, budget, states, events, k - 1);
      EachStepCounts(jobs, budget, states, events, k - 1);
    }
  }

  lemma EachStepCounts(jobs: seq<Job>, budget: Resources, states: seq<State>, events: seq<Event>, k: nat)
    requires Acceptable(budget, jobs) && IsRun(jobs, budget, states, events) && k < |events|
    ensures StepsLeft(jobs, states[k + 1]) < StepsLeft(jobs, states[k])
  {
    ReachableInv(jobs, budget, states, events, k);
    assert states[k + 1] == Next(jobs, budget, states[k], events[k]);
    CompletionsAreBounded(jobs, states[k]);
    StepLowersStepsLeft(jobs, budget, states[k], events[k]);
  }
}
