/** Scheduler.Run of internal/audit/scheduler.go, with goroutines and the context as interference. */
module SchedulerRun {
  import opened Wrappers
  import opened JobGraph
  import opened JobValidation
  import opened BlockedJobs
  import opened SchedulerSteps
  import opened SchedulerRuns
  import opened Confluence

  /** The variables of one call of Run, the context, the goroutines and the channel it shares with them. */
  class Execution {
    const jobs: seq<Job>
    const budget: Resources
    var status: array<Status>
    var allocation: Resources
    var running: int
    var contextCancelled: bool
    var contextDone: bool
    var executing: set<nat>
    var ended: map<nat, Completion>
    var completed: seq<Completion>
    ghost var starts: seq<nat>
    ghost var received: nat
    ghost var states: seq<State>
    ghost var events: seq<Event>

    ghost function Now(phase: Phase): State
      reads this, status
    {
      State(status[..], allocation, running, contextCancelled, phase,
            contextDone, executing, ended, completed, starts, received)
    }

    /** The history so far is a run of the transition system and has led to the present variables. */
    ghost predicate At(phase: Phase)
      reads this, status
    {
      && Acceptable(budget, jobs) && status.Length == |jobs|
      && IsRun(jobs, budget, states, events)
      && states[|events|] == Now(phase)
    }

    constructor (jobs: seq<Job>, budget: Resources)
      requires Acceptable(budget, jobs)
      ensures this.jobs == jobs && this.budget == budget
      ensures fresh(status) && At(Init(jobs).phase)
    {
      this.jobs, this.budget := jobs, budget;
      status := new Status[|jobs|](_ => Pending);
      allocation, running, contextCancelled := Resources(0, 0), 0, false;
      contextDone, executing, ended, completed := false, {}, map[], [];
      starts, received := [], 0;
      states, events := [Init(jobs)], [];
      new;
      assert status[..] == Init(jobs).status;
    }

    ghost method Record(before: Phase, e: Event, after: Phase)
      requires Acceptable(budget, jobs) && status.Length == |jobs| && IsRun(jobs, budget, states, events)
      requires states[|events|].phase == before && Enabled(jobs, states[|events|], e)
      requires Next(jobs, budget, states[|events|], e) == Now(after)
      modifies this`states, this`events
      ensures At(after)
      ensures events == old(events) + [e]
      ensures states == old(states) + [Now(after)]
    {
      ExtendRun(jobs, budget, states, events, e);
      states, events := states + [Now(after)], events + [e];
    }

    /** Between two statements any jobs may end or send, in any order, and the context may be cancelled. */
    method Interfere(ghost phase: Phase)
      requires At(phase)
      modifies this`contextDone, this`executing, this`ended, this`completed, this`states, this`events
      ensures At(phase) && old(|events|) <= |events|
    {
      var rounds: nat := *;
      while rounds > 0
        invariant At(phase) && old(|events|) <= |events|
      {
        if * {
          if !contextDone {
            contextDone := true;
            Record(phase, CancelContext, phase);
          }
        } else if executing != {} {
          var i :| i in executing;
          if i in ended {
            SendOne(phase, i);
          } else {
            EndOne(phase, i);
          }
        }
        rounds := rounds - 1;
      }
    }

    /** A job ends: its goroutine looks at the context and has its completion ready. */
    method EndOne(ghost phase: Phase, i: nat)
      requires At(phase) && i in executing && i !in ended
      modifies this`ended, this`states, this`events
      ensures At(phase) && |events| == old(|events|) + 1 && i in ended
    {
      var failed: bool := *;
      ended := ended[i := Completion(i, failed, contextDone)];
      Record(phase, JobEnds(i, failed), phase);
    }

    /** A goroutine sends its completion, which is the last thing it does. */
    method SendOne(ghost phase: Phase, i: nat)
      requires At(phase) && i in executing && i in ended
      modifies this`executing, this`ended, this`completed, this`states, this`events
      ensures At(phase) && |events| == old(|events|) + 1
      ensures completed != []
    {
      completed := completed + [ended[i]];
      executing, ended := executing - {i}, ended - {i};
      Record(phase, JobSends(i), phase);
    }

    /** The loop head: notice a cancelled context, or cancel what is blocked and start what fits. */
    method Dispatch()
      requires At(LoopHead)
      modifies this, status
      ensures At(CheckRunning) && status == old(status) && received == old(received)
    {
      Interfere(LoopHead);
      if !contextCancelled && contextDone {
        contextCancelled := true;
        MarkPendingCancelled(status);
        Record(LoopHead, LoopStep, CheckRunning);
      } else if !contextCancelled {
        MarkBlockedJobsCancelled(status, jobs);
        Record(LoopHead, LoopStep, Scan(0));
        ScanJobs();
      } else {
        Record(LoopHead, LoopStep, CheckRunning);
      }
      Interfere(CheckRunning);
    }

    /** Considers every job in turn. */
    method ScanJobs()
      requires At(Scan(0))
      modifies this, status
      ensures At(CheckRunning) && status == old(status) && received == old(received)
    {
      for index := 0 to |jobs|
        invariant At(Scan(index)) && status == old(status) && received == old(received)
      {
        Interfere(Scan(index));
        ConsiderJob(index);
      }
      Record(Scan(|jobs|), LoopStep, CheckRunning);
    }

    /** One round of the scan: start the job unless it is not pending, not ready, or does not fit. */
    method ConsiderJob(index: nat)
      requires At(Scan(index)) && index < |jobs|
      modifies this, status
      ensures At(Scan(index + 1)) && status == old(status) && received == old(received)
    {
      if status[index] != Pending || !DependenciesPassed(jobs, status[..], index) {
        Record(Scan(index), LoopStep, Scan(index + 1));
        return;
      }
      var resources := Need(jobs, index);
      if !CanAllocate(Normalized(budget), allocation, resources) {
        Record(Scan(index), LoopStep, Scan(index + 1));
        return;
      }
      StartJob(index, resources);
      Record(Scan(index), LoopStep, Scan(index + 1));
    }

    /** The closure `start`: the status, the allocation, the count, and a goroutine that runs the job. */
    method StartJob(index: nat, resources: Resources)
      requires status.Length == |jobs| && index < |jobs| && resources == Need(jobs, index)
      modifies status, this`allocation, this`running, this`executing, this`starts
      ensures forall phase :: Now(phase) == Start(jobs, old(Now(phase)), index)
    {
      status[index] := Running;
      allocation := Resources(allocation.cpu + resources.cpu, allocation.memoryMB + resources.memoryMB);
      running := running + 1;
      executing := executing + {index};
      starts := starts + [index];
      assert status[..] == old(status[..])[index := Running];
    }

    /** Blocks until a completion arrives, then releases the job's resources and records its outcome. */
    method Await()
      requires At(AwaitCompletion)
      modifies this, status
      ensures At(LoopHead) && status == old(status) && received == old(received) + 1
    {
      Interfere(AwaitCompletion);
      AwaitedJobExists(jobs, budget, states, events, |events|);
      if completed == [] {
        var i :| i in executing;
        if i !in ended {
          EndOne(AwaitCompletion, i);
        }
        SendOne(AwaitCompletion, i);
      }
      AwaitedJobExists(jobs, budget, states, events, |events|);
      TakeCompletion();
    }

    method TakeCompletion()
      requires At(AwaitCompletion) && completed != [] && completed[0].index < |jobs|
      modifies this, status
      ensures At(LoopHead) && status == old(status) && received == old(received) + 1
    {
      ApplyCompletion();
      Record(AwaitCompletion, LoopStep, LoopHead);
    }

    /** Releases the job's resources and records its outcome. */
    method ApplyCompletion()
      requires status.Length == |jobs| && completed != [] && completed[0].index < |jobs|
      modifies status, this`allocation, this`running, this`completed, this`received
      ensures Now(LoopHead) == Receive(jobs, old(Now(AwaitCompletion)))
      ensures received == old(received) + 1
    {
      var completion := completed[0];
      completed := completed[1..];
      var resources := Need(jobs, completion.index);
      allocation := Resources(allocation.cpu - resources.cpu, allocation.memoryMB - resources.memoryMB);
      running := running - 1;
      if completion.cancelled {
        status[completion.index] := Cancelled;
      } else if completion.failed {
        status[completion.index] := Failed;
      } else {
        status[completion.index] := Passed;
      }
      received := received + 1;
      assert status[..] == old(status[..])[completion.index := StatusOf(completion)];
    }

    /** The loop. Each round that does not return receives one completion. */
    method Loop() returns (r: Result<seq<Status>, ScheduleError>)
      requires At(LoopHead)
      modifies this, status
      ensures At(if r.Success? then Returned else Stuck) && received <= |jobs|
      ensures r.Success? ==> r.value == status[..]
    {
      ChannelNeverFull(jobs, budget, states, events, |events|);
      while true
        invariant At(LoopHead) && status == old(status) && received <= |jobs|
        decreases |jobs| - received
      {
        ghost var receivedBefore := received;
        Dispatch();
        if running == 0 {
          if AllTerminal(status[..]) {
            Record(CheckRunning, LoopStep, Returned);
            return Success(status[..]);
          }
          Record(CheckRunning, LoopStep, Stuck);
          return Failure(CouldNotRunRemaining);
        }
        Record(CheckRunning, LoopStep, AwaitCompletion);
        Await();
        ChannelNeverFull(jobs, budget, states, events, |events|);
      }
    }
  }

  /**
   * Run fails only for a reason `validate` gives, never because jobs are left over. Otherwise every
   * status is terminal and, unless the context was cancelled, is the one the graph and the jobs' own
   * outcomes fix.
   */
  method Run(contextGiven: bool, scheduler: Option<Resources>, jobs: seq<Job>)
    returns (r: Result<seq<Status>, ScheduleError>, ghost states: seq<State>, ghost events: seq<Event>)
    ensures r.Success? <==> contextGiven && scheduler.Some? && Acceptable(scheduler.value, jobs)
    ensures r.Failure? ==> r.error == NilContext || Explains(r.error, scheduler, jobs)
    ensures r.Success? ==> |r.value| == |jobs| && AllTerminal(r.value)
    ensures r.Success? ==> IsRun(jobs, scheduler.value, states, events) && states[|events|].status == r.value
    ensures r.Success? ==> forall succeeds: seq<bool>, i: nat ::
              |succeeds| == |jobs| && Undisturbed(jobs, events, succeeds) && i < |jobs|
              ==> r.value[i] == FinalStatus(jobs, succeeds, i)
  {
    states, events := [Init(jobs)], [];
    if !contextGiven {
      return Failure(NilContext), states, events;
    }
    var validated := Validate(scheduler, jobs);
    if validated.Failure? {
      return Failure(validated.error), states, events;
    }
    if |jobs| == 0 {
      return Success([]), states, events;
    }
    var execution := new Execution(jobs, scheduler.value);
    r := execution.Loop();
    states, events := execution.states, execution.events;
    NeverStuck(jobs, scheduler.value, states, events, |events|);
    forall succeeds: seq<bool> | |succeeds| == |jobs| && Undisturbed(jobs, events, succeeds)
      ensures forall i: nat :: i < |jobs| ==> r.value[i] == FinalStatus(jobs, succeeds, i)
    {
      FinishedAsFixed(jobs, scheduler.value, succeeds, states, events);
    }
  }
}
