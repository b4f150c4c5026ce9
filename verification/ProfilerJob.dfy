/** profilerJob of internal/audit/profiler.go as it runs, with its deferred cleanup and what it reports. */
module ProfilerJob {
  import opened Wrappers
  import opened ProfilerLease

  datatype Fault =
    | PreflightFault | LeaseFault | ActivateFault | CaptureFault | CollectFault | ArtifactFault
    | RestoreFault | ReleaseFault

  /** The joined errors a job returns, and the parts of its evidence that depend on how it went. */
  datatype Report = Report(errors: seq<Fault>, infrastructureError: seq<Fault>, artifact: bool)

  /** profilerFailure: a fault is an infrastructure error unless the run was cancelled. */
  function JobFailure(r: Report, cancelled: bool, fault: Fault): Report {
    r.(errors := [fault], infrastructureError := if cancelled then r.infrastructureError else [fault])
  }

  /** profilerCleanupFailure: joined to what went wrong before, and always an infrastructure error. */
  function CleanupFailure(r: Report, fault: Fault): Report {
    r.(errors := r.errors + [fault], infrastructureError := r.errors + [fault])
  }

  predicate IsCleanup(f: Fault) {
    f == RestoreFault || f == ReleaseFault
  }

  predicate EndsInCleanup(r: Report) {
    r.errors != [] && IsCleanup(r.errors[|r.errors| - 1])
  }

  /**
   * Success carries an artifact and no infrastructure error; a cleanup fault makes everything an
   * infrastructure error; any other fault stands alone, and is one unless the run was cancelled.
   */
  predicate Consistent(r: Report, cancelled: bool) {
    if r.errors == [] then r.artifact && r.infrastructureError == []
    else if EndsInCleanup(r) then |r.errors| <= 2 && r.infrastructureError == r.errors
        && (r.artifact <==> |r.errors| == 1)
    else |r.errors| == 1 && !r.artifact && r.infrastructureError == (if cancelled then [] else r.errors)
  }

  /** The report before the deferred cleanup: an artifact, or one fault that is not the cleanup's. */
  predicate WorkReport(r: Report, cancelled: bool) {
    || (r.errors == [] && r.artifact && r.infrastructureError == [])
    || (|r.errors| == 1 && !IsCleanup(r.errors[0]) && r.errors[0] != LeaseFault && !r.artifact
        && r.infrastructureError == (if cancelled then [] else r.errors))
  }

  lemma CleanedUpIsConsistent(before: Report, after: Report, cancelled: bool)
    requires WorkReport(before, cancelled)
    requires after == before || exists f :: IsCleanup(f) && after == CleanupFailure(before, f)
    ensures Consistent(after, cancelled) && after.errors != [LeaseFault]
    ensures EndsInCleanup(after) <==> after != before
  {
    if after != before {
      var f :| IsCleanup(f) && after == CleanupFailure(before, f);
      assert after.errors[|after.errors| - 1] == f;
    }
  }

  /** The project's lease file and web-server configuration, and every profiler job of the project. */
  class Diagnostics {
    var lease: Option<LeaseFile>
    var tainted: bool
    var jobs: map<string, Job>

    function Now(): State
      reads this
    {
      State(lease, tainted, jobs)
    }

    ghost predicate Valid()
      reads this
    {
      Inv(Now())
    }

    constructor ()
      ensures Valid() && Now() == Init()
    {
      lease, tainted, jobs := None, false, map[];
    }

    /** One step of any job. */
    method Take(step: Step)
      requires Valid() && Enabled(Now(), step)
      modifies this
      ensures Valid() && Now() == Next(old(Now()), step)
    {
      ghost var before := Now();
      lease, tainted, jobs := NextLease(Now(), step), NextTaint(Now(), step), jobs[step.owner := NextJob(Now(), step)];
      StepKeepsInv(before, step);
    }

    /** Any number of steps of other jobs, in any order. */
    method Others(me: string)
      requires Valid() && me in jobs
      modifies this
      ensures Valid() && me in jobs && jobs[me] == old(jobs)[me]
    {
      var rounds: nat := *;
      while rounds > 0
        invariant Valid() && me in jobs && jobs[me] == old(jobs)[me]
      {
        var step: Step := *;
        if Enabled(Now(), step) && step.owner != me {
          Take(step);
        }
        rounds := rounds - 1;
      }
    }

    /** AcquireLease: an exclusive creation, then the write; a file that could not be finished stays. */
    method Acquire(me: string) returns (ok: bool)
      requires Valid() && me in jobs && jobs[me].Acquiring?
      modifies this
      ensures Valid() && me in jobs
      ensures if ok then jobs[me].Activating? && lease == Some(Record(me)) && !tainted
              else jobs[me].Ended? || jobs[me].Abandoned?
    {
      var created, written, closed: bool := *, *, *;
      Take(CreateLease(me, created));
      if jobs[me] != Created {
        return false;
      }
      Others(me);
      Take(WriteLease(me, written, closed));
      assert JobAgrees(Now(), me);
      ok := written && closed;
      if ok {
        Others(me);
        assert JobAgrees(Now(), me);
      }
    }

    /** ReleaseLease: read the lease back, check its owner, remove it. */
    method Release(me: string) returns (ok: bool)
      requires Valid() && me in jobs && jobs[me].Restored?
      modifies this
      ensures Valid() && me in jobs
      ensures if ok then jobs[me].Ended? && lease.None? && !tainted else jobs[me].Abandoned?
    {
      var readable, removable: bool := *, *;
      assert JobAgrees(Now(), me);
      Take(ReadLease(me, readable));
      if jobs[me] != Releasing {
        return false;
      }
      Others(me);
      assert JobAgrees(Now(), me);
      Take(RemoveLease(me, removable));
      ok := removable;
    }

    /** The deferred function: restore and, only if that worked, release. */
    method CleanUp(me: string, before: Report) returns (report: Report)
      requires Valid() && me in jobs && jobs[me].CleaningUp?
      modifies this
      ensures Valid() && me in jobs
      ensures report.artifact == before.artifact
      ensures (report == before && jobs[me].Ended? && lease.None? && !tainted)
              || (exists f :: IsCleanup(f) && report == CleanupFailure(before, f) && jobs[me].Abandoned?)
    {
      var restored: bool := *;
      Take(Restore(me, restored));
      if !restored {
        report := CleanupFailure(before, RestoreFault);
        assert IsCleanup(RestoreFault);
        return;
      }
      Others(me);
      var released := Release(me);
      if released {
        report := before;
      } else {
        report := CleanupFailure(before, ReleaseFault);
        assert IsCleanup(ReleaseFault);
      }
    }

    /** Capture, collect and write the artifact; the first fault ends the work. */
    method WorkThrough(me: string, cancelled: bool, before: Report) returns (report: Report)
      requires Valid() && me in jobs && jobs[me] == Working(0) && before.errors == []
      modifies this
      ensures Valid() && me in jobs && jobs[me].CleaningUp?
      ensures report == before.(artifact := true)
              || exists f :: f in {CaptureFault, CollectFault, ArtifactFault}
                  && report == JobFailure(before, cancelled, f)
    {
      var captured, collected, stored: bool := *, *, *;
      Take(Work(me, captured));
      if !captured {
        return JobFailure(before, cancelled, CaptureFault);
      }
      Others(me);
      Take(Work(me, collected));
      if !collected {
        return JobFailure(before, cancelled, CollectFault);
      }
      Others(me);
      Take(Work(me, stored));
      if !stored {
        return JobFailure(before, cancelled, ArtifactFault);
      }
      report := before.(artifact := true);
    }

    /** Activate and work, then clean up whatever happened. */
    method RunWithLease(me: string, cancelled: bool) returns (report: Report)
      requires Valid() && me in jobs && jobs[me].Activating?
      modifies this
      ensures Valid() && me in jobs && !Live(jobs[me])
      ensures Consistent(report, cancelled) && report.errors != [LeaseFault]
      ensures report.errors == [] ==> jobs[me].Ended? && lease.None? && !tainted
      ensures jobs[me].Abandoned? <==> EndsInCleanup(report)
      ensures jobs[me].Abandoned? ==> lease.Some?
    {
      report := Report([], [], false);
      var activated, touched: bool := *, *;
      Take(Activate(me, activated, touched));
      if activated {
        Others(me);
        report := WorkThrough(me, cancelled, report);
      } else {
        report := JobFailure(report, cancelled, ActivateFault);
      }
      Others(me);
      ghost var before := report;
      assert WorkReport(before, cancelled);
      report := CleanUp(me, report);
      CleanedUpIsConsistent(before, report, cancelled);
      assert JobAgrees(Now(), me);
    }

    /**
     * A job ends without errors only after it stored its artifact and gave the lease back over a
     * restored configuration. A cleanup fault is reported last, whatever went wrong before and even
     * after a cancellation, and leaves the lease; without one no fault leaves the lease behind except
     * one in acquiring it.
     */
    method RunJob(me: string, cancelled: bool) returns (report: Report)
      requires Valid() && me !in jobs
      modifies this
      ensures Valid() && me in jobs && !Live(jobs[me])
      ensures Consistent(report, cancelled)
      ensures report.errors == [] ==> jobs[me].Ended? && lease.None? && !tainted
      ensures EndsInCleanup(report) ==> jobs[me].Abandoned? && lease.Some?
      ensures jobs[me].Abandoned? ==> EndsInCleanup(report) || report.errors == [LeaseFault]
    {
      report := Report([], [], false);
      Take(Begin(me));
      Others(me);
      var ready: bool := *;
      Take(RunPreflight(me, ready));
      if !ready {
        return JobFailure(report, cancelled, PreflightFault);
      }
      Others(me);
      var acquired := Acquire(me);
      if !acquired {
        return JobFailure(report, cancelled, LeaseFault);
      }
      report := RunWithLease(me, cancelled);
    }
  }
}
