/** Run, Rerun and runInSession as they run, one after the other, in one session: internal/audit/runner.go. */
module SessionRunner {
  import opened Wrappers
  import opened Strings
  import opened RerunSettings
  import opened RerunHistory

  datatype JobStatus = Passed | Failed | Cancelled

  /** A finished job as resultStatus looks at it. */
  datatype FinishedJob = FinishedJob(status: JobStatus, lintStatus: string)

  /** cancelledLintJob. */
  ghost predicate LintWasCancelled(jobs: seq<FinishedJob>) {
    exists i :: 0 <= i < |jobs| && jobs[i].lintStatus == "cancelled"
  }

  /** resultStatus. A cancellation beats an error, and after that the first job that did not pass decides. */
  method ResultStatus(jobs: seq<FinishedJob>, runFailed: bool, contextDone: bool) returns (r: JobStatus)
    ensures r == Passed <==> !contextDone && !runFailed && forall i :: 0 <= i < |jobs| ==>
        jobs[i].status == Passed && jobs[i].lintStatus != "cancelled"
    ensures contextDone || LintWasCancelled(jobs) ==> r == Cancelled
    ensures !contextDone && !LintWasCancelled(jobs) && runFailed ==> r == Failed
    ensures !contextDone && !LintWasCancelled(jobs) && !runFailed && r != Passed ==>
              exists i :: 0 <= i < |jobs| && jobs[i].status == r && forall k :: 0 <= k < i ==> jobs[k].status == Passed
  {
    if contextDone {
      return Cancelled;
    }
    for i := 0 to |jobs|
      invariant forall k :: 0 <= k < i ==> jobs[k].lintStatus != "cancelled"
    {
      if jobs[i].lintStatus == "cancelled" {
        return Cancelled;
      }
    }
    if runFailed {
      return Failed;
    }
    for i := 0 to |jobs|
      invariant forall k :: 0 <= k < i ==> jobs[k].status == Passed
    {
      if jobs[i].status == Cancelled {
        return Cancelled;
      }
      if jobs[i].status == Failed {
        return Failed;
      }
    }
    return Passed;
  }

  /** What a job that ended leaves in its evidence. */
  method Record(r: Request, check: string) returns (job: JobRecord)
    ensures IsRecordOf(r, check, job)
  {
    job := JobRecord(check, Absent, Absent, Absent);
    var started: bool := *;
    if !started {
      return;
    }
    if check == LINT {
      job := job.(lint := Decodable(LintEvidence(r)));
    } else if check == INTEGRITY {
      var ended: bool := *;
      if ended {
        job := job.(integrity := Decodable(IntegritySettings(r.analyzers, r.stackPHPVersion, r.target)));
      }
    } else if check == PROFILER {
      job := job.(profiler := Decodable(ProfilerSettings(r.profilerURL, r.target)));
    }
  }

  /** The jobs' results, in the order of the checks; none when the jobs cannot be built or scheduled. */
  method Execute(r: Request) returns (jobs: seq<JobRecord>)
    ensures AreRecordsOf(r, jobs)
  {
    jobs := [];
    var scheduled: bool := *;
    if !scheduled {
      return;
    }
    for i := 0 to |r.checks|
      invariant |jobs| == i
      invariant forall j :: 0 <= j < i ==> IsRecordOf(r, r.checks[j], jobs[j])
    {
      var job := Record(r, r.checks[i]);
      jobs := jobs + [job];
    }
  }

  /**
   * One session on disk, and where every rerun that is being decided has got to. Every change is a step
   * of RerunHistory.
   */
  class Session {
    const first: Request
    var runs: seq<Run>
    var reruns: map<nat, RerunHistory.Rerun>

    function Now(): State
      reads this
    {
      State(runs, reruns)
    }

    ghost predicate Valid()
      reads this
    {
      Inv(first, Now()) && LintIsSettled(first) && first.project.root != ""
    }

    /** CreateSession followed by CreateRun, for a request that Run has validated. */
    constructor (ghost isURL: string -> bool, first: Request)
      requires ValidRequest(isURL, first)
      ensures Valid() && this.first == first && Now() == Init(first)
    {
      this.first := first;
      runs := [Run(first, Missing)];
      reruns := map[];
      new;
      ValidIsSettled(isURL, first);
    }

    // ---- Single steps ----

    /** What anybody's step leaves in place: runs keep their place and request, and what is written stays. */
    lemma Kept(before: State, step: Step)
      requires Inv(first, before) && LintIsSettled(first) && first.project.root != ""
      requires Enabled(first.project, before, step) && Now() == Next(first.project, before, step)
      ensures Valid() && RunsGrow(before.runs, runs)
    {
      StepKeepsInv(first, before, step);
      StepGrowsRuns(first, before, step);
    }

    method ReadManifestStep(who: nat, checks: seq<string>)
      requires Valid() && who !in reruns
      modifies this
      ensures Valid() && Now() == Next(first.project, old(Now()), ReadManifest(who, checks))
    {
      ghost var before := Now();
      reruns := reruns[who := RerunHistory.Rerun(checks, |runs|, Views([], [], [], []))];
      Kept(before, ReadManifest(who, checks));
    }

    method ReadResultStep(who: nat, search: Search) returns (result: Stored)
      requires Valid() && Enabled(first.project, Now(), ReadResult(who, search))
      modifies this
      ensures Valid() && Now() == Next(first.project, old(Now()), ReadResult(who, search))
      ensures who in reruns && reruns[who] == HavingRead(old(reruns)[who], search, result)
    {
      ghost var before := Now();
      result := runs[NextIndex(reruns[who], search)].stored;
      reruns := reruns[who := HavingRead(reruns[who], search, result)];
      Kept(before, ReadResult(who, search));
    }

    method StopStep(who: nat)
      requires Valid() && who in reruns
      modifies this
      ensures Valid() && Now() == Next(first.project, old(Now()), Stop(who))
    {
      ghost var before := Now();
      reruns := reruns - {who};
      Kept(before, Stop(who));
    }

    /** CreateRun, which appends exactly one run of its own to whatever the manifest lists by then. */
    method AllocateStep(who: nat, request: Request)
      requires Valid() && who in reruns && Decided(first.project, reruns[who]) == Success(request)
      modifies this
      ensures Valid() && Now() == Next(first.project, old(Now()), Allocate(who))
      ensures runs == old(runs) + [Run(request, Missing)]
    {
      ghost var before := Now();
      runs := runs + [Run(request, Missing)];
      reruns := reruns - {who};
      Kept(before, Allocate(who));
    }

    method WritePendingStep(run: nat)
      requires Valid() && Enabled(first.project, Now(), WritePending(run))
      modifies this
      ensures Valid() && Now() == Next(first.project, old(Now()), WritePending(run))
    {
      ghost var before := Now();
      runs := runs[run := runs[run].(stored := Written([]))];
      Kept(before, WritePending(run));
    }

    method WriteFinalStep(run: nat, jobs: seq<JobRecord>)
      requires Valid() && Enabled(first.project, Now(), WriteFinal(run, jobs))
      modifies this
      ensures Valid() && Now() == Next(first.project, old(Now()), WriteFinal(run, jobs))
    {
      ghost var before := Now();
      runs := runs[run := runs[run].(stored := Written(jobs))];
      Kept(before, WriteFinal(run, jobs));
    }

    // ---- Everybody else ----

    /** Any number of steps of other reruns and of other runs than `mine`, in any order. */
    method Others(me: nat, mine: set<nat>)
      requires Valid() && forall i :: i in mine ==> i < |runs|
      modifies this
      ensures Valid() && RunsGrow(old(runs), runs)
      ensures me in reruns <==> me in old(reruns)
      ensures me in reruns ==> reruns[me] == old(reruns)[me]
      ensures forall i :: i in mine ==> runs[i] == old(runs)[i]
    {
      var rounds: nat := *;
      while rounds > 0
        invariant Valid() && RunsGrow(old(runs), runs)
        invariant me in reruns <==> me in old(reruns)
        invariant me in reruns ==> reruns[me] == old(reruns)[me]
        invariant forall i :: i in mine ==> runs[i] == old(runs)[i]
      {
        OneOther(me, mine);
        rounds := rounds - 1;
      }
    }

    /** One step of another rerun or run, if the one that was picked can be taken. */
    method OneOther(me: nat, mine: set<nat>)
      requires Valid() && forall i :: i in mine ==> i < |runs|
      modifies this
      ensures Valid() && RunsGrow(old(runs), runs)
      ensures me in reruns <==> me in old(reruns)
      ensures me in reruns ==> reruns[me] == old(reruns)[me]
      ensures forall i :: i in mine ==> runs[i] == old(runs)[i]
    {
      var step: Step := *;
      match step {
        case ReadManifest(who, checks) =>
          if who != me && who !in reruns {
            ReadManifestStep(who, checks);
          }
        case ReadResult(who, search) =>
          if who != me && who in reruns && 0 <= NextIndex(reruns[who], search) < |runs| {
            var _ := ReadResultStep(who, search);
          }
        case Stop(who) =>
          if who != me && who in reruns {
            StopStep(who);
          }
        case Allocate(who) =>
          if who != me && who in reruns {
            var request := Decided(first.project, reruns[who]);
            if request.Success? {
              AllocateStep(who, request.value);
            }
          }
        case WritePending(run) =>
          if run !in mine && run < |runs| && runs[run].stored.Missing? {
            WritePendingStep(run);
          }
        case WriteFinal(run, _) =>
          if run !in mine && run < |runs| && runs[run].stored == Written([]) {
            var jobs := Execute(runs[run].request);
            WriteFinalStep(run, jobs);
          }
      }
    }

    // ---- The searches, one result after the other ----

    /** ReadResult, with anything before it. */
    method ReadNext(me: nat, search: Search) returns (result: Stored)
      requires Valid() && me in reruns && NextIndex(reruns[me], search) >= 0
      modifies this
      ensures Valid() && RunsGrow(old(runs), runs)
      ensures me in reruns && reruns[me] == HavingRead(old(reruns)[me], search, result)
    {
      Others(me, {});
      assert SeenAgrees(runs, reruns[me].listed, ViewOf(reruns[me].views, search));
      result := ReadResultStep(me, search);
    }

    method LatestRunChecks(me: nat) returns (r: Result<seq<string>, Refusal>)
      requires Valid() && me in reruns && reruns[me].views.checks == []
      modifies this
      ensures Valid() && RunsGrow(old(runs), runs) && me in reruns
      ensures reruns[me] == old(reruns)[me].(views := old(reruns)[me].views.(checks := reruns[me].views.checks))
      ensures r == LatestChecks(reruns[me].views.checks)
    {
      var index := reruns[me].listed - 1;
      while index >= 0
        invariant Valid() && RunsGrow(old(runs), runs) && me in reruns
        invariant reruns[me] == old(reruns)[me].(views := old(reruns)[me].views.(checks := reruns[me].views.checks))
        invariant index == NextIndex(reruns[me], ForChecks) >= -1
        invariant LatestChecks(reruns[me].views.checks) == Failure(NoRecognizedChecks)
      {
        ghost var seen := reruns[me].views.checks;
        var result := ReadNext(me, ForChecks);
        LatestChecksExtends(result, seen);
        if result.Missing? {
          return Failure(UnreadableResult);
        }
        var checks := RecognizedChecks(result.jobs);
        if |checks| > 0 {
          return Success(checks);
        }
        index := index - 1;
      }
      return Failure(NoRecognizedChecks);
    }

    method LatestLintSettings(me: nat) returns (r: Result<LintSettings, Refusal>)
      requires Valid() && me in reruns && reruns[me].views.lint == []
      modifies this
      ensures Valid() && RunsGrow(old(runs), runs) && me in reruns
      ensures reruns[me] == old(reruns)[me].(views := old(reruns)[me].views.(lint := reruns[me].views.lint))
      ensures r == LatestLint(reruns[me].views.lint)
    {
      var index := reruns[me].listed - 1;
      while index >= 0
        invariant Valid() && RunsGrow(old(runs), runs) && me in reruns
        invariant reruns[me] == old(reruns)[me].(views := old(reruns)[me].views.(lint := reruns[me].views.lint))
        invariant index == NextIndex(reruns[me], ForLint) >= -1
        invariant LatestLint(reruns[me].views.lint) == Failure(NoLintSettings)
      {
        ghost var seen := reruns[me].views.lint;
        var result := ReadNext(me, ForLint);
        LatestLintExtends(result, seen);
        if result.Missing? {
          return Failure(UnreadableResult);
        }
        r := PersistedLintSettings(result.jobs);
        if r != Failure(NoLintSettings) {
          return;
        }
        index := index - 1;
      }
      return Failure(NoLintSettings);
    }

    method LatestIntegritySettings(me: nat) returns (r: Result<IntegritySettings, Refusal>)
      requires Valid() && me in reruns && reruns[me].views.integrity == []
      modifies this
      ensures Valid() && RunsGrow(old(runs), runs) && me in reruns
      ensures reruns[me] == old(reruns)[me].(views := old(reruns)[me].views.(integrity := reruns[me].views.integrity))
      ensures r == LatestIntegrity(reruns[me].views.integrity)
    {
      var index := reruns[me].listed - 1;
      while index >= 0
        invariant Valid() && RunsGrow(old(runs), runs) && me in reruns
        invariant reruns[me]
               == old(reruns)[me].(views := old(reruns)[me].views.(integrity := reruns[me].views.integrity))
        invariant index == NextIndex(reruns[me], ForIntegrity) >= -1
        invariant LatestIntegrity(reruns[me].views.integrity) == Failure(NoIntegritySettings)
      {
        ghost var seen := reruns[me].views.integrity;
        var result := ReadNext(me, ForIntegrity);
        LatestIntegrityExtends(result, seen);
        if result.Missing? {
          return Failure(UnreadableResult);
        }
        r := PersistedIntegritySettings(result.jobs);
        if r.Success? {
          return;
        }
        index := index - 1;
      }
      return Failure(NoIntegritySettings);
    }

    method LatestProfilerSettings(me: nat) returns (r: Result<ProfilerSettings, Refusal>)
      requires Valid() && me in reruns && reruns[me].views.profiler == []
      modifies this
      ensures Valid() && RunsGrow(old(runs), runs) && me in reruns
      ensures reruns[me] == old(reruns)[me].(views := old(reruns)[me].views.(profiler := reruns[me].views.profiler))
      ensures r == LatestProfiler(reruns[me].views.profiler)
    {
      var index := reruns[me].listed - 1;
      while index >= 0
        invariant Valid() && RunsGrow(old(runs), runs) && me in reruns
        invariant reruns[me] == old(reruns)[me].(views := old(reruns)[me].views.(profiler := reruns[me].views.profiler))
        invariant index == NextIndex(reruns[me], ForProfiler) >= -1
        invariant LatestProfiler(reruns[me].views.profiler) == Failure(NoProfilerSettings)
      {
        ghost var seen := reruns[me].views.profiler;
        var result := ReadNext(me, ForProfiler);
        LatestProfilerExtends(result, seen);
        if result.Missing? {
          return Failure(UnreadableResult);
        }
        r := PersistedProfilerSettings(result.jobs);
        if r != Failure(NoProfilerSettings) {
          return;
        }
        index := index - 1;
      }
      return Failure(NoProfilerSettings);
    }

    // ---- Run and Rerun ----

    /**
     * runInSession after CreateRun: it persists a pending result, runs the jobs, and persists the final
     * one. Each write may fail, and the process may die before it.
     */
    method RunInSession(me: nat, run: nat) returns (persisted: bool)
      requires Valid() && me !in reruns && run < |runs| && runs[run].stored.Missing?
      modifies this
      ensures Valid() && me !in reruns && RunsGrow(old(runs), runs)
      ensures runs[run].request == old(runs)[run].request
      ensures persisted ==> runs[run].stored.Written?
      ensures runs[run].stored.Missing? || runs[run].stored == Written([]) || persisted
    {
      Others(me, {run});
      persisted := *;
      if !persisted {
        return;
      }
      WritePendingStep(run);
      Others(me, {run});
      var jobs := Execute(runs[run].request);
      persisted := *;
      if persisted {
        WriteFinalStep(run, jobs);
      }
    }

    /** The settings of the selected checks, in the source's order, and the target they settle on. */
    method SavedRequest(me: nat, selected: seq<string>) returns (r: Result<Request, Refusal>)
      requires Valid() && me in reruns
      requires reruns[me].views == Views(reruns[me].views.checks, [], [], [])
      requires Selection(reruns[me].views.checks, reruns[me].checks) == Success(selected)
      modifies this
      ensures Valid() && RunsGrow(old(runs), runs) && me in reruns
      ensures reruns[me].checks == old(reruns)[me].checks && reruns[me].listed == old(reruns)[me].listed
      ensures r == Decided(first.project, reruns[me])
    {
      var lint, integrity, profiler, target := NO_LINT, NO_INTEGRITY, NO_PROFILER, NO_TARGET;
      if LINT in selected {
        var saved := LatestLintSettings(me);
        if saved.Failure? {
          return Failure(saved.error);
        }
        lint, target := saved.value, SavedTarget(saved.value.target, first.project);
      }
      if INTEGRITY in selected {
        var saved := LatestIntegritySettings(me);
        if saved.Failure? {
          return Failure(saved.error);
        }
        integrity := saved.value;
        if target == NO_TARGET {
          target := SavedTarget(integrity.target, first.project);
        }
      }
      if PROFILER in selected {
        var saved := LatestProfilerSettings(me);
        if saved.Failure? {
          return Failure(saved.error);
        }
        profiler := saved.value;
        if target == NO_TARGET {
          target := profiler.target;
        }
      }
      return Success(Request(first.project, selected, target, lint.profile, lint.jobs, lint.selected,
          lint.matrixComplete,
                             integrity.analyzers, integrity.stackPHPVersion, profiler.url));
    }

    /** Rerun up to its CreateRun: read the manifest, settle the selection, search for its settings. */
    method Decide(me: nat, checks: seq<string>) returns (r: Result<Request, Refusal>)
      requires Valid() && me !in reruns
      modifies this
      ensures Valid() && RunsGrow(old(runs), runs) && me in reruns
      ensures reruns[me].checks == checks && reruns[me].listed == |old(runs)|
      ensures r == Decided(first.project, reruns[me])
    {
      ReadManifestStep(me, checks);
      var selected := checks;
      if |checks| == 0 {
        var latest := LatestRunChecks(me);
        if latest.Failure? {
          return Failure(latest.error);
        }
        selected := latest.value;
      }
      var normalized := NormalizeChecks(selected);
      if normalized.Failure? {
        return Failure(normalized.error);
      }
      r := SavedRequest(me, normalized.value);
    }

    /**
     * Rerun, with anything between any two of its operations. `read` is what it had read when it decided:
     * it is accepted iff the selection is, and each check's search came upon settings with only readable
     * results before them. An accepted one adds a run of its own, whose request repeats the first one's
     * settings; a refused one adds none.
     */
    method Rerun(me: nat, sessionID: string, projectID: string, checks: seq<string>)
      returns (r: Result<Request, Refusal>, ghost read: RerunHistory.Rerun)
      requires Valid() && me !in reruns
      modifies this
      ensures Valid() && me !in reruns && RunsGrow(old(runs), runs)
      ensures TrimSpace(sessionID) == "" || projectID != first.project.id ==> r.Failure? && Now() == old(Now())
      ensures TrimSpace(sessionID) != "" && projectID == first.project.id ==>
                && read.checks == checks && read.listed == |old(runs)| && ReadsAgree(runs, read)
                && r == Decided(first.project, read)
                && (r.Success? <==>
                      && Selection(read.views.checks, checks).Success?
                      && forall check :: check in Selection(read.views.checks, checks).value ==>
                          HasFound(read.views, check))
      ensures r.Success? ==>
                && (exists i :: |old(runs)| <= i < |runs| && runs[i].request == r.value)
                && Follows(first, r.value) && (Resolved(first.target) ==> r.value.target == first.target)
    {
      read := RerunHistory.Rerun(checks, |runs|, Views([], [], [], []));
      if TrimSpace(sessionID) == "" {
        return Failure(NoSessionID), read;
      }
      if first.project.id != projectID {
        return Failure(OtherProject), read;
      }
      r := Decide(me, checks);
      read := reruns[me];
      RerunFollows(first, runs, read);
      if r.Failure? {
        StopStep(me);
        return;
      }
      var run := Publish(me, r.value);
      var _ := RunInSession(me, run);
    }

    /** The rest of Rerun: CreateRun reads the manifest again and adds the run. */
    method Publish(me: nat, request: Request) returns (run: nat)
      requires Valid() && me in reruns && Decided(first.project, reruns[me]) == Success(request)
      modifies this
      ensures Valid() && me !in reruns && RunsGrow(old(runs), runs)
      ensures |old(runs)| <= run < |runs| && runs[run] == Run(request, Missing)
    {
      Others(me, {});
      run := |runs|;
      AllocateStep(me, request);
    }
  }
}
