/**
 * Runs and reruns of one session, with crashes at any point: Run, Rerun and runInSession of
 * internal/audit/runner.go.
 */
module RerunHistory {
  import opened Wrappers
  import opened Strings
  import LintReport
  import opened RerunSettings

  // ---- What Run demands and what a run leaves behind ----

  /** The request as validateLintMatrix sees it; validateRequest fills in no more. */
  function MatrixRequest(r: Request): LintReport.Request {
    LintReport.Request(
      LintReport.Identity("", "", "", "", "", r.target.mode, r.target.targetPath),
      r.lintProfile.projectVersions, r.lintProfile.standaloneVersions, r.selected, r.matrixComplete, false, "")
  }

  predicate IsSelection(checks: seq<string>) {
    checks != [] && forall i :: 0 <= i < |checks| ==> Recognized(checks[i])
  }

  /** validateRequest, with its backends configured. Whether a URL is acceptable is up to `isURL`. */
  ghost predicate ValidRequest(isURL: string -> bool, r: Request) {
    && IsSelection(r.checks) && Distinct(r.checks)
    && (PROFILER in r.checks ==> isURL(r.profilerURL) && r.target.mode != LintReport.STANDALONE)
    && TrimSpace(r.project.root) != "" && TrimSpace(r.project.id) != ""
    && (r.project.scope == "project" || (r.project.scope == "diff" && TrimSpace(r.project.baseRef) != ""))
    && (LINT in r.checks ==> r.lintJobs >= 1 && LintReport.MatrixIsSound(MatrixRequest(r)))
  }

  function LintEvidence(r: Request): LintRecord {
    LintRecord(LintSettings(r.lintProfile, r.lintJobs, r.target, r.selected, r.matrixComplete), [])
  }

  /** A started job leaves its settings, except an integrity job that ends early; one that never started leaves none. */
  predicate IsRecordOf(r: Request, check: string, job: JobRecord) {
    && job.id == check
    && (job.lint == Absent || (check == LINT && job.lint == Decodable(LintEvidence(r))))
    && (job.integrity == Absent
        || (check == INTEGRITY && job.integrity
        == Decodable(IntegritySettings(r.analyzers, r.stackPHPVersion, r.target))))
    && (job.profiler == Absent
        || (check == PROFILER && job.profiler == Decodable(ProfilerSettings(r.profilerURL, r.target))))
  }

  /** The scheduler reports one result per check, or none when the jobs cannot be built or scheduled. */
  ghost predicate AreRecordsOf(r: Request, jobs: seq<JobRecord>) {
    jobs == [] || (|jobs| == |r.checks| && forall j :: 0 <= j < |jobs| ==> IsRecordOf(r, r.checks[j], jobs[j]))
  }

  // ---- Sessions step by step ----

  datatype Run = Run(request: Request, stored: Stored)

  /** A rerun between reading the manifest, which then listed so many runs, and its CreateRun. */
  datatype Rerun = Rerun(checks: seq<string>, listed: nat, views: Views)

  /** The runs of the session in the manifest's order, and the reruns that are being decided. */
  datatype State = State(runs: seq<Run>, reruns: map<nat, Rerun>)

  datatype Search = ForChecks | ForLint | ForIntegrity | ForProfiler

  /**
   * A rerun reads the manifest, reads results one at a time, and then either stops (it refuses, fails or
   * is killed) or allocates its run; the run writes a pending and then a final result. Steps of any
   * number of reruns and runs interleave, and a run that crashed is one that takes no further step.
   */
  datatype Step =
    | ReadManifest(who: nat, checks: seq<string>)
    | ReadResult(who: nat, search: Search)
    | Stop(who: nat)
    | Allocate(who: nat)
    | WritePending(run: nat)
    | WriteFinal(run: nat, jobs: seq<JobRecord>)

  function ViewOf(views: Views, search: Search): seq<Stored> {
    match search
    case ForChecks => views.checks
    case ForLint => views.lint
    case ForIntegrity => views.integrity
    case ForProfiler => views.profiler
  }

  function Seeing(views: Views, search: Search, seen: seq<Stored>): (r: Views)
    ensures forall other :: ViewOf(r, other) == if other == search then seen else ViewOf(views, other)
  {
    match search
    case ForChecks => views.(checks := seen)
    case ForLint => views.(lint := seen)
    case ForIntegrity => views.(integrity := seen)
    case ForProfiler => views.(profiler := seen)
  }

  /** What the rerun would do with what it has read so far; a search that has not read enough finds nothing. */
  function Decided(project: Project, r: Rerun): Result<Request, Refusal> {
    RerunRequest(project, r.views, r.checks)
  }

  /** The result that a search reads next. */
  function NextIndex(r: Rerun, search: Search): int {
    r.listed - |ViewOf(r.views, search)| - 1
  }

  function Results(runs: seq<Run>): (results: seq<Stored>)
    ensures |results| == |runs| && forall i :: 0 <= i < |runs| ==> results[i] == runs[i].stored
  {
    seq(|runs|, i requires 0 <= i < |runs| => runs[i].stored)
  }

  ghost predicate Enabled(project: Project, s: State, step: Step) {
    match step
    case ReadManifest(who, _) => who !in s.reruns && s.runs != []
    case ReadResult(who, search) => who in s.reruns && 0 <= NextIndex(s.reruns[who], search) < |s.runs|
    case Stop(who) => who in s.reruns
    case Allocate(who) => who in s.reruns && Decided(project, s.reruns[who]).Success?
    case WritePending(run) => run < |s.runs| && s.runs[run].stored.Missing?
    case WriteFinal(run, jobs) =>
      run < |s.runs| && s.runs[run].stored == Written([]) && AreRecordsOf(s.runs[run].request, jobs)
  }

  /** The rerun after one more result of a search. */
  function HavingRead(r: Rerun, search: Search, result: Stored): Rerun {
    r.(views := Seeing(r.views, search, [result] + ViewOf(r.views, search)))
  }

  ghost function Next(project: Project, s: State, step: Step): State
    requires Enabled(project, s, step)
  {
    match step
    case ReadManifest(who, checks) =>
      s.(reruns := s.reruns[who := Rerun(checks, |s.runs|, Views([], [], [], []))])
    case ReadResult(who, search) =>
      var r := s.reruns[who];
      s.(reruns := s.reruns[who := HavingRead(r, search, s.runs[NextIndex(r, search)].stored)])
    case Stop(who) => s.(reruns := s.reruns - {who})
    case Allocate(who) =>
      State(s.runs + [Run(Decided(project, s.reruns[who]).value, Missing)], s.reruns - {who})
    case WritePending(run) => s.(runs := s.runs[run := s.runs[run].(stored := Written([]))])
    case WriteFinal(run, jobs) => s.(runs := s.runs[run := s.runs[run].(stored := Written(jobs))])
  }

  /** The session that Run created for its first request, whose run has just been allocated. */
  function Init(first: Request): State {
    State([Run(first, Missing)], map[])
  }

  ghost predicate IsHistory(first: Request, states: seq<State>, steps: seq<Step>) {
    && |states| == |steps| + 1
    && states[0] == Init(first)
    && forall k {:trigger steps[k]} :: 0 <= k < |steps| ==>
         Enabled(first.project, states[k], steps[k]) && states[k + 1] == Next(first.project, states[k], steps[k])
  }

  // ---- The invariant ----

  predicate SameLint(a: Request, b: Request) {
    a.lintProfile == b.lintProfile && a.lintJobs == b.lintJobs && a.selected == b.selected
        && a.matrixComplete == b.matrixComplete
  }

  /** The request audits what the first one audited, as far as it goes. */
  ghost predicate Follows(first: Request, r: Request) {
    && r.project == first.project
    && IsSelection(r.checks) && Distinct(r.checks)
    && (forall check :: check in r.checks ==> check in first.checks)
    && (LINT in r.checks ==> SameLint(r, first))
    && (INTEGRITY in r.checks ==> r.analyzers == first.analyzers && r.stackPHPVersion == first.stackPHPVersion)
    && (PROFILER in r.checks ==> r.profilerURL == first.profilerURL)
    && (r.target == first.target || r.target == SavedTarget(first.target, first.project))
  }

  ghost predicate Sound(first: Request, runs: seq<Run>) {
    forall i :: 0 <= i < |runs| ==>
      && Follows(first, runs[i].request)
      && (runs[i].stored.Written? ==> AreRecordsOf(runs[i].request, runs[i].stored.jobs))
  }

  /** What a search has read was written by the runs it belongs to, and what was written stays written. */
  ghost predicate SeenAgrees(runs: seq<Run>, listed: nat, seen: seq<Stored>) {
    && |seen| <= listed <= |runs|
    && forall j {:trigger seen[j]} :: 0 <= j < |seen| && seen[j].Written? ==>
         var run := runs[listed - |seen| + j];
         run.stored.Written? && AreRecordsOf(run.request, seen[j].jobs)
  }

  ghost predicate ReadsAgree(runs: seq<Run>, r: Rerun) {
    forall search :: SeenAgrees(runs, r.listed, ViewOf(r.views, search))
  }

  ghost predicate Inv(first: Request, s: State) {
    && s.runs != [] && Sound(first, s.runs)
    && forall who :: who in s.reruns ==> ReadsAgree(s.runs, s.reruns[who])
  }

  /** The job has left settings for its check. */
  predicate Leaves(job: JobRecord, check: string) {
    && job.id == check
    && (check == LINT ==> job.lint.Decodable?)
    && (check == INTEGRITY ==> job.integrity.Decodable?)
    && (check == PROFILER ==> job.profiler.Decodable?)
  }

  ghost predicate LeavesSome(jobs: seq<JobRecord>, check: string) {
    exists j :: 0 <= j < |jobs| && Leaves(jobs[j], check)
  }

  /** The settings that the check left somewhere in the session can be reached: every newer result is readable. */
  ghost predicate Found(results: seq<Stored>, check: string) {
    exists k: nat :: FoundAt(results, check, k)
  }

  ghost predicate FoundAt(results: seq<Stored>, check: string, k: nat) {
    k < |results| && (forall l :: k <= l < |results| ==> results[l].Written?) && LeavesSome(results[k].jobs, check)
  }

  /** Looking for settings in the newest result, and otherwise in the others. */
  lemma FoundStep(results: seq<Stored>, check: string)
    requires results != []
    ensures Found(results, check) <==>
              && results[|results| - 1].Written?
              && (LeavesSome(results[|results| - 1].jobs, check) || Found(results[..|results| - 1], check))
  {
    var n := |results| - 1;
    if Found(results, check) {
      var k: nat :| FoundAt(results, check, k);
      if k < n {
        assert FoundAt(results[..n], check, k);
      }
    }
    if results[n].Written? && LeavesSome(results[n].jobs, check) {
      assert FoundAt(results, check, n);
    }
    if results[n].Written? && Found(results[..n], check) {
      var k: nat :| FoundAt(results[..n], check, k);
      assert FoundAt(results, check, k);
    }
  }

  // ---- Reading a run's own settings back ----

  /** Every job's record belongs to the request, wherever the search has got to. */
  ghost predicate AllRecordsOf(r: Request, jobs: seq<JobRecord>) {
    forall j :: 0 <= j < |jobs| ==> jobs[j].id in r.checks && IsRecordOf(r, jobs[j].id, jobs[j])
  }

  ghost predicate DistinctIDs(jobs: seq<JobRecord>) {
    forall i, j :: 0 <= i < j < |jobs| ==> jobs[i].id != jobs[j].id
  }

  lemma RecordsAreOwn(r: Request, jobs: seq<JobRecord>)
    requires AreRecordsOf(r, jobs) && Distinct(r.checks)
    ensures AllRecordsOf(r, jobs) && DistinctIDs(jobs)
  {
    forall j | 0 <= j < |jobs| ensures jobs[j].id in r.checks {
      assert jobs[j].id == r.checks[j];
    }
  }

  lemma LeavesSomeUnfold(jobs: seq<JobRecord>, check: string)
    requires jobs != []
    ensures LeavesSome(jobs, check) <==> Leaves(jobs[0], check) || LeavesSome(jobs[1..], check)
  {
    if LeavesSome(jobs, check) {
      var j :| 0 <= j < |jobs| && Leaves(jobs[j], check);
      if j > 0 {
        assert Leaves(jobs[1..][j - 1], check);
      }
    }
    if LeavesSome(jobs[1..], check) {
      var j :| 0 <= j < |jobs[1..]| && Leaves(jobs[1..][j], check);
      assert Leaves(jobs[j + 1], check);
    }
  }

  lemma NoneLeft(jobs: seq<JobRecord>, check: string)
    requires forall j :: 0 <= j < |jobs| ==> jobs[j].id != check
    ensures !LeavesSome(jobs, check)
  {
  }

  lemma {:induction false} OwnLint(r: Request, jobs: seq<JobRecord>)
    requires AllRecordsOf(r, jobs) && DistinctIDs(jobs) && r.lintJobs >= 1 && r.selected != []
    ensures PersistedLint(jobs) == if LeavesSome(jobs, LINT) then Success(LintEvidence(r).settings)
        else Failure(NoLintSettings)
  {
    if jobs != [] {
      LeavesSomeUnfold(jobs, LINT);
      if jobs[0].id != LINT {
        OwnLint(r, jobs[1..]);
      } else {
        NoneLeft(jobs[1..], LINT);
      }
    }
  }

  lemma {:induction false} OwnIntegrity(r: Request, jobs: seq<JobRecord>)
    requires AllRecordsOf(r, jobs)
    ensures PersistedIntegrity(jobs)
         == if LeavesSome(jobs, INTEGRITY) then Success(IntegritySettings(r.analyzers, r.stackPHPVersion, r.target))
             else Failure(NoIntegritySettings)
  {
    if jobs != [] {
      LeavesSomeUnfold(jobs, INTEGRITY);
      OwnIntegrity(r, jobs[1..]);
    }
  }

  lemma {:induction false} OwnProfiler(r: Request, jobs: seq<JobRecord>)
    requires AllRecordsOf(r, jobs) && DistinctIDs(jobs)
    ensures PersistedProfiler(jobs)
         == if LeavesSome(jobs, PROFILER) then Success(ProfilerSettings(r.profilerURL, r.target))
             else Failure(NoProfilerSettings)
  {
    if jobs != [] {
      LeavesSomeUnfold(jobs, PROFILER);
      if jobs[0].id != PROFILER {
        OwnProfiler(r, jobs[1..]);
      } else {
        NoneLeft(jobs[1..], PROFILER);
      }
    }
  }

  lemma LeftOnlyIfSelected(r: Request, jobs: seq<JobRecord>, check: string)
    requires AllRecordsOf(r, jobs) && LeavesSome(jobs, check)
    ensures check in r.checks
  {
  }

  // ---- What the searches find ----

  /** The target of some run of the session. */
  predicate IsTargetOf(first: Request, target: Target) {
    target == first.target || target == SavedTarget(first.target, first.project)
  }

  ghost predicate LintIsSettled(first: Request) {
    LINT in first.checks ==> first.lintJobs >= 1 && first.selected != []
  }

  /** Lint settings are found exactly when some reachable run left them, and are the first request's. */
  lemma {:induction false} LintFound(first: Request, runs: seq<Run>)
    requires Sound(first, runs) && LintIsSettled(first)
    ensures LatestLint(Results(runs)).Success? <==> Found(Results(runs), LINT)
    ensures LatestLint(Results(runs)).Success? ==>
              var s := LatestLint(Results(runs)).value;
              && LINT in first.checks && IsTargetOf(first, s.target)
              && s == LintSettings(first.lintProfile, first.lintJobs, s.target, first.selected, first.matrixComplete)
  {
    if runs != [] {
      var n := |runs| - 1;
      var r, stored := runs[n].request, runs[n].stored;
      assert Results(runs)[..n] == Results(runs[..n]);
      LintFound(first, runs[..n]);
      FoundStep(Results(runs), LINT);
      if stored.Written? {
        RecordsAreOwn(r, stored.jobs);
        if LINT in r.checks {
          OwnLint(r, stored.jobs);
        } else {
          NoLintWithoutCheck(r, stored.jobs);
        }
      }
    }
  }

  lemma {:induction false} NoLintWithoutCheck(r: Request, jobs: seq<JobRecord>)
    requires AllRecordsOf(r, jobs) && LINT !in r.checks
    ensures PersistedLint(jobs) == Failure(NoLintSettings) && !LeavesSome(jobs, LINT)
  {
    if jobs != [] {
      LeavesSomeUnfold(jobs, LINT);
      NoLintWithoutCheck(r, jobs[1..]);
    }
  }

  lemma {:induction false} IntegrityFound(first: Request, runs: seq<Run>)
    requires Sound(first, runs)
    ensures LatestIntegrity(Results(runs)).Success? <==> Found(Results(runs), INTEGRITY)
    ensures LatestIntegrity(Results(runs)).Success? ==>
              var s := LatestIntegrity(Results(runs)).value;
              && INTEGRITY in first.checks && IsTargetOf(first, s.target)
              && s == IntegritySettings(first.analyzers, first.stackPHPVersion, s.target)
  {
    if runs != [] {
      var n := |runs| - 1;
      var r, stored := runs[n].request, runs[n].stored;
      assert Results(runs)[..n] == Results(runs[..n]);
      IntegrityFound(first, runs[..n]);
      FoundStep(Results(runs), INTEGRITY);
      if stored.Written? {
        RecordsAreOwn(r, stored.jobs);
        OwnIntegrity(r, stored.jobs);
        if LeavesSome(stored.jobs, INTEGRITY) {
          LeftOnlyIfSelected(r, stored.jobs, INTEGRITY);
        }
      }
    }
  }

  lemma {:induction false} ProfilerFound(first: Request, runs: seq<Run>)
    requires Sound(first, runs)
    ensures LatestProfiler(Results(runs)).Success? <==> Found(Results(runs), PROFILER)
    ensures LatestProfiler(Results(runs)).Success? ==>
              var s := LatestProfiler(Results(runs)).value;
              && PROFILER in first.checks && IsTargetOf(first, s.target)
              && s == ProfilerSettings(first.profilerURL, s.target)
  {
    if runs != [] {
      var n := |runs| - 1;
      var r, stored := runs[n].request, runs[n].stored;
      assert Results(runs)[..n] == Results(runs[..n]);
      ProfilerFound(first, runs[..n]);
      FoundStep(Results(runs), PROFILER);
      if stored.Written? {
        RecordsAreOwn(r, stored.jobs);
        OwnProfiler(r, stored.jobs);
        if LeavesSome(stored.jobs, PROFILER) {
          LeftOnlyIfSelected(r, stored.jobs, PROFILER);
        }
      }
    }
  }

  // ---- The repeated selection ----

  lemma {:induction false} OwnChecks(r: Request, jobs: seq<JobRecord>, n: nat)
    requires IsSelection(r.checks) && |jobs| == |r.checks| && n <= |jobs|
    requires forall j :: 0 <= j < |jobs| ==> IsRecordOf(r, r.checks[j], jobs[j])
    ensures RecognizedJobs(jobs[..n]) == r.checks[..n]
  {
    if n > 0 {
      OwnChecks(r, jobs, n - 1);
      assert jobs[..n][..n - 1] == jobs[..n - 1];
    }
  }

  ghost predicate RepeatsAt(runs: seq<Run>, k: nat) {
    && k < |runs| && runs[k].stored.Written? && runs[k].stored.jobs != []
    && forall l :: k < l < |runs| ==> runs[l].stored == Written([])
  }

  lemma RecordedChecks(first: Request, r: Request, jobs: seq<JobRecord>)
    requires Follows(first, r) && AreRecordsOf(r, jobs) && jobs != []
    ensures RecognizedJobs(jobs) == r.checks && jobs != []
  {
    OwnChecks(r, jobs, |jobs|);
    assert jobs[..|jobs|] == jobs && r.checks[..|jobs|] == r.checks;
  }

  lemma {:induction false} RepeatedChecks(first: Request, runs: seq<Run>, k: nat)
    requires Sound(first, runs) && RepeatsAt(runs, k)
    ensures LatestChecks(Results(runs)) == Success(runs[k].request.checks)
  {
    var n := |runs| - 1;
    var r, stored := runs[n].request, runs[n].stored;
    assert Results(runs)[..n] == Results(runs[..n]);
    if k == n {
      RecordedChecks(first, r, stored.jobs);
    } else {
      RepeatedChecks(first, runs[..n], k);
    }
  }

  lemma {:induction false} FindRepeated(runs: seq<Run>) returns (k: nat)
    requires LatestChecks(Results(runs)).Success?
    ensures RepeatsAt(runs, k)
  {
    var n := |runs| - 1;
    assert Results(runs)[..n] == Results(runs[..n]);
    if runs[n].stored.jobs != [] {
      k := n;
    } else {
      k := FindRepeated(runs[..n]);
    }
  }

  /**
   * An omitted selection repeats, exactly, that of the newest run whose jobs were scheduled, provided
   * that no newer result is unreadable.
   */
  lemma OmittedSelectionRepeats(first: Request, runs: seq<Run>)
    requires Sound(first, runs)
    ensures Selection(Results(runs), []).Success? <==> exists k: nat :: RepeatsAt(runs, k)
    ensures forall k: nat :: RepeatsAt(runs, k) ==> Selection(Results(runs), []) == Success(runs[k].request.checks)
  {
    forall k: nat | RepeatsAt(runs, k)
      ensures Selection(Results(runs), []) == Success(runs[k].request.checks)
    {
      RepeatedChecks(first, runs, k);
      NormalizedStays(runs[k].request.checks);
    }
    if LatestChecks(Results(runs)).Success? {
      var k := FindRepeated(runs);
      RepeatedChecks(first, runs, k);
      NormalizedStays(runs[k].request.checks);
    }
  }

  lemma SelectionIsOne(results: seq<Stored>, checks: seq<string>)
    ensures var s := Selection(results, checks); s.Success? ==> IsSelection(s.value) && Distinct(s.value)
  {
    var given := if checks == [] then LatestChecks(results) else Success(checks);
    if given.Success? && given.value != [] && Normalize(given.value).Success? {
      var seen := FirstSeen(given.value);
      FirstSeenIsTheSet(given.value);
      assert TrimSpace(given.value[0]) in seen;
      forall i | 0 <= i < |seen| ensures Recognized(seen[i]) {
        assert seen[i] in seen;
        var k :| 0 <= k < |given.value| && TrimSpace(given.value[k]) == seen[i];
      }
    }
  }

  // ---- Rerun stability ----

  /** The runs a search has looked at, with the results that it saw. */
  function Overlay(runs: seq<Run>, listed: nat, seen: seq<Stored>): (overlay: seq<Run>)
    requires |seen| <= listed <= |runs|
    ensures |overlay| == |seen|
    ensures forall j :: 0 <= j < |seen| ==> overlay[j] == Run(runs[listed - |seen| + j].request, seen[j])
  {
    seq(|seen|, j requires 0 <= j < |seen| => Run(runs[listed - |seen| + j].request, seen[j]))
  }

  lemma OverlayIsSound(first: Request, runs: seq<Run>, listed: nat, seen: seq<Stored>)
    requires Sound(first, runs) && SeenAgrees(runs, listed, seen)
    ensures Sound(first, Overlay(runs, listed, seen)) && Results(Overlay(runs, listed, seen)) == seen
  {
  }

  function SearchFor(check: string): Search
    requires Recognized(check)
  {
    if check == LINT then ForLint else if check == INTEGRITY then ForIntegrity else ForProfiler
  }

  /** The check's search has found settings. */
  ghost predicate HasFound(views: Views, check: string) {
    Recognized(check) && Found(ViewOf(views, SearchFor(check)), check)
  }

  /**
   * A rerun can allocate iff its selection is accepted, and for every check in it the search of its own
   * has come upon settings with only readable results before them. It then audits what the first request
   * audited. When it lints or checks integrity, its target is the first one's, or the project itself when
   * that one was never resolved.
   */
  lemma RerunFollows(first: Request, runs: seq<Run>, r: Rerun)
    requires Sound(first, runs) && LintIsSettled(first) && first.project.root != ""
    requires ReadsAgree(runs, r)
    ensures Decided(first.project, r).Success? <==>
              && Selection(r.views.checks, r.checks).Success?
              && forall check :: check in Selection(r.views.checks, r.checks).value ==> HasFound(r.views, check)
    ensures var request := Decided(first.project, r);
            request.Success? ==>
              && Follows(first, request.value)
              && (LINT in request.value.checks || INTEGRITY in request.value.checks ==>
                    request.value.target == SavedTarget(first.target, first.project))
  {
    AcceptedIffFound(first, runs, r);
    if Decided(first.project, r).Success? {
      AcceptedFollows(first, runs, r);
    }
  }

  lemma AcceptedIffFound(first: Request, runs: seq<Run>, r: Rerun)
    requires Sound(first, runs) && LintIsSettled(first) && ReadsAgree(runs, r)
    ensures Decided(first.project, r).Success? <==>
              && Selection(r.views.checks, r.checks).Success?
              && forall check :: check in Selection(r.views.checks, r.checks).value ==> HasFound(r.views, check)
  {
    LintSeen(first, runs, r);
    IntegritySeen(first, runs, r);
    ProfilerSeen(first, runs, r);
    SelectionIsOne(r.views.checks, r.checks);
    var selection := Selection(r.views.checks, r.checks);
    if selection.Success? {
      forall check | check in selection.value
        ensures check == LINT || check == INTEGRITY || check == PROFILER
      {
        assert Recognized(check);
      }
    }
  }

  lemma AcceptedFollows(first: Request, runs: seq<Run>, r: Rerun)
    requires Sound(first, runs) && LintIsSettled(first) && first.project.root != "" && ReadsAgree(runs, r)
    requires Decided(first.project, r).Success?
    ensures var request := Decided(first.project, r).value;
            && Follows(first, request)
            && (LINT in request.checks || INTEGRITY in request.checks ==>
                request.target == SavedTarget(first.target, first.project))
  {
    var request := Decided(first.project, r).value;
    SelectionIsOne(r.views.checks, r.checks);
    if LINT in request.checks {
      LintSeen(first, runs, r);
    }
    if INTEGRITY in request.checks {
      IntegritySeen(first, runs, r);
    }
    if PROFILER in request.checks {
      ProfilerSeen(first, runs, r);
    }
    forall check | check in request.checks
      ensures check in first.checks
    {
      assert Recognized(check);
    }
    assert request.checks[0] in request.checks;
  }

  lemma LintSeen(first: Request, runs: seq<Run>, r: Rerun)
    requires Sound(first, runs) && LintIsSettled(first) && ReadsAgree(runs, r)
    ensures LatestLint(r.views.lint).Success? <==> HasFound(r.views, LINT)
    ensures LatestLint(r.views.lint).Success? ==>
              var s := LatestLint(r.views.lint).value;
              && LINT in first.checks && IsTargetOf(first, s.target)
              && s == LintSettings(first.lintProfile, first.lintJobs, s.target, first.selected, first.matrixComplete)
  {
    assert SeenAgrees(runs, r.listed, ViewOf(r.views, ForLint));
    OverlayIsSound(first, runs, r.listed, r.views.lint);
    LintFound(first, Overlay(runs, r.listed, r.views.lint));
  }

  lemma IntegritySeen(first: Request, runs: seq<Run>, r: Rerun)
    requires Sound(first, runs) && ReadsAgree(runs, r)
    ensures LatestIntegrity(r.views.integrity).Success? <==> HasFound(r.views, INTEGRITY)
    ensures LatestIntegrity(r.views.integrity).Success? ==>
              var s := LatestIntegrity(r.views.integrity).value;
              && INTEGRITY in first.checks && IsTargetOf(first, s.target)
              && s == IntegritySettings(first.analyzers, first.stackPHPVersion, s.target)
  {
    assert SeenAgrees(runs, r.listed, ViewOf(r.views, ForIntegrity));
    OverlayIsSound(first, runs, r.listed, r.views.integrity);
    IntegrityFound(first, Overlay(runs, r.listed, r.views.integrity));
  }

  lemma ProfilerSeen(first: Request, runs: seq<Run>, r: Rerun)
    requires Sound(first, runs) && ReadsAgree(runs, r)
    ensures LatestProfiler(r.views.profiler).Success? <==> HasFound(r.views, PROFILER)
    ensures LatestProfiler(r.views.profiler).Success? ==>
              var s := LatestProfiler(r.views.profiler).value;
              && PROFILER in first.checks && IsTargetOf(first, s.target)
              && s == ProfilerSettings(first.profilerURL, s.target)
  {
    assert SeenAgrees(runs, r.listed, ViewOf(r.views, ForProfiler));
    OverlayIsSound(first, runs, r.listed, r.views.profiler);
    ProfilerFound(first, Overlay(runs, r.listed, r.views.profiler));
  }

  /** Results only ever get written, and a run keeps its request. */
  ghost predicate RunsGrow(before: seq<Run>, after: seq<Run>) {
    && |before| <= |after|
    && forall i :: 0 <= i < |before| ==>
         after[i].request == before[i].request && (before[i].stored.Written? ==> after[i].stored.Written?)
  }

  lemma ReadsStayGood(before: seq<Run>, after: seq<Run>, r: Rerun)
    requires RunsGrow(before, after) && ReadsAgree(before, r)
    ensures ReadsAgree(after, r)
  {
    forall search
      ensures SeenAgrees(after, r.listed, ViewOf(r.views, search))
    {
      assert SeenAgrees(before, r.listed, ViewOf(r.views, search));
    }
  }

  lemma ReadKeepsReads(first: Request, s: State, who: nat, search: Search)
    requires Inv(first, s) && Enabled(first.project, s, ReadResult(who, search))
    ensures ReadsAgree(s.runs, Next(first.project, s, ReadResult(who, search)).reruns[who])
  {
    var r := s.reruns[who];
    var seen := ViewOf(r.views, search);
    var longer := [s.runs[NextIndex(r, search)].stored] + seen;
    assert SeenAgrees(s.runs, r.listed, seen);
    assert SeenAgrees(s.runs, r.listed, longer) by {
      forall j | 0 <= j < |longer| && longer[j].Written?
        ensures var run := s.runs[r.listed - |longer| + j];
            run.stored.Written? && AreRecordsOf(run.request, longer[j].jobs)
      {
        assert j > 0 ==> longer[j] == seen[j - 1];
      }
    }
    forall other
      ensures SeenAgrees(s.runs, r.listed,
          ViewOf(HavingRead(r, search, s.runs[NextIndex(r, search)].stored).views, other))
    {
      assert SeenAgrees(s.runs, r.listed, ViewOf(r.views, other));
    }
  }

  lemma StepGrowsRuns(first: Request, s: State, step: Step)
    requires Enabled(first.project, s, step)
    ensures RunsGrow(s.runs, Next(first.project, s, step).runs)
  {
  }

  lemma StepKeepsSound(first: Request, s: State, step: Step)
    requires Inv(first, s) && LintIsSettled(first) && first.project.root != "" && Enabled(first.project, s, step)
    ensures Sound(first, Next(first.project, s, step).runs)
  {
    if step.Allocate? {
      AcceptedFollows(first, s.runs, s.reruns[step.who]);
    }
  }

  lemma StepKeepsInv(first: Request, s: State, step: Step)
    requires Inv(first, s) && LintIsSettled(first) && first.project.root != "" && Enabled(first.project, s, step)
    ensures Inv(first, Next(first.project, s, step))
  {
    var t := Next(first.project, s, step);
    StepKeepsSound(first, s, step);
    StepGrowsRuns(first, s, step);
    forall who | who in t.reruns
      ensures ReadsAgree(t.runs, t.reruns[who])
    {
      if step.ReadResult? && who == step.who {
        ReadKeepsReads(first, s, who, step.search);
      } else if who in s.reruns && t.reruns[who] == s.reruns[who] {
        ReadsStayGood(s.runs, t.runs, s.reruns[who]);
      }
    }
  }

  lemma ValidIsSettled(isURL: string -> bool, first: Request)
    requires ValidRequest(isURL, first)
    ensures LintIsSettled(first) && first.project.root != "" && Inv(first, Init(first))
  {
  }

  lemma {:induction false} ReachableInv(isURL: string -> bool, first: Request, states: seq<State>, steps: seq<Step>,
      k: nat)
    requires ValidRequest(isURL, first) && IsHistory(first, states, steps) && k < |states|
    ensures Inv(first, states[k])
  {
    ValidIsSettled(isURL, first);
    if k > 0 {
      ReachableInv(isURL, first, states, steps, k - 1);
      StepKeepsInv(first, states[k - 1], steps[k - 1]);
      assert states[k] == Next(first.project, states[k - 1], steps[k - 1]);
    }
  }

  /** With a resolved target a request that follows the first one passes what Run demanded of that. */
  lemma FollowingIsValid(isURL: string -> bool, first: Request, r: Request)
    requires ValidRequest(isURL, first) && Resolved(first.target) && Follows(first, r)
    ensures r.target == first.target && ValidRequest(isURL, r)
  {
    if LINT in r.checks {
      assert MatrixRequest(r) == MatrixRequest(first);
    }
  }

  /**
   * Rerun stability, for every history of a session: however many reruns there were, of whatever checks,
   * overtaking each other between any two of their reads and crashed anywhere, every run has the first
   * request's project, lint, integrity and profiler settings and, when that one's target was resolved,
   * its target. It then also passes every check that Run made and Rerun does not repeat. The same holds
   * of every request a rerun has decided on and not yet allocated.
   */
  lemma RerunsAreStable(isURL: string -> bool, first: Request, states: seq<State>, steps: seq<Step>, k: nat)
    requires ValidRequest(isURL, first) && Resolved(first.target)
    requires IsHistory(first, states, steps) && k < |states|
    ensures forall i :: 0 <= i < |states[k].runs| ==>
              var r := states[k].runs[i].request;
              Follows(first, r) && r.target == first.target && ValidRequest(isURL, r)
    ensures forall who :: who in states[k].reruns && Decided(first.project, states[k].reruns[who]).Success? ==>
              var r := Decided(first.project, states[k].reruns[who]).value;
              Follows(first, r) && r.target == first.target && ValidRequest(isURL, r)
  {
    ReachableInv(isURL, first, states, steps, k);
    ValidIsSettled(isURL, first);
    forall i | 0 <= i < |states[k].runs|
      ensures var r := states[k].runs[i].request;
          Follows(first, r) && r.target == first.target && ValidRequest(isURL, r)
    {
      FollowingIsValid(isURL, first, states[k].runs[i].request);
    }
    forall who | who in states[k].reruns && Decided(first.project, states[k].reruns[who]).Success?
      ensures var r := Decided(first.project, states[k].reruns[who]).value;
              Follows(first, r) && r.target == first.target && ValidRequest(isURL, r)
    {
      RerunFollows(first, states[k].runs, states[k].reruns[who]);
      FollowingIsValid(isURL, first, Decided(first.project, states[k].reruns[who]).value);
    }
  }

  /** Refusal: a rerun of a check that the first run did not select never gets to its CreateRun. */
  lemma UnselectedCheckIsRefused(isURL: string -> bool, first: Request, states: seq<State>, steps: seq<Step>, k: nat,
      who: nat)
    requires ValidRequest(isURL, first) && IsHistory(first, states, steps) && k < |states|
    requires who in states[k].reruns
    requires exists i ::
        0 <= i < |states[k].reruns[who].checks| && TrimSpace(states[k].reruns[who].checks[i]) !in first.checks
    ensures Decided(first.project, states[k].reruns[who]).Failure?
  {
    var r := states[k].reruns[who];
    ReachableInv(isURL, first, states, steps, k);
    ValidIsSettled(isURL, first);
    RerunFollows(first, states[k].runs, r);
    FirstSeenIsTheSet(r.checks);
    var i :| 0 <= i < |r.checks| && TrimSpace(r.checks[i]) !in first.checks;
    assert TrimSpace(r.checks[i]) in FirstSeen(r.checks);
  }

  /** A run that lints or checks integrity, other than the first, keeps the first target iff it was resolved. */
  lemma {:induction false} TargetIsKeptIffResolved(isURL: string -> bool, first: Request,
                                                  states: seq<State>, steps: seq<Step>, k: nat, i: nat)
    requires ValidRequest(isURL, first) && IsHistory(first, states, steps) && k < |states|
    requires 0 < i < |states[k].runs|
    requires LINT in states[k].runs[i].request.checks || INTEGRITY in states[k].runs[i].request.checks
    ensures states[k].runs[i].request.target == SavedTarget(first.target, first.project)
    ensures states[k].runs[i].request.target == first.target <==> Resolved(first.target)
  {
    ValidIsSettled(isURL, first);
    var s, step := states[k - 1], steps[k - 1];
    assert states[k] == Next(first.project, s, step);
    if i < |s.runs| {
      StepGrowsRuns(first, s, step);
      TargetIsKeptIffResolved(isURL, first, states, steps, k - 1, i);
    } else {
      ReachableInv(isURL, first, states, steps, k - 1);
      RerunFollows(first, s.runs, s.reruns[step.who]);
    }
  }

  // ---- A crash before the first result ----

  /** The newest run has no result file. */
  predicate NewestIsMissing(s: State) {
    s.runs != [] && s.runs[|s.runs| - 1].stored.Missing?
  }

  /** The rerun read the manifest before the newest run was in it. */
  predicate Overtaken(s: State, who: nat) {
    who in s.reruns && s.reruns[who].listed < |s.runs|
  }

  /**
   * While the newest run has no result file, only a rerun that was overtaken by it can allocate: every
   * other one meets the missing result first, whatever it searches for.
   */
  lemma OnlyOvertakenAllocate(first: Request, s: State, who: nat)
    requires Inv(first, s) && LintIsSettled(first) && first.project.root != "" && NewestIsMissing(s)
    requires who in s.reruns && Decided(first.project, s.reruns[who]).Success?
    ensures Overtaken(s, who)
  {
    var r := s.reruns[who];
    var check := SomethingFound(first, s.runs, r);
    var seen := ViewOf(r.views, SearchFor(check));
    assert SeenAgrees(s.runs, r.listed, seen);
    NewestSeen(s.runs, r.listed, seen, check);
  }

  lemma SomethingFound(first: Request, runs: seq<Run>, r: Rerun) returns (check: string)
    requires Sound(first, runs) && LintIsSettled(first) && ReadsAgree(runs, r)
    requires Decided(first.project, r).Success?
    ensures HasFound(r.views, check)
  {
    AcceptedIffFound(first, runs, r);
    SelectionIsOne(r.views.checks, r.checks);
    check := Selection(r.views.checks, r.checks).value[0];
    assert check in Selection(r.views.checks, r.checks).value;
  }

  lemma NewestSeen(runs: seq<Run>, listed: nat, seen: seq<Stored>, check: string)
    requires SeenAgrees(runs, listed, seen) && Found(seen, check)
    ensures 0 < listed && runs[listed - 1].stored.Written?
  {
    var k: nat :| FoundAt(seen, check, k);
    assert seen[|seen| - 1].Written?;
  }

  lemma CrashStep(first: Request, s: State, step: Step)
    requires Inv(first, s) && LintIsSettled(first) && first.project.root != "" && Enabled(first.project, s, step)
    requires NewestIsMissing(s) && forall who :: !Overtaken(s, who)
    requires step != WritePending(|s.runs| - 1)
    ensures var t := Next(first.project, s, step);
            |t.runs| == |s.runs| && NewestIsMissing(t) && forall who :: !Overtaken(t, who)
  {
    if step.Allocate? {
      OnlyOvertakenAllocate(first, s, step.who);
    } else {
      var t := Next(first.project, s, step);
      forall who ensures !Overtaken(t, who) {
        assert !Overtaken(s, who);
      }
    }
  }

  lemma NoneDecided(first: Request, s: State)
    requires Inv(first, s) && LintIsSettled(first) && first.project.root != ""
    requires NewestIsMissing(s) && forall who :: !Overtaken(s, who)
    ensures forall who :: who in s.reruns ==> Decided(first.project, s.reruns[who]).Failure?
  {
    forall who | who in s.reruns
      ensures Decided(first.project, s.reruns[who]).Failure?
    {
      assert !Overtaken(s, who);
      if Decided(first.project, s.reruns[who]).Success? {
        OnlyOvertakenAllocate(first, s, who);
      }
    }
  }

  /**
   * So a run that dies between CreateRun and its first WriteResult ends the session, provided that no
   * rerun is between its reading of the manifest and its CreateRun: unless that run itself still writes
   * its result, the session never gets another one.
   */
  lemma {:induction false} CrashEndsTheSession(isURL: string -> bool, first: Request,
                                              states: seq<State>, steps: seq<Step>, a: nat, b: nat)
    requires ValidRequest(isURL, first) && IsHistory(first, states, steps) && a <= b < |states|
    requires NewestIsMissing(states[a])
    requires forall who :: !Overtaken(states[a], who)
    requires forall k :: a <= k < b ==> steps[k] != WritePending(|states[a].runs| - 1)
    ensures |states[b].runs| == |states[a].runs| && NewestIsMissing(states[b])
    ensures forall who :: !Overtaken(states[b], who)
    ensures forall who :: who in states[b].reruns ==> Decided(first.project, states[b].reruns[who]).Failure?
    decreases b
  {
    ValidIsSettled(isURL, first);
    if a < b {
      CrashEndsTheSession(isURL, first, states, steps, a, b - 1);
      ReachableInv(isURL, first, states, steps, b - 1);
      assert states[b] == Next(first.project, states[b - 1], steps[b - 1]);
      CrashStep(first, states[b - 1], steps[b - 1]);
    }
    ReachableInv(isURL, first, states, steps, b);
    NoneDecided(first, states[b]);
  }
}
