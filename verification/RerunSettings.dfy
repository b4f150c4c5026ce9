/** Checks, targets and the settings that jobs leave in a session: internal/audit/runner.go and integrity_job.go. */
module RerunSettings {
  import opened Wrappers
  import opened Strings

  const LINT: string := "lint"
  const INTEGRITY: string := "integrity"
  const PROFILER: string := "profiler"

  datatype Target = Target(framework: string, projectRoot: string, targetPath: string, mode: string)

  const NO_TARGET: Target := Target("", "", "", "")

  /** What a session's manifest says about its project. */
  datatype Project = Project(
    root: string, id: string, framework: string, scope: string, baseRef: string, environment: string, source: string)

  datatype LintProfile = LintProfile(
    projectVersions: seq<string>, standaloneVersions: seq<string>, linters: seq<string>,
    codingStandard: string, phpstanLevel: int, phpstanExtension: string, ruleIDPrefix: string)

  datatype LintSettings = LintSettings(
    profile: LintProfile, jobs: int, target: Target, selected: seq<string>, matrixComplete: bool)

  datatype IntegritySettings = IntegritySettings(analyzers: seq<string>, stackPHPVersion: string, target: Target)

  datatype ProfilerSettings = ProfilerSettings(url: string, target: Target)

  datatype Request = Request(
    project: Project, checks: seq<string>, target: Target,
    lintProfile: LintProfile, lintJobs: int, selected: seq<string>, matrixComplete: bool,
    analyzers: seq<string>, stackPHPVersion: string, profilerURL: string)

  datatype Refusal =
    | NoSessionID | OtherProject | NoRecognizedChecks | UnknownCheck | UnreadableResult
    | NoLintSettings | UndecodableLintSettings | BadJobCount
    | NoIntegritySettings
    | NoProfilerSettings | UndecodableProfilerSettings

  // ---- Checks ----

  predicate Recognized(check: string) {
    check == LINT || check == PROFILER || check == INTEGRITY
  }

  /** The checks trimmed and without repetitions. */
  function FirstSeen(checks: seq<string>): seq<string> {
    if checks == [] then []
    else
      var front := FirstSeen(checks[..|checks| - 1]);
      var check := TrimSpace(checks[|checks| - 1]);
      if check in front then front else front + [check]
  }

  function Normalize(checks: seq<string>): Result<seq<string>, Refusal> {
    if checks == [] then Success([LINT])
    else if exists i :: 0 <= i < |checks| && !Recognized(TrimSpace(checks[i])) then Failure(UnknownCheck)
    else Success(FirstSeen(checks))
  }

  method NormalizeChecks(checks: seq<string>) returns (r: Result<seq<string>, Refusal>)
    ensures r == Normalize(checks)
  {
    if |checks| == 0 {
      return Success([LINT]);
    }
    var seen: set<string> := {};
    var normalized: seq<string> := [];
    for i := 0 to |checks|
      invariant normalized == FirstSeen(checks[..i])
      invariant forall check :: check in seen <==> check in normalized
      invariant forall k :: 0 <= k < i ==> Recognized(TrimSpace(checks[k]))
    {
      assert checks[..i + 1][..i] == checks[..i];
      var check := TrimSpace(checks[i]);
      if check != LINT && check != PROFILER && check != INTEGRITY {
        return Failure(UnknownCheck);
      }
      if check !in seen {
        seen := seen + {check};
        normalized := normalized + [check];
      }
    }
    assert checks[..|checks|] == checks;
    return Success(normalized);
  }

  /** Nothing is lost, added or repeated. */
  lemma {:induction false} FirstSeenIsTheSet(checks: seq<string>)
    ensures Distinct(FirstSeen(checks))
    ensures forall check :: check in FirstSeen(checks) <==>
        exists k :: 0 <= k < |checks| && TrimSpace(checks[k]) == check
  {
    if checks != [] {
      var n := |checks| - 1;
      FirstSeenIsTheSet(checks[..n]);
      forall check
        ensures check in FirstSeen(checks) <==> exists k :: 0 <= k < |checks| && TrimSpace(checks[k]) == check
      {
        if check in FirstSeen(checks[..n]) {
          var k :| 0 <= k < n && TrimSpace(checks[..n][k]) == check;
          assert TrimSpace(checks[k]) == check;
        }
        forall k | 0 <= k < n && TrimSpace(checks[k]) == check ensures check in FirstSeen(checks[..n]) {
          assert TrimSpace(checks[..n][k]) == check;
        }
        assert TrimSpace(checks[n]) in FirstSeen(checks);
      }
    }
  }

  /** Order: what the first n checks name stays in front, however many follow. */
  lemma {:induction false} FirstSeenKeepsOrder(checks: seq<string>, n: nat)
    requires n <= |checks|
    ensures FirstSeen(checks[..n]) <= FirstSeen(checks)
    decreases |checks|
  {
    if n < |checks| {
      var front := checks[..|checks| - 1];
      FirstSeenKeepsOrder(front, n);
      assert front[..n] == checks[..n];
    } else {
      assert checks[..n] == checks;
    }
  }

  /** A stored selection is taken as it is. */
  lemma {:induction false} NormalizedStays(checks: seq<string>)
    requires Distinct(checks) && checks != [] && forall i :: 0 <= i < |checks| ==> Recognized(checks[i])
    ensures Normalize(checks) == Success(checks)
  {
    forall i | 0 <= i < |checks| ensures TrimSpace(checks[i]) == checks[i] {
      TrimOfPlain(checks[i]);
    }
    NothingRepeats(checks);
  }

  lemma {:induction false} NothingRepeats(checks: seq<string>)
    requires Distinct(checks) && forall i :: 0 <= i < |checks| ==> TrimSpace(checks[i]) == checks[i]
    ensures FirstSeen(checks) == checks
  {
    if checks != [] {
      NothingRepeats(checks[..|checks| - 1]);
    }
  }

  // ---- Targets ----

  predicate Resolved(target: Target) {
    target.mode != "" && target.targetPath != ""
  }

  /** savedLintTarget: a target that was not resolved becomes the project itself. */
  function SavedTarget(target: Target, project: Project): (r: Target)
    ensures r == target <==>
        Resolved(target) || (project.root == "" && target == Target(project.framework, "", "", "project"))
    ensures r != NO_TARGET
  {
    if Resolved(target) then target else Target(project.framework, project.root, project.root, "project")
  }

  // ---- Settings as they are stored and read back ----

  /** A settings value in a job's evidence: not there, not decodable, or there. */
  datatype Saved<+T> = Absent | Undecodable | Decodable(value: T)

  /** Sessions of older versions stored the PHP versions in the profile and no selection. */
  datatype LintRecord = LintRecord(settings: LintSettings, legacyVersions: seq<string>)

  datatype JobRecord = JobRecord(
    id: string, lint: Saved<LintRecord>, integrity: Saved<IntegritySettings>, profiler: Saved<ProfilerSettings>)

  function DecodeLint(record: LintRecord): Result<LintSettings, Refusal> {
    var stored := record.settings;
    var settings :=
      if stored.selected != [] then stored
      else
        var profile := if record.legacyVersions != [] then stored.profile.(projectVersions := record.legacyVersions)
            else stored.profile;
        stored.(profile := profile, selected := profile.projectVersions, matrixComplete := true);
    if settings.jobs < 1 then Failure(BadJobCount) else Success(settings)
  }

  /** Settings survive being stored iff no repair for older versions applies to them. */
  lemma StoredSettingsSurvive(settings: LintSettings)
    ensures DecodeLint(LintRecord(settings, [])) == Success(settings)
        <==>
            settings.jobs >= 1 && (settings.selected != []
            || (settings.profile.projectVersions == [] && settings.matrixComplete))
  {
    var stored := DecodeLint(LintRecord(settings, []));
    if settings.jobs >= 1 && settings.selected == [] {
      assert stored.Success? && stored.value.selected == settings.profile.projectVersions
          && stored.value.matrixComplete;
      if settings.profile.projectVersions == [] && settings.matrixComplete {
        assert stored.value == settings;
      }
    }
  }

  /** Settings of an older version are repaired once and then survive unchanged. */
  lemma RepairedOnce(record: LintRecord)
    ensures DecodeLint(record).Success? ==> DecodeLint(LintRecord(DecodeLint(record).value, [])) == DecodeLint(record)
  {
    if DecodeLint(record).Success? {
      StoredSettingsSurvive(DecodeLint(record).value);
    }
  }

  function PersistedLint(jobs: seq<JobRecord>): Result<LintSettings, Refusal> {
    if jobs == [] then Failure(NoLintSettings)
    else if jobs[0].id != LINT then PersistedLint(jobs[1..])
    else
      match jobs[0].lint
      case Absent => Failure(NoLintSettings)
      case Undecodable => Failure(UndecodableLintSettings)
      case Decodable(record) => DecodeLint(record)
  }

  /** Unlike the other two, an integrity job without settings does not end the search. */
  function PersistedIntegrity(jobs: seq<JobRecord>): Result<IntegritySettings, Refusal> {
    if jobs == [] then Failure(NoIntegritySettings)
    else if jobs[0].id != INTEGRITY || jobs[0].integrity.Absent? then PersistedIntegrity(jobs[1..])
    else if jobs[0].integrity.Undecodable? then Failure(NoIntegritySettings)
    else Success(jobs[0].integrity.value)
  }

  function PersistedProfiler(jobs: seq<JobRecord>): Result<ProfilerSettings, Refusal> {
    if jobs == [] then Failure(NoProfilerSettings)
    else if jobs[0].id != PROFILER then PersistedProfiler(jobs[1..])
    else
      match jobs[0].profiler
      case Absent => Failure(NoProfilerSettings)
      case Undecodable => Failure(UndecodableProfilerSettings)
      case Decodable(settings) => Success(settings)
  }

  /** The recognized checks among a run's jobs. */
  function RecognizedJobs(jobs: seq<JobRecord>): seq<string> {
    if jobs == [] then []
    else
      var last := jobs[|jobs| - 1].id;
      RecognizedJobs(jobs[..|jobs| - 1]) + (if Recognized(last) then [last] else [])
  }

  // ---- The newest settings of a session ----

  /** A run's result file: not there yet, or with the jobs it has recorded. */
  datatype Stored = Missing | Written(jobs: seq<JobRecord>)

  /** Searches newest first; the first unreadable result ends it. */
  function LatestChecks(results: seq<Stored>): Result<seq<string>, Refusal> {
    if results == [] then Failure(NoRecognizedChecks)
    else
      var last := results[|results| - 1];
      if last.Missing? then Failure(UnreadableResult)
      else if RecognizedJobs(last.jobs) != [] then Success(RecognizedJobs(last.jobs))
      else LatestChecks(results[..|results| - 1])
  }

  function LatestLint(results: seq<Stored>): Result<LintSettings, Refusal> {
    if results == [] then Failure(NoLintSettings)
    else
      var last := results[|results| - 1];
      if last.Missing? then Failure(UnreadableResult)
      else if PersistedLint(last.jobs) == Failure(NoLintSettings) then LatestLint(results[..|results| - 1])
      else PersistedLint(last.jobs)
  }

  function LatestIntegrity(results: seq<Stored>): Result<IntegritySettings, Refusal> {
    if results == [] then Failure(NoIntegritySettings)
    else
      var last := results[|results| - 1];
      if last.Missing? then Failure(UnreadableResult)
      else if PersistedIntegrity(last.jobs).Failure? then LatestIntegrity(results[..|results| - 1])
      else PersistedIntegrity(last.jobs)
  }

  function LatestProfiler(results: seq<Stored>): Result<ProfilerSettings, Refusal> {
    if results == [] then Failure(NoProfilerSettings)
    else
      var last := results[|results| - 1];
      if last.Missing? then Failure(UnreadableResult)
      else if PersistedProfiler(last.jobs) == Failure(NoProfilerSettings) then LatestProfiler(results[..|results| - 1])
      else PersistedProfiler(last.jobs)
  }

  /** Reading one more result, an older one, while nothing has been found. */
  lemma {:induction false} LatestChecksExtends(older: Stored, seen: seq<Stored>)
    requires LatestChecks(seen) == Failure(NoRecognizedChecks)
    ensures LatestChecks([older] + seen) == LatestChecks([older])
  {
    if seen != [] {
      LatestChecksExtends(older, seen[..|seen| - 1]);
      assert ([older] + seen)[..|seen|] == [older] + seen[..|seen| - 1];
    } else {
      assert [older] + seen == [older];
    }
  }

  lemma {:induction false} LatestLintExtends(older: Stored, seen: seq<Stored>)
    requires LatestLint(seen) == Failure(NoLintSettings)
    ensures LatestLint([older] + seen) == LatestLint([older])
  {
    if seen != [] {
      LatestLintExtends(older, seen[..|seen| - 1]);
      assert ([older] + seen)[..|seen|] == [older] + seen[..|seen| - 1];
    } else {
      assert [older] + seen == [older];
    }
  }

  lemma {:induction false} LatestIntegrityExtends(older: Stored, seen: seq<Stored>)
    requires LatestIntegrity(seen) == Failure(NoIntegritySettings)
    ensures LatestIntegrity([older] + seen) == LatestIntegrity([older])
  {
    if seen != [] {
      LatestIntegrityExtends(older, seen[..|seen| - 1]);
      assert ([older] + seen)[..|seen|] == [older] + seen[..|seen| - 1];
    } else {
      assert [older] + seen == [older];
    }
  }

  lemma {:induction false} LatestProfilerExtends(older: Stored, seen: seq<Stored>)
    requires LatestProfiler(seen) == Failure(NoProfilerSettings)
    ensures LatestProfiler([older] + seen) == LatestProfiler([older])
  {
    if seen != [] {
      LatestProfilerExtends(older, seen[..|seen| - 1]);
      assert ([older] + seen)[..|seen|] == [older] + seen[..|seen| - 1];
    } else {
      assert [older] + seen == [older];
    }
  }

  // ---- One run's settings, as the loops find them ----

  method RecognizedChecks(jobs: seq<JobRecord>) returns (checks: seq<string>)
    ensures checks == RecognizedJobs(jobs)
  {
    checks := [];
    for j := 0 to |jobs|
      invariant checks == RecognizedJobs(jobs[..j])
    {
      assert jobs[..j + 1][..j] == jobs[..j];
      if jobs[j].id == LINT || jobs[j].id == PROFILER || jobs[j].id == INTEGRITY {
        checks := checks + [jobs[j].id];
      }
    }
    assert jobs[..|jobs|] == jobs;
  }

  method PersistedLintSettings(jobs: seq<JobRecord>) returns (r: Result<LintSettings, Refusal>)
    ensures r == PersistedLint(jobs)
  {
    for j := 0 to |jobs|
      invariant PersistedLint(jobs) == PersistedLint(jobs[j..])
    {
      assert jobs[j..][1..] == jobs[j + 1..];
      if jobs[j].id != LINT {
        continue;
      }
      match jobs[j].lint {
        case Absent =>
          break;
        case Undecodable =>
          return Failure(UndecodableLintSettings);
        case Decodable(record) =>
          return DecodeLint(record);
      }
    }
    return Failure(NoLintSettings);
  }

  method PersistedIntegritySettings(jobs: seq<JobRecord>) returns (r: Result<IntegritySettings, Refusal>)
    ensures r == PersistedIntegrity(jobs)
  {
    for j := 0 to |jobs|
      invariant PersistedIntegrity(jobs) == PersistedIntegrity(jobs[j..])
    {
      assert jobs[j..][1..] == jobs[j + 1..];
      if jobs[j].id != INTEGRITY || jobs[j].integrity.Absent? {
        continue;
      }
      return if jobs[j].integrity.Undecodable? then Failure(NoIntegritySettings) else Success(jobs[j].integrity.value);
    }
    return Failure(NoIntegritySettings);
  }

  method PersistedProfilerSettings(jobs: seq<JobRecord>) returns (r: Result<ProfilerSettings, Refusal>)
    ensures r == PersistedProfiler(jobs)
  {
    for j := 0 to |jobs|
      invariant PersistedProfiler(jobs) == PersistedProfiler(jobs[j..])
    {
      assert jobs[j..][1..] == jobs[j + 1..];
      if jobs[j].id != PROFILER {
        continue;
      }
      match jobs[j].profiler {
        case Absent =>
          break;
        case Undecodable =>
          return Failure(UndecodableProfilerSettings);
        case Decodable(settings) =>
          return Success(settings);
      }
    }
    return Failure(NoProfilerSettings);
  }

  // ---- The request a rerun makes ----

  const NO_PROFILE: LintProfile := LintProfile([], [], [], "", 0, "", "")
  const NO_LINT: LintSettings := LintSettings(NO_PROFILE, 0, NO_TARGET, [], false)
  const NO_INTEGRITY: IntegritySettings := IntegritySettings([], "", NO_TARGET)
  const NO_PROFILER: ProfilerSettings := ProfilerSettings("", NO_TARGET)

  /** The checks of a rerun: the caller's, or those of the newest run that recorded any. */
  function Selection(results: seq<Stored>, checks: seq<string>): Result<seq<string>, Refusal> {
    var selection := if checks == [] then LatestChecks(results) else Success(checks);
    if selection.Failure? then selection else Normalize(selection.value)
  }

  /**
   * What the searches of one rerun have read. Each search reads results on its own, newest first, so the
   * same result may be read four times and have changed in between; the oldest one read comes first.
   */
  datatype Views = Views(checks: seq<Stored>, lint: seq<Stored>, integrity: seq<Stored>, profiler: seq<Stored>)

  function TargetFor(project: Project, checks: seq<string>,
                     lint: LintSettings, integrity: IntegritySettings, profiler: ProfilerSettings): Target
  {
    if LINT in checks then SavedTarget(lint.target, project)
    else if INTEGRITY in checks then SavedTarget(integrity.target, project)
    else if PROFILER in checks then profiler.target
    else NO_TARGET
  }

  /** What Rerun decides from what it has read. */
  function RerunRequest(project: Project, views: Views, checks: seq<string>): Result<Request, Refusal> {
    var selection := Selection(views.checks, checks);
    if selection.Failure? then Failure(selection.error)
    else
      var selected := selection.value;
      var lint := if LINT in selected then LatestLint(views.lint) else Success(NO_LINT);
      var integrity := if INTEGRITY in selected then LatestIntegrity(views.integrity) else Success(NO_INTEGRITY);
      var profiler := if PROFILER in selected then LatestProfiler(views.profiler) else Success(NO_PROFILER);
      if lint.Failure? then Failure(lint.error)
      else if integrity.Failure? then Failure(integrity.error)
      else if profiler.Failure? then Failure(profiler.error)
      else
        Success(Request(project, selected, TargetFor(project, selected, lint.value, integrity.value, profiler.value),
                        lint.value.profile, lint.value.jobs, lint.value.selected, lint.value.matrixComplete,
                        integrity.value.analyzers, integrity.value.stackPHPVersion, profiler.value.url))
  }
}
