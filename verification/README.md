# Verified model of Govard's audit engine, blueprint tree and build cache

This project models the stateful core of Govard and proves what it is for. It covers the audit job
scheduler, the Composer content-hash codec, the audit store with its diagnostics lease and rerun
history, the acceptance of lint reports and the lint cache, the blueprint union file system, and the
build artifact cache.

Code that updates state step by step is modelled twice. First as the steps of a transition system
(`SchedulerSteps`, `RunAllocation`, `ProfilerLease`, `BuildCache`, `LintCacheMarker`, `RerunHistory`),
over whose runs the theorems quantify: every order of steps, every failed operation, every crash.
Second as a class whose methods do what the source does, in its order (`SchedulerRun.Execution`,
`SessionDirectory.Directory`, `ProfilerJob.Diagnostics`, `BuildCacheDirectory.CacheDirectory`,
`LintCacheMarker.GenerationDirectory`, `SessionRunner.Session`). In the concurrent ones, steps of
others may happen between any two operations. Every change of their fields is proved to be one step of
the transition system where it is made (`Record`, `Take`, `Kept`), so its theorems hold of them.

## What is modelled, and what came out

**Scheduler** (`JobGraph`, `CycleDetection`, `JobValidation`, `BlockedJobs`, `SchedulerSteps`,
`SchedulerRuns`, `Confluence`, `SchedulerRun`). Jobs are nodes of a dependency graph; the loop, the
jobs that end, and the context are interleaved freely. An accepted graph never ends in "could not run
remaining jobs"; without cancellation the final statuses are a function of the graph and of which jobs
succeed.

**Content hash** (`Strings`, `PhpJson`, `PhpJsonReader`, `PhpJsonRoundTrip`, `PhpJsonShape`,
`ContentHash`). The encoder loses nothing but the difference between `{}` and `[]`; from that follows
exactly what the digest can tell apart. Token shapes and escapes follow sections 4, 5 and 7 of
RFC 8259, surrogate pairs sections 2.1 and 2.2 of RFC 2781.

**Run allocation** (`Identifiers`, `RunAllocation`, `SessionDirectory`). The exclusive mkdir makes
`CreateRun` linearizable without a lock. The price is shown too: a session is wedged for good exactly
when some caller has died between its mkdir and its rename (`WedgedIffDeath`), and from then on nobody
is given a run (`NobodyReturnsAfterDeath`).

**Diagnostics lease** (`ProfilerLease`, `ProfilerJob`). One holder at a time, a clean configuration
whenever the lease is absent, and an abandoned lease that stays.

**Reruns** (`RerunSettings`, `RerunHistory`, `RerunWitnesses`, `SessionRunner`). A rerun reads the
manifest, then results one at a time in up to four searches of their own, and only then allocates its
run; any number of reruns and runs interleave between any two of these steps. `CreateRun` is one step
here, at its rename; `RunAllocation` models its own operations. Settings survive any such history.
`Rerun` does not call `validateRequest`, and does not need to: every run of a session with a resolved
target passes it. A target that was never resolved does not survive (`TargetIsKeptIffResolved`, with
`SomeLintRerunAllocates` giving a history for every first request that lints). Every search for
settings stops at the first unreadable result, so a run that dies after `CreateRun` and before its first
`WriteResult` ends the session, provided that no rerun is between its reading of the manifest and its
`CreateRun` (`CrashEndsTheSession`). The proviso is needed: an overtaken rerun allocates behind the dead
run, and reruns are accepted again (`OvertakenRerunRevives`).

**Lint reports and cache** (`LintReport`, `LintAcceptance`, `Recency`, `LintCache`,
`LintCacheMarker`). `sameStringSet` alone can be fooled by duplicates on its right
(`DuplicatesFoolSameSet`), yet no accepted report is affected, even when the policy has duplicates,
since every selected version is also checked to be in the policy (`CompleteMeansPermutation`). Removing
findings overrides any outcome: a result that was an infrastructure error becomes passed when its only
finding was on a generated path (`LostFindingOverridesOutcome`).

**Blueprint tree** (`BlueprintTree`, `BlueprintCoherence`, `BlueprintTheorems`, `DirectoryPages`). The
side conditions are `BlueprintCoherence.Coherent`: distinct one-element framework names that the
fallback root does not have, and distinct existing template names that the fallback's templates
directory does not have. That no mounted file is visible twice needs none of them. A page size near
the largest integer makes `mergedDirFile.ReadDir` wrap around; `PageFailsIff` says exactly when.

**Build cache** (`BuildCacheKey`, `BuildCache`, `BuildCacheSweeps`, `BuildCacheDirectory`). A hit is a
whole copy as long as no store outlives the age at which temporary directories are swept;
`SlowStoreCanTear` gives a run that shows the condition is needed. The exact condition, over every run,
is that everything a store had copied when its directory was last swept was made again by what it copied
afterwards (`EntryIsWholeIff`).

**Where comments and code disagree** the model follows the code. `acceptReport` speaks of
`bootstrap/cache` and `storage/framework`; the filter takes everything below `storage/`, `var/` and
`vendor/` (`LintAcceptance.IsGeneratedPath`). The comment on `buildCacheTempMaxAge` speaks of
interrupted stores; the sweep goes by age alone and also takes the directory of a store that is still
running, which is what `SlowStoreCanTear` turns on. `Rerun` documents that lint policy and target come
from the session; a target that was never resolved is replaced by the project.

`Wrappers` holds the option and result types. Each file starts with a comment naming its source.

## Model

| member | source | states |
|---|---|---|
| JobGraph.RankingExcludesCycles | internal/audit/scheduler.go:204-234 | a topological ranking of the dependency graph rules out every cycle |
| CycleDetection.BackEdgeIsCycle | internal/audit/scheduler.go:208-212 | meeting a job that is still being visited closes a real dependency cycle |
| CycleDetection.MinimalJob | internal/audit/scheduler.go:204-234 | in an acyclic graph every non-empty set of jobs has one that waits for none of the others |
| CycleDetection.OrderGivesRanking | internal/audit/scheduler.go:204-234 | the order in which the search finishes jobs is a topological ranking |
| CycleDetection.Visit | internal/audit/scheduler.go:206-226 | one recursive visit: true only with a cycle, false with the job and everything it waits for finished; ends because each job entered leaves the unvisited set |
| CycleDetection.HasDependencyCycle | internal/audit/scheduler.go:204-234 | true iff the dependency relation has a cycle, false iff it has a topological ranking |
| JobValidation.ValidateJobs | internal/audit/scheduler.go:150-175 | succeeds iff IDs are distinct and each job is sound and fits the budget; an error names a real fault; the ID index and the normalized resources are right |
| JobValidation.ValidateDependencies | internal/audit/scheduler.go:176-182 | reports an unknown dependency iff there is one |
| JobValidation.Validate | internal/audit/scheduler.go:143-183 | accepts exactly the acceptable graphs, and every error it returns describes a fault the input has |
| BlockedJobs.FixpointIsMarkBlocked | internal/audit/scheduler.go:247-268 | a fixpoint reached by cancelling only blocked jobs has cancelled exactly the jobs with a dependency path through pending jobs to one that failed or was cancelled at entry |
| BlockedJobs.MarkBlockedCloses | internal/audit/scheduler.go:247-268 | afterwards no pending job waits for a failed or cancelled one, and marking again changes nothing |
| BlockedJobs.MarkBlockedPass | internal/audit/scheduler.go:249-266 | a pass that reports no change leaves nothing to cancel, one that reports a change lowers the set of pending jobs |
| BlockedJobs.MarkBlockedJobsCancelled | internal/audit/scheduler.go:247-268 | ends, cancels exactly the blocked pending jobs and changes nothing else |
| BlockedJobs.MarkPendingCancelled | internal/audit/scheduler.go:270-276 | cancels exactly the pending jobs |
| SchedulerSteps.LoadUpdate | internal/audit/scheduler.go:81-87 | changing one status changes the running count and the resource sums by that job's share |
| SchedulerSteps.ReceiveKeepsInv | internal/audit/scheduler.go:121-139 | receiving a completion releases what its job held and keeps the accounting, the channel and the started jobs in agreement |
| SchedulerSteps.ScanKeepsInv | internal/audit/scheduler.go:101-113 | considering a job keeps the allocation within budget; while nothing runs a job that is passed over was not ready |
| SchedulerRuns.StepKeepsInv | internal/audit/scheduler.go:71-141 | every step of the loop, a job or the context keeps the scheduler's invariant |
| SchedulerRuns.NothingRunningMeansDone | internal/audit/scheduler.go:115-120 | with nothing running after a scan of an acyclic graph every job is terminal |
| SchedulerRuns.NeverStuck | internal/audit/scheduler.go:96-141 | for every accepted graph, completion order and cancellation point the "could not run remaining jobs" error is unreachable, and a return has every job terminal |
| SchedulerRuns.BudgetSafety | internal/audit/scheduler.go:72-126 | running and allocated are the count and the sum of the running jobs, never exceed the budget, and no sum or difference leaves the machine's integer |
| SchedulerRuns.StartsAreSafe | internal/audit/scheduler.go:76-113 | a job starts at most once, and only after all its transitive dependencies finished Passed |
| SchedulerRuns.RunIsMonotone | internal/audit/scheduler.go:96-141 | a terminal status never changes, and no job starts once the loop has seen the cancellation |
| SchedulerRuns.ChannelNeverFull | internal/audit/scheduler.go:71-93 | no sender ever blocks on the result channel, and at most one completion is received per start |
| SchedulerRuns.AwaitedJobExists | internal/audit/scheduler.go:121-122 | the loop only waits while a started job is executing or its completion has arrived |
| SchedulerRuns.AlwaysAStep | internal/audit/scheduler.go:96-141 | until Run returns some step is possible: the loop's own or the end of a job it waits for |
| SchedulerRuns.RunsEnd | internal/audit/scheduler.go:96-141 | no run is longer than (n + 3)(n + 4) steps, and one that cannot go on has returned with every job terminal |
| Confluence.CancelledHasFailureUpstream | internal/audit/scheduler.go:236-268 | without cancellation of the context a cancelled job has a failing job upstream |
| Confluence.FinishedAsFixed | internal/audit/scheduler.go:76-141 | a job ends Passed iff it and everything upstream succeed, Failed iff only it fails, Cancelled otherwise |
| Confluence.RunsAgree | internal/audit/scheduler.go:76-141 | any two finished undisturbed runs agree, whatever the completion order and the accepted budgets |
| SchedulerRun.Execution.Dispatch | internal/audit/scheduler.go:96-113 | the head of the loop takes only steps of the transition system, with jobs ending and the context cancelled in between |
| SchedulerRun.Execution.ConsiderJob | internal/audit/scheduler.go:102-113 | one round of the scan starts the job iff it is pending, ready and fits |
| SchedulerRun.Execution.TakeCompletion | internal/audit/scheduler.go:121-139 | the received completion is accounted for exactly as the transition system says |
| SchedulerRun.Execution.Loop | internal/audit/scheduler.go:96-141 | the loop ends after at most one receive per job, in a state of a run that has returned or is stuck |
| SchedulerRun.Run | internal/audit/scheduler.go:43-141 | fails only for a fault of the input, never for leftovers; otherwise every status is terminal and, undisturbed, the one the graph fixes |
| Strings.SortSorts | internal/audit/integrity_composer_hash.go:112 | the sort used for keys and listings sorts |
| PhpJson.LookupAfterSet | internal/audit/integrity_composer_hash.go:100-110 | after setting a key exactly that key has the new value |
| PhpJson.SetField | internal/audit/integrity_composer_hash.go:100-105 | a known key keeps its place, a new one goes last |
| PhpJson.PhpObject.Set | internal/audit/integrity_composer_hash.go:100-105 | the object's ordered fields change as `SetField` says |
| PhpJson.PhpObject.SortKeys | internal/audit/integrity_composer_hash.go:112 | the fields are the same, in the order of their keys |
| PhpJson.WriteChar | internal/audit/integrity_composer_hash.go:242-273 | the buffer grows by exactly the escape of the character |
| PhpJson.WriteString | internal/audit/integrity_composer_hash.go:240-276 | the buffer grows by exactly the quoted string |
| PhpJson.WriteNumber | internal/audit/integrity_composer_hash.go:281-297 | the buffer grows by exactly the number's rendering |
| PhpJson.WriteValue | internal/audit/integrity_composer_hash.go:182-235 | the recursive encoder appends exactly the encoding of the value |
| PhpJsonReader.Decoder.Token | internal/audit/integrity_composer_hash.go:129-133 | the decoder's next token and its new state are those of the token function |
| PhpJsonReader.DecodePhpValue | internal/audit/integrity_composer_hash.go:129-178 | the recursive reader returns what `DecodeValue` describes, errors included |
| PhpJsonReader.ParsePhpJson | internal/audit/integrity_composer_hash.go:115-127 | returns the value of the whole text, or the error, trailing content included |
| PhpJsonRoundTrip.HexRoundTrip | internal/audit/integrity_composer_hash.go:262-271 | four hex digits read back as the code unit they were written for |
| PhpJsonRoundTrip.PairRoundTrip | internal/audit/integrity_composer_hash.go:266-269 | a surrogate pair reads back as its character |
| PhpJsonRoundTrip.EscapeRoundTrip | internal/audit/integrity_composer_hash.go:242-273 | every character's escape reads back as the character and leaves the rest |
| PhpJsonRoundTrip.StringRoundTrip | internal/audit/integrity_composer_hash.go:240-276 | every written string reads back, whatever follows it |
| PhpJsonRoundTrip.NumberRoundTrip | internal/audit/integrity_composer_hash.go:278-285 | an integer literal reads back to its last digit and no further |
| PhpJsonRoundTrip.ValueRoundTrip | internal/audit/integrity_composer_hash.go:115-276 | inside any array or object an encoded value reads back and leaves the reader in the state after a value |
| PhpJsonRoundTrip.FieldsRoundTrip | internal/audit/integrity_composer_hash.go:182-220 | encoded fields are appended, in order, to those read before them |
| PhpJsonRoundTrip.RoundTrip | internal/audit/integrity_composer_hash.go:115-276 | parsing the encoding of a value gives the value with each empty object read as an empty list |
| PhpJsonRoundTrip.EncodingOfNormal | internal/audit/integrity_composer_hash.go:182-235 | reading `{}` as `[]` anywhere does not change the encoding |
| PhpJsonRoundTrip.EncodingIsInjective | internal/audit/integrity_composer_hash.go:182-276 | two values have the same encoding iff they are equal up to `{}` and `[]` |
| PhpJsonShape.EscapeShape | internal/audit/integrity_composer_hash.go:240-276 | each character becomes itself, a two-character escape, one `\u` with exactly four hex digits, or a pair of them beyond 16 bits |
| PhpJsonShape.EncodingIsAscii | internal/audit/integrity_composer_hash.go:182-276 | the output is pure ASCII |
| PhpJsonShape.ParsedIsCanonical | internal/audit/integrity_composer_hash.go:115-178 | whatever text was parsed, its objects have distinct keys, so the codec theorems apply to it when its numbers are integers |
| PhpJsonShape.ReparseIsNormal | internal/audit/integrity_composer_hash.go:115-276 | parsing, encoding and parsing again only turns empty objects into empty lists |
| ContentHash.ContentHashInput | internal/audit/integrity_composer_hash.go:43-78 | the bytes handed to the digest, or the error, are those of the specification |
| ContentHash.SameInputSameView | internal/audit/integrity_composer_hash.go:43-78 | equal bytes mean equal values at every hashed key and at config.platform |
| ContentHash.SameViewSameInput | internal/audit/integrity_composer_hash.go:43-78 | equal values there mean equal bytes |
| ContentHash.DigestSeesExactlyTheView | internal/audit/integrity_composer_hash.go:36-78 | two manifests with integer literals where the digest looks give the digest the same bytes iff they agree at the hashed keys and at config.platform as ordered values with `{}` read as `[]` |
| ContentHash.TopLevelOrderIsNotSeen | internal/audit/integrity_composer_hash.go:53-72 | reordering the top level never changes the bytes |
| ContentHash.NestedOrderIsSeen | internal/audit/integrity_composer_hash.go:87-112 | a different key order inside a hashed object always does |
| Identifiers.RunIDIsValid | internal/audit/store.go:139-145 | every generated run ID passes validateID |
| Identifiers.RunIDIsInjective | internal/audit/store.go:139-142 | different run numbers never share an ID, beyond four digits too |
| Identifiers.OwnerIsInjective | internal/audit/profiler.go:67 | lease owners of different runs or sessions differ |
| RunAllocation.StepKeepsInv | internal/audit/store.go:134-162 | every file operation of any caller keeps the session in order and its manifest a prefix of the next |
| RunAllocation.ManifestOnlyGrows | internal/audit/store.go:134-162 | in every interleaving with crashes anywhere the manifest is whole, lists runs 1..k in order and never shrinks or loses an update |
| RunAllocation.ReturnedRunsAreListedAndDistinct | internal/audit/store.go:134-162 | a returned run stays listed, and no two callers receive the same ID |
| RunAllocation.WedgedForever | internal/audit/store.go:134-162 | a session whose next directory nobody holds stays that way, and its manifest never changes again |
| RunAllocation.WedgedIffDeath | internal/audit/store.go:152-160 | a reachable session is in that state iff some caller failed or was killed between its mkdir and its rename |
| RunAllocation.NobodyReturnsAfterDeath | internal/audit/store.go:152-160 | after such a death no caller is given a run that it did not have by then |
| RunAllocation.UndisturbedCallSucceedsIff | internal/audit/store.go:134-162 | an undisturbed call returns the next run and publishes it iff that run's directory does not exist yet, and is refused otherwise |
| SessionDirectory.Directory.WriteManifest | internal/audit/store.go:433-464 | success puts the whole new manifest in place; whatever fails, the manifest stays whole |
| SessionDirectory.Directory.CreateRun | internal/audit/store.go:134-162 | a successful call appended its run to everything listed before, under an ID nobody else was given |
| ProfilerLease.StepKeepsInv | internal/audit/profiler.go:61-112 | every step of any profiler job keeps lease, configuration and jobs in agreement |
| ProfilerLease.OneHolder | internal/audit/store.go:219-262 | at most one job is between a successful acquire and its release, and the lease names it |
| ProfilerLease.AbsentLeaseMeansClean | internal/audit/profiler.go:71-86 | whenever the lease file is absent no activated configuration is left unrestored |
| ProfilerLease.ReleaseRemovesOwnLease | internal/audit/store.go:264-285 | when a job removes the lease it is its own, over a restored configuration |
| ProfilerLease.AbandonedLeaseStays | internal/audit/profiler.go:72-86 | a failed restore, or death while holding, leaves the lease for good and no later job activates |
| ProfilerLease.OnlyHolderTouchesConfiguration | internal/audit/profiler.go:88-90 | only the lease holder activates or restores, and nothing else changes what is activated |
| ProfilerJob.Diagnostics.Acquire | internal/audit/store.go:219-262 | success means this job's whole record is the lease over a clean configuration |
| ProfilerJob.Diagnostics.Release | internal/audit/store.go:264-285 | success means no lease and a clean configuration; failure leaves the lease |
| ProfilerJob.Diagnostics.CleanUp | internal/audit/profiler.go:71-86 | the deferred block either restores and releases and leaves the report alone, or adds its fault and leaves the lease |
| ProfilerJob.Diagnostics.RunJob | internal/audit/profiler.go:61-134 | a job without errors stored its artifact and gave the lease back; a cleanup fault comes last and is an infrastructure error even after a cancellation; other faults are one unless cancelled |
| RerunSettings.NormalizeChecks | internal/audit/runner.go:609-626 | refuses exactly selections with an unknown check, and otherwise returns the specification's list |
| RerunSettings.FirstSeenIsTheSet | internal/audit/runner.go:607-626 | normalizing loses, adds and repeats nothing |
| RerunSettings.FirstSeenKeepsOrder | internal/audit/runner.go:607-626 | what the first checks name stays in front: the caller's first-seen order |
| RerunSettings.SavedTarget | internal/audit/runner.go:693-703 | a saved target is kept iff it was resolved |
| RerunSettings.StoredSettingsSurvive | internal/audit/runner.go:674-739 | lint settings survive storing and reading iff no repair for older versions applies |
| RerunSettings.RepairedOnce | internal/audit/runner.go:722-735 | settings of an older version are repaired once and then survive unchanged |
| RerunSettings.PersistedLintSettings | internal/audit/runner.go:705-739 | the lint job's settings, repaired where an older version stored them, or why there are none |
| RerunSettings.PersistedIntegritySettings | internal/audit/runner.go:793-813 | the first integrity job's settings that are there, or none |
| RerunSettings.PersistedProfilerSettings | internal/audit/runner.go:756-776 | the profiler job's settings, or why there are none |
| RerunHistory.LintFound | internal/audit/runner.go:741-754 | lint settings are found iff some run left them and every newer result is readable, and are the first request's |
| RerunHistory.IntegrityFound | internal/audit/runner.go:793-826 | the same for integrity settings |
| RerunHistory.ProfilerFound | internal/audit/runner.go:756-791 | the same for profiler settings |
| RerunHistory.OmittedSelectionRepeats | internal/audit/runner.go:145-157 | of the results it reads, an omitted selection repeats exactly that of the newest run whose jobs were scheduled |
| RerunHistory.RerunFollows | internal/audit/runner.go:125-201 | whatever its searches have read and when, a rerun can allocate iff its selection is accepted and each selected check's search has come upon settings with only readable results before them; it then audits what the first request audited |
| RerunHistory.StepKeepsInv | internal/audit/runner.go:125-319 | every read, allocation and write of any rerun or run keeps the session's results those of the first request |
| RerunHistory.RerunsAreStable | internal/audit/runner.go:125-201 | in every history, with reruns overtaking each other between any two reads and crashing anywhere, every run has the first run's settings and resolved target and passes the validation only Run makes |
| RerunHistory.UnselectedCheckIsRefused | internal/audit/runner.go:157-187 | a rerun of a check that the first run did not select never gets to its CreateRun |
| RerunHistory.TargetIsKeptIffResolved | internal/audit/runner.go:693-703 | a later run that lints or checks integrity has the first target iff that was resolved |
| RerunHistory.OnlyOvertakenAllocate | internal/audit/runner.go:145-201 | while the newest run has no result file, only a rerun that read the manifest before that run was in it can allocate |
| RerunHistory.CrashEndsTheSession | internal/audit/runner.go:272-297 | after a run died before its first result, and with no rerun between its reading of the manifest and its CreateRun, the session never gets another run unless that run still writes |
| RerunWitnesses.SomeLintRerunAllocates | internal/audit/runner.go:125-201 | for every first request that lints some history has a second run that lints, with another target exactly when the first one's was never resolved |
| RerunWitnesses.OvertakenRerunRevives | internal/audit/runner.go:145-297 | for every first request that lints some history has a rerun overtaken by a run that dies, which allocates behind it and makes reruns accepted again |
| SessionRunner.ResultStatus | internal/audit/runner.go:628-647 | passed iff not cancelled, no error and every job passed; cancellation beats an error; else the first job that did not pass decides |
| SessionRunner.Session.LatestRunChecks | internal/audit/runner.go:223-240 | the newest recorded selection among the results as they are read one by one, or the error of the first unreadable one |
| SessionRunner.Session.LatestLintSettings | internal/audit/runner.go:741-754 | the newest lint settings among the results as they are read one by one, with errors ending the search |
| SessionRunner.Session.LatestIntegritySettings | internal/audit/runner.go:815-826 | the newest integrity settings among the results as they are read one by one, with undecodable ones skipped |
| SessionRunner.Session.LatestProfilerSettings | internal/audit/runner.go:778-791 | the newest profiler settings among the results as they are read one by one, with errors ending the search |
| SessionRunner.Session.RunInSession | internal/audit/runner.go:272-319 | the result is persisted pending and then final, with a failure or death before either and anything of others in between; the run keeps its request |
| SessionRunner.Session.Rerun | internal/audit/runner.go:125-201 | with anything between any two of its operations: accepted iff each check's search came upon settings in what it read, then adding a run of its own with the first request's settings |
| LintReport.SameStrings | internal/audit/lint.go:307-324 | decides what `SameStringSet` describes: equal lengths, no duplicates on the left, the right contained in the left |
| LintReport.SameSetIsPermutation | internal/audit/lint.go:307-324 | for a duplicate-free right side that is being a permutation |
| LintReport.DuplicatesFoolSameSet | internal/audit/lint.go:307-324 | with duplicates on the right it is not |
| LintReport.ValidateMatrix | internal/audit/lint.go:216-239 | accepts exactly the sound matrices |
| LintReport.Aggregate | internal/audit/lint.go:252-284 | the worst outcome wins, with no aggregate for an empty list or an unknown outcome |
| LintReport.ValidateResults | internal/audit/lint.go:181-209 | accepts exactly the complete, duplicate-free and well-formed results |
| LintReport.ValidateReport | internal/audit/lint.go:146-214 | accepts exactly the sound reports |
| LintReport.ResultsAreAPermutation | internal/audit/lint.go:146-214 | the results of an accepted report are a duplicate-free permutation of the selected versions |
| LintReport.CompleteMeansPermutation | internal/audit/lint.go:216-239 | an accepted standalone report is complete iff its selection is a permutation of the policy |
| LintAcceptance.FilterGenerated | internal/audit/lint_govard.go:459-482 | each result loses exactly its findings on generated paths; reports a loss iff there is one |
| LintAcceptance.PartitionLimitations | internal/audit/lint_govard.go:522-547 | each result loses exactly its tooling limitations; returns how many |
| LintAcceptance.ReclassifyPhases | internal/audit/lint_govard.go:549-572 | exactly the failed tool phases without a finding of their tool become errors |
| LintAcceptance.ApplyPrefix | internal/audit/lint_govard.go:413-432 | exactly the ids with the toolchain's prefix are renamed |
| LintAcceptance.AcceptReport | internal/audit/lint_govard.go:364-401 | accepts iff every check passes and, when no finding was lost, the exit code confirms the status; the status still is the aggregate of the outcomes |
| LintAcceptance.KeepTwice | internal/audit/lint_govard.go:389-390 | the two filters together keep, in order, exactly the actionable findings |
| LintAcceptance.KeepPartitions | internal/audit/lint_govard.go:507-520 | findings off generated paths split into actionable ones and counted limitations |
| LintAcceptance.FindingsAreConserved | internal/audit/lint_govard.go:459-539 | findings are the originals in order minus exactly generated paths and limitations; the limitation count and the outcome follow from what was lost |
| LintAcceptance.ProcessedIsConservedAndRenamed | internal/audit/lint_govard.go:364-401 | reclassifying and renaming change neither outcomes nor counts nor which findings are left |
| LintAcceptance.LostFindingOverridesOutcome | internal/audit/lint_govard.go:459-482 | a result whose only finding was on a generated path is passed, whatever its outcome was |
| Recency.Stale | internal/audit/lint_govard.go:886-892 | names all but the most recently used items, none of them used later than one that stays |
| LintCache.PruneGenerations | internal/audit/lint_govard.go:864-893 | spares the current generation and those used within the grace hour, and removes only the least recently used of the others |
| LintCacheMarker.CutMarker | internal/audit/lint_govard.go:845-853 | a marker cut off anywhere records its fingerprint or none |
| LintCacheMarker.StepKeepsInv | internal/audit/lint_govard.go:840-857 | every file operation keeps the marker and the analyzer state in agreement |
| LintCacheMarker.AnalyzerStateIsCoherent | internal/audit/lint_govard.go:840-857 | over any sequence of runs with crashes anywhere, analyzer state was written only under the fingerprint the marker records, and a run meets only its own |
| LintCacheMarker.GenerationDirectory.SyncCacheInputs | internal/audit/lint_govard.go:840-857 | every way out leaves a coherent directory; success leaves only state of this fingerprint, and an unchanged fingerprint keeps all of it |
| BlueprintTree.DirMountFrom | internal/blueprints/blueprints.go:104-122 | the mount that owns a path and the path inside it, with the mount's template left out |
| BlueprintTree.TemplateMountFrom | internal/blueprints/blueprints.go:124-141 | the mount whose template has the name, or none has |
| BlueprintCoherence.DirMountIs | internal/blueprints/blueprints.go:104-122 | a path below a framework belongs to that framework's mount |
| BlueprintCoherence.MountedChild | internal/blueprints/blueprints.go:104-177 | below a mount Stat finds a child exactly where the mount has it, except the template |
| BlueprintCoherence.TemplatesChild | internal/blueprints/blueprints.go:144-163 | in the templates directory Stat finds exactly the fallback's children and the mounted templates |
| BlueprintTheorems.MergedListing | internal/blueprints/blueprints.go:454-470 | merging a sorted listing with new distinct names is sorted and duplicate-free and loses nothing |
| BlueprintTheorems.ReadDirAgreesWithStat | internal/blueprints/blueprints.go:416-504 | ReadDir succeeds iff Stat says directory, and lists sorted and without duplicates exactly the names for which Stat succeeds, with the right kinds |
| BlueprintTheorems.OpenAgreesWithStat | internal/blueprints/blueprints.go:354-504 | Open succeeds iff Stat does |
| BlueprintTheorems.VisibleOnce | internal/blueprints/blueprints.go:354-402 | a file of a mount is visible at no more than one path, for all mounts |
| BlueprintTheorems.MountedFileIsVisible | internal/blueprints/blueprints.go:354-402 | each mounted file other than the template is visible under its framework |
| BlueprintTheorems.TemplateIsVisible | internal/blueprints/blueprints.go:124-141 | each template is visible in the templates directory |
| DirectoryPages.MergedDirFile.ReadDir | internal/blueprints/blueprints.go:531-547 | one read returns the page and moves the offset as `ReadPage` says, in 64-bit arithmetic |
| DirectoryPages.PageFailsIff | internal/blueprints/blueprints.go:531-547 | the slice expression panics iff entries are left and offset plus size passes the largest integer |
| DirectoryPages.PagesPartitionListing | internal/blueprints/blueprints.go:531-547 | whatever the page sizes, the pages followed by what is left are the listing |
| DirectoryPages.PagesMakeProgress | internal/blueprints/blueprints.go:531-547 | a positive page size below the wrap-around makes progress or is at the end |
| BuildCacheKey.HashedBytes | internal/cmd/deploy_build_cache.go:65-71 | the bytes hashed are the framed fields in the source's order |
| BuildCacheKey.PreimageIsInjective | internal/cmd/deploy_build_cache.go:63-71 | equal preimages come from equal fields: no field boundary can be shifted |
| BuildCacheKey.KeysAreToldApart | internal/cmd/deploy_build_cache.go:45-71 | keys have the same preimage iff all eight fields are equal |
| BuildCache.CopyAddsItem | internal/cmd/deploy_build_cache.go:195-227 | each step of the copy adds exactly the item the walk has reached |
| BuildCache.StepKeepsInv | internal/cmd/deploy_build_cache.go:91-172 | every operation of any store, lookup or prune keeps entries whole and temporaries true to their stores |
| BuildCache.HitIsWhole | internal/cmd/deploy_build_cache.go:91-172 | while no store outlives the temporary age a hit is a whole copy of a tree that a finished build stored under that name |
| BuildCache.SlowStoreCanTear | internal/cmd/deploy_build_cache.go:145-172 | a store that takes longer can be swept halfway and publish a torn copy that a lookup accepts |
| BuildCacheSweeps.RestIsWholeIff | internal/cmd/deploy_build_cache.go:195-227 | copying the rest of a walk into an empty directory makes the whole tree iff everything before is a directory, or an item, made again |
| BuildCacheSweeps.ReachableCopy | internal/cmd/deploy_build_cache.go:110-172 | in every run a temporary directory holds exactly what was copied since it was last swept |
| BuildCacheSweeps.EntryIsWholeIff | internal/cmd/deploy_build_cache.go:91-172 | in every run an entry is a whole copy of what its store was given iff what was lost in the last sweep was made again |
| BuildCacheDirectory.SelectPruned | internal/cmd/deploy_build_cache.go:145-172 | sweeps exactly the temporary directories older than an hour and removes all but the three most recently used entries |
| BuildCacheDirectory.PruningOf | internal/cmd/deploy_build_cache.go:145-172 | what is selected from a listing of the directory is a prune that can be taken: every temporary directory older than an hour, and all but the three most recently used entries |
| BuildCacheDirectory.CacheDirectory.CopyTree | internal/cmd/deploy_build_cache.go:195-227 | copies the walk item by item, or gives up |
| BuildCacheDirectory.CacheDirectory.StoreBuild | internal/cmd/deploy_build_cache.go:110-143 | success means a whole copy is under the name, and a published one is the given tree |
| BuildCacheDirectory.CacheDirectory.PruneEntries | internal/cmd/deploy_build_cache.go:145-172 | takes exactly that prune |
| BuildCacheDirectory.CacheDirectory.Lookup | internal/cmd/deploy_build_cache.go:91-108 | a hit returns the tree of some finished build stored under the name |

## Left out

- Docker, git, ssh, HTTP, nginx, the command line and the desktop front end: input and output with nothing to prove.
- `internal/deploy`, `internal/engine` and `internal/frameworks`: not part of this model, nor the deploy plan built on them.
- MD5 and SHA-256: the theorems are about the bytes handed to them.
- Decimal numbers: `writePHPJSONNumber` renders them by Go's float formatting, which is a parameter; the codec theorems are about integer literals.
- JSON text is a sequence of Unicode scalar values, so invalid UTF-8 is not modelled; Go's tokenizer is modelled from RFC 8259 with the decoder's own token states.
- Evidence, timestamps and durations of scheduled jobs: the scheduler only copies them.
- Session creation and cleanup, `validateID` failures and lease record contents other than the owner.
- The audit lock of `internal/cmd/audit_target.go`: breaking a stale lock is two steps, so it excludes nobody.
- `sourceOverlayFS`: it depends on host file errors.
- A session whose first run died before its `CreateRun` has no run, and `Rerun` refuses it at once; histories begin after that.
- LintAcceptance.FilterGenerated: a result's findings are a value, so that `findings[:0]` reuses the storage of the slice it came from is not modelled; the slice of results is updated in place.
- LintAcceptance.AcceptReport: decoding the file and quarantining a rejected report are left out.
- LintReport.ValidateReport: the text of the errors, and which identity field differs, are left out.
- BuildCache.StepKeepsInv: symbolic links, file modes and a directory removal that is interrupted halfway are not modelled; a prune is one step and removes whole directories.
- LintCache.PruneGenerations: a generation that cannot be removed is not modelled; it stays.
- BuildCacheDirectory.CacheDirectory.PruneEntries: a removal that fails is not modelled; it leaves its directory in place.
- Strings.SortSorts: Go compares UTF-8 bytes, which orders valid strings as their code points are ordered here.
- RerunSettings.NormalizeChecks: `strings.TrimSpace` is modelled on ASCII blanks.
- The fingerprint and cache-key inputs (`cacheFingerprint`, `sandboxBuildCacheKey`): only what is done with the result is modelled.
