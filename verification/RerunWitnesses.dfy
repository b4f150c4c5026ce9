/** Histories of a session that show what the theorems of RerunHistory cannot promise. */
module RerunWitnesses {
  import opened Wrappers
  import opened RerunSettings
  import opened RerunHistory

  /** The records of a run whose lint job ran and whose other jobs never started. */
  function LintRan(r: Request): (jobs: seq<JobRecord>)
    ensures |jobs| == |r.checks|
    ensures forall j :: 0 <= j < |jobs| ==>
              jobs[j] == JobRecord(r.checks[j], if r.checks[j] == LINT then Decodable(LintEvidence(r))
                  else Absent, Absent, Absent)
  {
    seq(|r.checks|, j requires 0 <= j < |r.checks| =>
      JobRecord(r.checks[j], if r.checks[j] == LINT then Decodable(LintEvidence(r)) else Absent, Absent, Absent))
  }

  lemma LintRanLeaves(r: Request)
    requires LINT in r.checks
    ensures AreRecordsOf(r, LintRan(r)) && LeavesSome(LintRan(r), LINT)
  {
    var j :| 0 <= j < |r.checks| && r.checks[j] == LINT;
    assert Leaves(LintRan(r)[j], LINT);
  }

  /** One more step of a history. */
  lemma Extend(isURL: string -> bool, first: Request, states: seq<State>, steps: seq<Step>, step: Step)
    returns (longer: seq<State>, more: seq<Step>, s: State)
    requires ValidRequest(isURL, first) && IsHistory(first, states, steps)
    requires Enabled(first.project, states[|steps|], step)
    ensures more == steps + [step] && s == Next(first.project, states[|steps|], step)
    ensures longer == states + [s] && IsHistory(first, longer, more) && longer[|more|] == s
    ensures Inv(first, s)
  {
    s := Next(first.project, states[|steps|], step);
    longer, more := states + [s], steps + [step];
    ReachableInv(isURL, first, longer, more, |more|);
  }

  /** A lint rerun that has just read the settings some run left. */
  lemma LintsAgain(isURL: string -> bool, first: Request, s: State, who: nat, jobs: seq<JobRecord>)
    requires ValidRequest(isURL, first) && Inv(first, s) && who in s.reruns
    requires s.reruns[who].checks == [LINT] && s.reruns[who].views == Views([], [Written(jobs)], [], [])
    requires LeavesSome(jobs, LINT)
    ensures Decided(first.project, s.reruns[who]).Success?
    ensures Decided(first.project, s.reruns[who]).value.checks == [LINT]
    ensures Decided(first.project, s.reruns[who]).value.target == SavedTarget(first.target, first.project)
  {
    var r := s.reruns[who];
    ValidIsSettled(isURL, first);
    SelectsLint();
    LintIsFound(jobs);
    AcceptedIffFound(first, s.runs, r);
    AcceptedFollows(first, s.runs, r);
  }

  lemma SelectsLint()
    ensures Selection([], [LINT]) == Success([LINT])
  {
    NormalizedStays([LINT]);
  }

  lemma LintIsFound(jobs: seq<JobRecord>)
    requires LeavesSome(jobs, LINT)
    ensures HasFound(Views([], [Written(jobs)], [], []), LINT)
  {
    assert FoundAt([Written(jobs)], LINT, 0);
  }

  /** A run that has just been allocated lints and writes its pending and its final result. */
  lemma LintRunFinishes(isURL: string -> bool, first: Request, states: seq<State>, steps: seq<Step>, run: nat)
    returns (longer: seq<State>, more: seq<Step>, s: State)
    requires ValidRequest(isURL, first) && IsHistory(first, states, steps)
    requires run < |states[|steps|].runs| && states[|steps|].runs[run].stored.Missing?
    requires LINT in states[|steps|].runs[run].request.checks
    ensures IsHistory(first, longer, more) && longer[|more|] == s && Inv(first, s)
    ensures more == steps + [WritePending(run), WriteFinal(run, LintRan(states[|steps|].runs[run].request))]
    ensures longer[..|states|] == states && s.reruns == states[|steps|].reruns
    ensures var r := states[|steps|].runs[run].request;
            s.runs == states[|steps|].runs[run := Run(r, Written(LintRan(r)))] && LeavesSome(LintRan(r), LINT)
  {
    var r := states[|steps|].runs[run].request;
    LintRanLeaves(r);
    longer, more, s := Extend(isURL, first, states, steps, WritePending(run));
    longer, more, s := Extend(isURL, first, longer, more, WriteFinal(run, LintRan(r)));
  }

  /** The first run has linted and written its results. */
  lemma FirstHasLinted(isURL: string -> bool, first: Request) returns (states: seq<State>, steps: seq<Step>)
    requires ValidRequest(isURL, first) && LINT in first.checks
    ensures IsHistory(first, states, steps)
    ensures states[|steps|] == State([Run(first, Written(LintRan(first)))], map[])
  {
    var s;
    states, steps := [Init(first)], [];
    states, steps, s := LintRunFinishes(isURL, first, states, steps, 0);
  }

  /** The session after a lint rerun has read the manifest and the newest result. */
  ghost predicate HasReadNewest(t: State, s: State, who: nat)
    requires t.runs != []
  {
    && s.runs == t.runs && s.reruns.Keys == t.reruns.Keys + {who}
    && (forall other :: other in t.reruns && other != who ==> s.reruns[other] == t.reruns[other])
    && s.reruns[who] == Rerun([LINT], |t.runs|, Views([], [t.runs[|t.runs| - 1].stored], [], []))
  }

  lemma ReadsNewest(project: Project, t: State, who: nat)
    requires t.runs != [] && who !in t.reruns
    ensures Enabled(project, t, ReadManifest(who, [LINT]))
    ensures var read := Next(project, t, ReadManifest(who, [LINT]));
            && Enabled(project, read, ReadResult(who, ForLint))
            && HasReadNewest(t, Next(project, read, ReadResult(who, ForLint)), who)
  {
    assert [t.runs[|t.runs| - 1].stored] + [] == [t.runs[|t.runs| - 1].stored];
  }

  /** A lint rerun reads the manifest and the newest result. */
  lemma LintRerunReads(isURL: string -> bool, first: Request, states: seq<State>, steps: seq<Step>, who: nat)
    returns (longer: seq<State>, more: seq<Step>, s: State)
    requires ValidRequest(isURL, first) && IsHistory(first, states, steps)
    requires who !in states[|steps|].reruns && states[|steps|].runs != []
    ensures IsHistory(first, longer, more) && longer[|more|] == s && Inv(first, s)
    ensures more == steps + [ReadManifest(who, [LINT])] + [ReadResult(who, ForLint)]
    ensures longer[..|states|] == states
    ensures HasReadNewest(states[|steps|], s, who)
  {
    ReadsNewest(first.project, states[|steps|], who);
    var read, taken, _ := Extend(isURL, first, states, steps, ReadManifest(who, [LINT]));
    longer, more, s := Extend(isURL, first, read, taken, ReadResult(who, ForLint));
  }

  /**
   * Whatever the first request that lints, some history has a second run that lints; its target is the
   * first one's exactly when that was resolved, and the project itself otherwise.
   */
  lemma SomeLintRerunAllocates(isURL: string -> bool, first: Request) returns (states: seq<State>, steps: seq<Step>)
    requires ValidRequest(isURL, first) && LINT in first.checks
    ensures IsHistory(first, states, steps) && |states[|steps|].runs| == 2
    ensures var r := states[|steps|].runs[1].request;
            && r.checks == [LINT]
            && r.target == SavedTarget(first.target, first.project)
            && (r.target != first.target <==> !Resolved(first.target))
  {
    var s;
    LintRanLeaves(first);
    ValidIsSettled(isURL, first);
    states, steps := FirstHasLinted(isURL, first);
    states, steps, s := LintRerunReads(isURL, first, states, steps, 0);
    LintsAgain(isURL, first, s, 0, LintRan(first));
    states, steps, s := Extend(isURL, first, states, steps, Allocate(0));
  }

  /** Two lint reruns have read the first run's result; the second allocates its run and dies. */
  lemma OvertakenByACrash(isURL: string -> bool, first: Request) returns (states: seq<State>, steps: seq<Step>)
    requires ValidRequest(isURL, first) && LINT in first.checks
    ensures IsHistory(first, states, steps)
    ensures var s := states[|steps|];
            && |s.runs| == 2 && s.runs[1].stored.Missing? && s.reruns.Keys == {1} && Overtaken(s, 1)
            && s.reruns[1] == Rerun([LINT], 1, Views([], [Written(LintRan(first))], [], []))
  {
    var s;
    LintRanLeaves(first);
    states, steps := FirstHasLinted(isURL, first);
    states, steps, s := LintRerunReads(isURL, first, states, steps, 1);
    states, steps, s := LintRerunReads(isURL, first, states, steps, 2);
    LintsAgain(isURL, first, s, 2, LintRan(first));
    states, steps, s := Extend(isURL, first, states, steps, Allocate(2));
  }

  /** The overtaken rerun allocates its run behind the dead one. */
  lemma OvertakenAllocates(isURL: string -> bool, first: Request)
    returns (states: seq<State>, steps: seq<Step>, crash: nat, s: State)
    requires ValidRequest(isURL, first) && LINT in first.checks
    ensures IsHistory(first, states, steps) && |steps| == crash + 1 && steps[crash] == Allocate(1)
        && s == states[|steps|]
    ensures NewestIsMissing(states[crash]) && |states[crash].runs| == 2 && Overtaken(states[crash], 1)
    ensures |s.runs| == 3 && s.runs[1].stored.Missing? && s.reruns.Keys == {}
    ensures s.runs[2].stored.Missing? && s.runs[2].request.checks == [LINT]
  {
    LintRanLeaves(first);
    states, steps := OvertakenByACrash(isURL, first);
    crash := |steps|;
    ReachableInv(isURL, first, states, steps, crash);
    LintsAgain(isURL, first, states[crash], 1, LintRan(first));
    states, steps, s := Extend(isURL, first, states, steps, Allocate(1));
  }

  /** Its run lints and writes its results. */
  lemma OvertakenRunsOn(isURL: string -> bool, first: Request)
      returns (states: seq<State>, steps: seq<Step>, crash: nat)
    requires ValidRequest(isURL, first) && LINT in first.checks
    ensures IsHistory(first, states, steps) && |steps| == crash + 3
    ensures steps[crash] == Allocate(1) && steps[crash + 1] == WritePending(2) && steps[crash + 2].WriteFinal?
    ensures NewestIsMissing(states[crash]) && |states[crash].runs| == 2 && Overtaken(states[crash], 1)
    ensures var s := states[|steps|];
            && |s.runs| == 3 && s.runs[1].stored.Missing? && s.reruns.Keys == {}
            && s.runs[2].stored.Written? && LeavesSome(s.runs[2].stored.jobs, LINT)
  {
    var before, taken, s;
    before, taken, crash, s := OvertakenAllocates(isURL, first);
    states, steps, s := LintRunFinishes(isURL, first, before, taken, 2);
    assert states[crash] == states[..|before|][crash];
  }

  lemma NobodyWrites(taken: seq<Step>, steps: seq<Step>, crash: nat)
    requires |taken| == crash + 3 <= |steps| && steps[..|taken|] == taken
    requires taken[crash] == Allocate(1) && taken[crash + 1] == WritePending(2) && taken[crash + 2].WriteFinal?
    requires |steps| == |taken| + 2 && steps[|taken|].ReadManifest? && steps[|taken| + 1].ReadResult?
    ensures forall k :: crash <= k < |steps| ==> steps[k] != WritePending(1)
  {
    forall k | crash <= k < |taken|
      ensures steps[k] != WritePending(1)
    {
      assert steps[k] == taken[k];
    }
  }

  /**
   * The proviso of CrashEndsTheSession is needed, whatever the first request that lints: a rerun overtaken
   * by a run that died before its first result allocates behind it, and from then on reruns are accepted
   * again although the dead run never wrote anything.
   */
  lemma OvertakenRerunRevives(isURL: string -> bool, first: Request)
    returns (states: seq<State>, steps: seq<Step>, crash: nat, who: nat)
    requires ValidRequest(isURL, first) && LINT in first.checks
    ensures IsHistory(first, states, steps) && crash <= |steps|
    ensures NewestIsMissing(states[crash]) && Overtaken(states[crash], 1)
    ensures forall k :: crash <= k < |steps| ==> steps[k] != WritePending(|states[crash].runs| - 1)
    ensures |states[|steps|].runs| == |states[crash].runs| + 1
    ensures states[|steps|].runs[|states[crash].runs| - 1].stored.Missing?
    ensures who in states[|steps|].reruns && Decided(first.project, states[|steps|].reruns[who]).Success?
  {
    var before, taken, s;
    before, taken, crash := OvertakenRunsOn(isURL, first);
    who := 3;
    states, steps, s := LintRerunReads(isURL, first, before, taken, who);
    LintsAgain(isURL, first, s, who, s.runs[2].stored.jobs);
    assert states[crash] == states[..|before|][crash];
    NobodyWrites(taken, steps, crash);
  }
}
