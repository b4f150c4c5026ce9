/**
 * govardLintSyncCacheInputs of internal/audit/lint_govard.go and the runs that use the directory it
 * prepares, as file operations with a crash allowed between any two: the marker records under which
 * fingerprint the analyzer state was written.
 */
module LintCacheMarker {
  import opened Wrappers
  import opened Strings

  /** A file the analyzer left in `analyzer/`, with the fingerprint of the run that wrote it. */
  datatype AnalyzerFile = AnalyzerFile(writtenUnder: string, name: string)

  datatype Phase =
    | Idle
    | Reading(fingerprint: string)       // about to read the marker
    | Discarding(fingerprint: string)    // removing the analyzer directory, file by file
    | Truncating(fingerprint: string)    // about to open the marker for writing
    | Filling(fingerprint: string, written: nat)
    | Analyzing(fingerprint: string)     // prepared: the container runs

  datatype Generation = Generation(marker: Option<string>, analyzer: set<AnalyzerFile>, phase: Phase)

  datatype Step =
    | Start(fingerprint: string)
    | ReadMarker
    | RemoveFile(file: AnalyzerFile)
    | RemoveDirectory
    | Truncate
    | WriteMore(upTo: nat)
    | Analyze(name: string)
    | Finish
    | Stop   // an I/O error, or the process is killed

  /** What cacheFingerprint returns: "sha256:" and 64 hex digits. */
  predicate IsFingerprint(f: string) {
    |f| == 71 && forall i :: 0 <= i < |f| ==> !IsBlank(f[i])
  }

  function Recorded(marker: Option<string>): string {
    if marker.Some? then TrimSpace(marker.value) else ""
  }

  function Init(): Generation {
    Generation(None, {}, Idle)
  }

  predicate Enabled(g: Generation, step: Step) {
    match step
    case Start(f) => g.phase == Idle && IsFingerprint(f)
    case ReadMarker => g.phase.Reading?
    case RemoveFile(file) => g.phase.Discarding? && file in g.analyzer
    case RemoveDirectory => g.phase.Discarding? && g.analyzer == {}
    case Truncate => g.phase.Truncating?
    case WriteMore(upTo) => g.phase.Filling? && g.phase.written < upTo <= |g.phase.fingerprint| + 1
    case Analyze(_) => g.phase.Analyzing?
    case Finish => g.phase.Analyzing?
    case Stop => g.phase != Idle
  }

  function Next(g: Generation, step: Step): Generation
    requires Enabled(g, step)
  {
    match step
    case Start(f) => g.(phase := Reading(f))
    case ReadMarker =>
      var f := g.phase.fingerprint;
      g.(phase := if Recorded(g.marker) != f then Discarding(f) else Truncating(f))
    case RemoveFile(file) => g.(analyzer := g.analyzer - {file})
    case RemoveDirectory => g.(phase := Truncating(g.phase.fingerprint))
    case Truncate => g.(marker := Some(""), phase := Filling(g.phase.fingerprint, 0))
    case WriteMore(upTo) =>
      var f := g.phase.fingerprint;
      g.(marker := Some((f + "\n")[..upTo]), phase := if upTo == |f| + 1 then Analyzing(f) else Filling(f, upTo))
    case Analyze(name) => g.(analyzer := g.analyzer + {AnalyzerFile(g.phase.fingerprint, name)})
    case Finish => g.(phase := Idle)
    case Stop => g.(phase := Idle)
  }

  ghost predicate IsRun(states: seq<Generation>, steps: seq<Step>) {
    && |states| == |steps| + 1
    && states[0] == Init()
    && forall k {:trigger steps[k]} :: 0 <= k < |steps| ==>
        Enabled(states[k], steps[k]) && states[k + 1] == Next(states[k], steps[k])
  }

  // ---- What a possibly half-written marker records ----

  /** A marker cut off anywhere records its fingerprint or no fingerprint at all. */
  lemma CutMarker(f: string, n: nat)
    requires IsFingerprint(f) && n <= |f| + 1
    ensures n >= |f| ==> TrimSpace((f + "\n")[..n]) == f
    ensures n < |f| ==> !IsFingerprint(TrimSpace((f + "\n")[..n]))
  {
    TrimOfPlain(f);
    if n <= |f| {
      assert (f + "\n")[..n] == f[..n];
      TrimOfPlain(f[..n]);
      assert n == |f| ==> f[..n] == f;
    } else {
      assert (f + "\n")[..n] == f + "\n";
    }
  }

  // ---- The invariant ----

  ghost predicate AllWrittenUnder(analyzer: set<AnalyzerFile>, f: string) {
    forall file :: file in analyzer ==> file.writtenUnder == f
  }

  /** The marker is absent or some prefix of a fingerprint line. */
  ghost predicate MarkerIsCutLine(marker: Option<string>) {
    marker.Some? ==> exists f, n: nat :: IsFingerprint(f) && n <= |f| + 1 && marker.value == (f + "\n")[..n]
  }

  /** Whatever fingerprint the marker records is the one all analyzer state was written under. */
  ghost predicate Coherent(g: Generation) {
    IsFingerprint(Recorded(g.marker)) ==> AllWrittenUnder(g.analyzer, Recorded(g.marker))
  }

  ghost predicate PhaseAgrees(g: Generation) {
    match g.phase
    case Idle => true
    case Reading(f) => IsFingerprint(f)
    case Discarding(f) => IsFingerprint(f)
    case Truncating(f) => IsFingerprint(f) && AllWrittenUnder(g.analyzer, f)
    case Filling(f, n) =>
      IsFingerprint(f) && AllWrittenUnder(g.analyzer, f) && n <= |f| && g.marker == Some((f + "\n")[..n])
    case Analyzing(f) =>
      IsFingerprint(f) && AllWrittenUnder(g.analyzer, f) && Recorded(g.marker) == f
  }

  ghost predicate Inv(g: Generation) {
    MarkerIsCutLine(g.marker) && Coherent(g) && PhaseAgrees(g)
  }

  lemma MarkerStepKeepsInv(g: Generation, step: Step)
    requires Inv(g) && Enabled(g, step) && (step.Truncate? || step.WriteMore?)
    ensures Inv(Next(g, step))
  {
    var f := g.phase.fingerprint;
    var n := if step.Truncate? then 0 else step.upTo;
    assert Next(g, step).marker == Some((f + "\n")[..n]);
    CutMarker(f, n);
  }

  lemma StepKeepsInv(g: Generation, step: Step)
    requires Inv(g) && Enabled(g, step)
    ensures Inv(Next(g, step))
  {
    if step.Truncate? || step.WriteMore? {
      MarkerStepKeepsInv(g, step);
    }
  }

  lemma {:induction false} ReachableInv(states: seq<Generation>, steps: seq<Step>, k: nat)
    requires IsRun(states, steps) && k < |states|
    ensures Inv(states[k])
  {
    if k > 0 {
      ReachableInv(states, steps, k - 1);
      assert states[k] == Next(states[k - 1], steps[k - 1]);
      StepKeepsInv(states[k - 1], steps[k - 1]);
    } else {
      assert TrimSpace("") == "";
    }
  }

  /**
   * Over any sequence of runs, stopped anywhere: analyzer state was written only under the fingerprint
   * the marker records, if it records one, and a run that analyzes meets only state of its own
   * fingerprint.
   */
  lemma AnalyzerStateIsCoherent(states: seq<Generation>, steps: seq<Step>, k: nat)
    requires IsRun(states, steps) && k < |states|
    ensures IsFingerprint(Recorded(states[k].marker)) ==>
        AllWrittenUnder(states[k].analyzer, Recorded(states[k].marker))
    ensures states[k].phase.Analyzing? ==>
              Recorded(states[k].marker) == states[k].phase.fingerprint
              && AllWrittenUnder(states[k].analyzer, states[k].phase.fingerprint)
  {
    ReachableInv(states, steps, k);
  }

  // ---- The function as it runs ----

  /** One generation's directory on disk, and where the run that uses it has got to. */
  class GenerationDirectory {
    var marker: Option<string>
    var analyzer: set<AnalyzerFile>
    var phase: Phase

    function Now(): Generation
      reads this
    {
      Generation(marker, analyzer, phase)
    }

    ghost predicate Valid()
      reads this
    {
      Inv(Now())
    }

    constructor ()
      ensures Valid() && Now() == Init()
    {
      marker, analyzer, phase := None, {}, Idle;
      new;
      assert TrimSpace("") == "";
    }

    method Take(step: Step)
      requires Valid() && Enabled(Now(), step)
      modifies this
      ensures Valid() && Now() == Next(old(Now()), step)
    {
      ghost var before := Now();
      var next := Next(Now(), step);
      marker, analyzer, phase := next.marker, next.analyzer, next.phase;
      StepKeepsInv(before, step);
    }

    /** os.RemoveAll, which may give up with part of the directory gone. */
    method RemoveAnalyzer() returns (ok: bool)
      requires Valid() && phase.Discarding?
      modifies this
      ensures Valid() && analyzer <= old(analyzer)
      ensures if ok then phase == Truncating(old(phase).fingerprint) && analyzer == {} else phase == Idle
    {
      while analyzer != {}
        invariant Valid() && phase == old(phase) && analyzer <= old(analyzer)
        decreases analyzer
      {
        ok := *;
        if !ok {
          Take(Stop);
          return;
        }
        var file :| file in analyzer;
        Take(RemoveFile(file));
      }
      Take(RemoveDirectory);
      ok := true;
    }

    /** os.WriteFile: the file is truncated and then filled, and either part may fail. */
    method WriteMarker() returns (ok: bool)
      requires Valid() && phase.Truncating?
      modifies this
      ensures Valid() && analyzer == old(analyzer)
      ensures phase == if ok then Analyzing(old(phase).fingerprint) else Idle
    {
      var length := |phase.fingerprint| + 1;
      ok := *;
      if !ok {
        Take(Stop);
        return;
      }
      Take(Truncate);
      var written :| 0 <= written <= length;
      if written > 0 {
        Take(WriteMore(written));
      }
      ok := written == length;
      if !ok {
        Take(Stop);
      }
    }

    /**
     * Every way out leaves a coherent directory. Success leaves it to the analyzer with only state of the
     * given fingerprint, and with all of it when that was recorded already.
     */
    method SyncCacheInputs(fingerprint: string) returns (ok: bool)
      requires Valid() && phase == Idle && IsFingerprint(fingerprint)
      modifies this
      ensures Valid() && analyzer <= old(analyzer)
      ensures phase == if ok then Analyzing(fingerprint) else Idle
      ensures ok ==> Recorded(marker) == fingerprint && AllWrittenUnder(analyzer, fingerprint)
      ensures ok && Recorded(old(marker)) == fingerprint ==> analyzer == old(analyzer)
    {
      Take(Start(fingerprint));
      ok := *;
      if !ok {
        Take(Stop);
        return;
      }
      var previous := if marker.Some? then marker.value else "";
      Take(ReadMarker);
      if TrimSpace(previous) != fingerprint {
        ok := RemoveAnalyzer();
        if !ok {
          return;
        }
      }
      ok := WriteMarker();
    }

    /** The container leaves any files it likes, and ends or is killed. */
    method Analyze()
      requires Valid() && phase.Analyzing?
      modifies this
      ensures Valid() && phase == Idle && marker == old(marker)
      ensures AllWrittenUnder(analyzer, old(phase).fingerprint)
    {
      var rounds: nat := *;
      while rounds > 0
        invariant Valid() && phase == old(phase) && marker == old(marker)
      {
        var name: string := *;
        Take(Step.Analyze(name));
        rounds := rounds - 1;
      }
      var killed: bool := *;
      Take(if killed then Stop else Finish);
    }
  }
}
