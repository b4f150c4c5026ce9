/**
 * Store.CreateRun of internal/audit/store.go: any number of callers allocate runs of one session over
 * a shared directory, without a lock. Every step is one file operation; calls may interleave at every
 * step, fail with an I/O error, or be killed.
 */
module RunAllocation {
  import opened Identifiers

  /**
   * A run is known by its number n; its ID and the name of its directory are RunID(n), and
   * RunIDIsInjective lets numbers stand for them.
   */
  datatype RunReference = RunReference(number: nat, createdAt: int) {
    function ID(): string {
      RunID(number)
    }
  }

  /** The contents of a JSON file: a torn one cannot be decoded. */
  datatype Document = Whole(runs: seq<RunReference>) | Torn

  /** Where one call of CreateRun is. `next` is the manifest it is going to write. */
  datatype Caller =
    | Started
    | HasRead(snapshot: seq<RunReference>)
    | OwnsDirectory(next: seq<RunReference>)
    | HasTemporary(next: seq<RunReference>)
    | HasWritten(next: seq<RunReference>)
    | Returned(run: RunReference)
    | Refused
    | Failed
    | Killed

  /** The session directory (its temporary files are keyed by the caller that made them) and the callers. */
  datatype Session = Session(
    manifest: Document, runDirectories: set<nat>, temporaries: map<nat, Document>, callers: map<nat, Caller>)

  datatype Step =
    | Call(who: nat)
    | ReadSession(who: nat)
    | MakeDirectory(who: nat, now: int)
    | CreateTemporary(who: nat)
    | WriteTemporary(who: nat)
    | RenameTemporary(who: nat)
    | FailIO(who: nat)
    | Kill(who: nat)

  function Init(): Session {
    Session(Whole([]), {}, map[], map[])
  }

  predicate Running(c: Caller) {
    c.Started? || c.HasRead? || c.OwnsDirectory? || c.HasTemporary? || c.HasWritten?
  }

  /** The caller made the directory of the next run and has not published it yet. */
  predicate Holds(c: Caller) {
    c.OwnsDirectory? || c.HasTemporary? || c.HasWritten?
  }

  predicate Enabled(s: Session, step: Step) {
    match step
    case Call(who) => who !in s.callers
    case ReadSession(who) => who in s.callers && s.callers[who].Started?
    case MakeDirectory(who, _) => who in s.callers && s.callers[who].HasRead?
    case CreateTemporary(who) => who in s.callers && s.callers[who].OwnsDirectory?
    case WriteTemporary(who) => who in s.callers && s.callers[who].HasTemporary?
    case RenameTemporary(who) => who in s.callers && s.callers[who].HasWritten? && who in s.temporaries
        && s.callers[who].next != []
    case FailIO(who) => who in s.callers && Running(s.callers[who])
    case Kill(who) => who in s.callers && Running(s.callers[who])
  }

  function Next(s: Session, step: Step): Session
    requires Enabled(s, step)
  {
    match step
    case Call(who) => s.(callers := s.callers[who := Started])
    case ReadSession(who) =>
      s.(callers := s.callers[who := if s.manifest.Whole? then HasRead(s.manifest.runs) else Failed])
    case MakeDirectory(who, now) =>
      var snapshot := s.callers[who].snapshot;
      var run := RunReference(|snapshot| + 1, now);
      if run.number in s.runDirectories then s.(callers := s.callers[who := Refused])
      else s.(runDirectories := s.runDirectories + {run.number},
          callers := s.callers[who := OwnsDirectory(snapshot + [run])])
    case CreateTemporary(who) =>
      s.(temporaries := s.temporaries[who := Torn], callers := s.callers[who := HasTemporary(s.callers[who].next)])
    case WriteTemporary(who) =>
      var next := s.callers[who].next;
      s.(temporaries := s.temporaries[who := Whole(next)], callers := s.callers[who := HasWritten(next)])
    case RenameTemporary(who) =>
      var next := s.callers[who].next;
      s.(manifest := s.temporaries[who], temporaries := s.temporaries - {who},
         callers := s.callers[who := Returned(next[|next| - 1])])
    case FailIO(who) => s.(temporaries := s.temporaries - {who}, callers := s.callers[who := Failed])
    case Kill(who) => s.(callers := s.callers[who := Killed])
  }

  ghost predicate IsRun(states: seq<Session>, steps: seq<Step>) {
    && |states| == |steps| + 1
    && states[0] == Init()
    && forall k {:trigger steps[k]} :: 0 <= k < |steps| ==>
        Enabled(states[k], steps[k]) && states[k + 1] == Next(states[k], steps[k])
  }

  // ---- The invariant ----

  /** The manifest lists runs 1..k in order. */
  ghost predicate InOrder(runs: seq<RunReference>) {
    forall i :: 0 <= i < |runs| ==> runs[i].number == i + 1
  }

  /** Exactly the directories of the listed runs exist, and possibly the next one. */
  ghost predicate DirectoriesAgree(runs: seq<RunReference>, directories: set<nat>) {
    && (forall n :: 1 <= n <= |runs| ==> n in directories)
    && (forall n :: n in directories ==> 1 <= n <= |runs| + 1)
  }

  ghost predicate CallerAgrees(runs: seq<RunReference>, s: Session, who: nat)
    requires who in s.callers
  {
    match s.callers[who]
    case HasRead(snapshot) => snapshot <= runs
    case OwnsDirectory(next) => NextRun(runs, s, next)
    case HasTemporary(next) => NextRun(runs, s, next)
    case HasWritten(next) => NextRun(runs, s, next) && who in s.temporaries && s.temporaries[who] == Whole(next)
    case Returned(run) => exists i :: 0 <= i < |runs| && runs[i] == run
    case _ => true
  }

  /** `next` is the manifest with one more run, whose directory exists. */
  ghost predicate NextRun(runs: seq<RunReference>, s: Session, next: seq<RunReference>) {
    && |next| == |runs| + 1 && next[..|runs|] == runs
    && next[|runs|].number == |runs| + 1
    && next[|runs|].number in s.runDirectories
  }

  ghost predicate Inv(s: Session) {
    && s.manifest.Whole? && InOrder(s.manifest.runs)
    && DirectoriesAgree(s.manifest.runs, s.runDirectories)
    && (forall who :: who in s.callers ==> CallerAgrees(s.manifest.runs, s, who))
    && (forall a, b :: a in s.callers && b in s.callers && a != b && Holds(s.callers[a]) ==> !Holds(s.callers[b]))
    && (forall a, b ::
          a in s.callers && b in s.callers && a != b && s.callers[a].Returned? && s.callers[b].Returned? ==>
          s.callers[a].run.number != s.callers[b].run.number)
  }

  /** Steps that leave the manifest, the run directories and everybody else alone. */
  ghost predicate OnlyCallerMoves(s: Session, t: Session, who: nat) {
    && who in t.callers && t.callers == s.callers[who := t.callers[who]]
    && t.manifest == s.manifest && t.runDirectories == s.runDirectories
    && forall other :: other in s.temporaries && other != who ==>
        other in t.temporaries && t.temporaries[other] == s.temporaries[other]
  }

  lemma CallerMoveKeepsInv(s: Session, t: Session, who: nat)
    requires Inv(s) && OnlyCallerMoves(s, t, who)
    requires CallerAgrees(s.manifest.runs, t, who)
    requires Holds(t.callers[who]) ==> who in s.callers && Holds(s.callers[who])
    requires !t.callers[who].Returned?
    ensures Inv(t)
  {
    forall other | other in t.callers
      ensures CallerAgrees(t.manifest.runs, t, other)
    {
      if other != who {
        assert CallerAgrees(s.manifest.runs, s, other);
      }
    }
  }

  lemma LocalStepKeepsInv(s: Session, step: Step)
    requires Inv(s) && Enabled(s, step) && !step.MakeDirectory? && !step.RenameTemporary?
    ensures Inv(Next(s, step))
  {
    if step.who in s.callers {
      assert CallerAgrees(s.manifest.runs, s, step.who);
    }
    CallerMoveKeepsInv(s, Next(s, step), step.who);
  }

  lemma OwnsNewDirectory(s: Session, step: Step)
    requires Inv(s) && Enabled(s, step) && step.MakeDirectory?
    requires Next(s, step).callers[step.who].OwnsDirectory?
    ensures s.callers[step.who].snapshot == s.manifest.runs
    ensures forall who :: who in s.callers ==> !Holds(s.callers[who])
  {
    var runs := s.manifest.runs;
    var snapshot := s.callers[step.who].snapshot;
    assert CallerAgrees(runs, s, step.who);
    assert |snapshot| + 1 !in s.runDirectories;
    assert |snapshot| == |runs|;
    forall who | who in s.callers
      ensures !Holds(s.callers[who])
    {
      assert CallerAgrees(runs, s, who);
    }
  }

  lemma MakeDirectoryKeepsInv(s: Session, step: Step)
    requires Inv(s) && Enabled(s, step) && step.MakeDirectory?
    ensures Inv(Next(s, step))
  {
    var t := Next(s, step);
    if t.callers[step.who].OwnsDirectory? {
      OwnsNewDirectory(s, step);
      assert NextRun(s.manifest.runs, t, t.callers[step.who].next);
      forall who | who in t.callers
        ensures CallerAgrees(t.manifest.runs, t, who)
      {
        assert CallerAgrees(s.manifest.runs, s, who);
      }
    } else {
      CallerMoveKeepsInv(s, t, step.who);
    }
  }

  lemma RenameKeepsInv(s: Session, step: Step)
    requires Inv(s) && Enabled(s, step) && step.RenameTemporary?
    ensures Inv(Next(s, step))
    ensures s.manifest.runs <= Next(s, step).manifest.runs
  {
    var t := Next(s, step);
    var runs := s.manifest.runs;
    var next := s.callers[step.who].next;
    assert CallerAgrees(runs, s, step.who);
    assert t.manifest.runs == next && next == runs + [next[|runs|]];
    forall who | who in t.callers
      ensures CallerAgrees(next, t, who)
    {
      assert CallerAgrees(runs, s, who);
      if who != step.who {
        assert !Holds(s.callers[who]);
        if s.callers[who].Returned? {
          var i :| 0 <= i < |runs| && runs[i] == s.callers[who].run;
          assert next[i] == runs[i];
        }
      } else {
        assert next[|runs|] == t.callers[who].run;
      }
    }
    forall who | who in s.callers && who != step.who && s.callers[who].Returned?
      ensures s.callers[who].run.number <= |runs|
    {
      assert CallerAgrees(runs, s, who);
    }
  }

  lemma StepKeepsInv(s: Session, step: Step)
    requires Inv(s) && Enabled(s, step)
    ensures Inv(Next(s, step))
    ensures s.manifest.runs <= Next(s, step).manifest.runs
  {
    match step
    case MakeDirectory(_, _) => MakeDirectoryKeepsInv(s, step);
    case RenameTemporary(_) => RenameKeepsInv(s, step);
    case _ => LocalStepKeepsInv(s, step);
  }

  lemma {:induction false} ReachableInv(states: seq<Session>, steps: seq<Step>, k: nat)
    requires IsRun(states, steps) && k < |states|
    ensures Inv(states[k])
  {
    if k > 0 {
      ReachableInv(states, steps, k - 1);
      assert states[k] == Next(states[k - 1], steps[k - 1]);
      StepKeepsInv(states[k - 1], steps[k - 1]);
    }
  }

  // ---- What every run keeps ----

  /** The manifest can always be decoded, lists runs 1..k in order, and never shrinks or loses an entry. */
  lemma {:induction false} ManifestOnlyGrows(states: seq<Session>, steps: seq<Step>, a: nat, b: nat)
    requires IsRun(states, steps) && a <= b < |states|
    ensures states[a].manifest.Whole? && states[b].manifest.Whole?
    ensures InOrder(states[b].manifest.runs)
    ensures states[a].manifest.runs <= states[b].manifest.runs
    decreases b
  {
    ReachableInv(states, steps, b);
    ReachableInv(states, steps, a);
    if a < b {
      ManifestOnlyGrows(states, steps, a, b - 1);
      ReachableInv(states, steps, b - 1);
      assert states[b] == Next(states[b - 1], steps[b - 1]);
      StepKeepsInv(states[b - 1], steps[b - 1]);
    }
  }

  /** A run that was returned stays listed, and no two callers are given the same ID. */
  lemma ReturnedRunsAreListedAndDistinct(states: seq<Session>, steps: seq<Step>, a: nat, b: nat, who: nat, other: nat)
    requires IsRun(states, steps) && a <= b < |states|
    requires who in states[a].callers && states[a].callers[who].Returned?
    requires other in states[b].callers && states[b].callers[other].Returned? && other != who
    ensures states[b].manifest.Whole? && states[a].callers[who].run in states[b].manifest.runs
    ensures who in states[b].callers && states[b].callers[who] == states[a].callers[who]
    ensures states[b].callers[other].run.ID() != states[a].callers[who].run.ID()
  {
    ReachableInv(states, steps, a);
    ReachableInv(states, steps, b);
    ManifestOnlyGrows(states, steps, a, b);
    assert CallerAgrees(states[a].manifest.runs, states[a], who);
    var i :| 0 <= i < |states[a].manifest.runs| && states[a].manifest.runs[i] == states[a].callers[who].run;
    assert states[b].manifest.runs[i] == states[a].callers[who].run;
    ReturnedIsFinal(states, steps, a, b, who);
    if states[b].callers[other].run.ID() == states[a].callers[who].run.ID() {
      RunIDIsInjective(states[b].callers[other].run.number, states[a].callers[who].run.number);
    }
  }

  lemma {:induction false} ReturnedIsFinal(states: seq<Session>, steps: seq<Step>, a: nat, b: nat, who: nat)
    requires IsRun(states, steps) && a <= b < |states|
    requires who in states[a].callers && !Running(states[a].callers[who])
    ensures who in states[b].callers && states[b].callers[who] == states[a].callers[who]
    decreases b
  {
    if a < b {
      ReturnedIsFinal(states, steps, a, b - 1, who);
      assert states[b] == Next(states[b - 1], steps[b - 1]);
    }
  }

  // ---- When a session can still allocate ----

  /** The next run's directory exists and no running caller made it: its maker failed or was killed. */
  ghost predicate Wedged(s: Session) {
    && s.manifest.Whole? && |s.manifest.runs| + 1 in s.runDirectories
    && forall who :: who in s.callers ==> !Holds(s.callers[who])
  }

  lemma WedgedStep(s: Session, step: Step)
    requires Inv(s) && Wedged(s) && Enabled(s, step)
    ensures Wedged(Next(s, step)) && Next(s, step).manifest == s.manifest
  {
    if step.MakeDirectory? {
      var snapshot := s.callers[step.who].snapshot;
      assert CallerAgrees(s.manifest.runs, s, step.who);
      assert |snapshot| + 1 in s.runDirectories;
    }
  }

  /** From a wedged session on, no call ever succeeds: it stays wedged and its manifest stays as it is. */
  lemma {:induction false} WedgedForever(states: seq<Session>, steps: seq<Step>, a: nat, b: nat)
    requires IsRun(states, steps) && a <= b < |states| && Wedged(states[a])
    ensures Wedged(states[b]) && states[b].manifest == states[a].manifest
    decreases b
  {
    if a < b {
      WedgedForever(states, steps, a, b - 1);
      ReachableInv(states, steps, b - 1);
      assert states[b] == Next(states[b - 1], steps[b - 1]);
      WedgedStep(states[b - 1], steps[b - 1]);
    }
  }

  /** The caller fails, or is killed, between making its directory and publishing the manifest. */
  predicate DiesHolding(s: Session, step: Step) {
    (step.Kill? || step.FailIO?) && step.who in s.callers && Holds(s.callers[step.who])
  }

  lemma DeathWedges(s: Session, step: Step)
    requires Inv(s) && Enabled(s, step) && DiesHolding(s, step)
    ensures Wedged(Next(s, step))
  {
    assert CallerAgrees(s.manifest.runs, s, step.who);
  }

  /** No other step wedges: publishing frees the next number, and making its directory is holding it. */
  lemma OnlyDeathWedges(s: Session, step: Step)
    requires Inv(s) && Enabled(s, step) && !Wedged(s) && !DiesHolding(s, step)
    ensures !Wedged(Next(s, step))
  {
    var t := Next(s, step);
    if step.RenameTemporary? {
      assert CallerAgrees(s.manifest.runs, s, step.who);
      assert |s.manifest.runs| + 2 !in s.runDirectories;
    } else if step.MakeDirectory? && t.runDirectories != s.runDirectories {
      assert step.who in t.callers && Holds(t.callers[step.who]);
    } else if |s.manifest.runs| + 1 in s.runDirectories {
      var who :| who in s.callers && Holds(s.callers[who]);
      assert who in t.callers && Holds(t.callers[who]);
    }
  }

  lemma WedgedByStepIff(s: Session, step: Step)
    requires Inv(s) && Enabled(s, step)
    ensures Wedged(Next(s, step)) <==> Wedged(s) || DiesHolding(s, step)
  {
    if Wedged(s) {
      WedgedStep(s, step);
    } else if DiesHolding(s, step) {
      DeathWedges(s, step);
    } else {
      OnlyDeathWedges(s, step);
    }
  }

  /** Some caller died so among the first k steps. */
  ghost predicate SomebodyDied(states: seq<Session>, steps: seq<Step>, k: nat)
    requires k <= |steps| <= |states|
  {
    exists j :: 0 <= j < k && DiesHolding(states[j], steps[j])
  }

  lemma DeathsUpTo(states: seq<Session>, steps: seq<Step>, k: nat)
    requires k < |steps| <= |states|
    ensures SomebodyDied(states, steps, k + 1) <==> SomebodyDied(states, steps, k) || DiesHolding(states[k], steps[k])
  {
  }

  lemma EachStepWedgesIff(states: seq<Session>, steps: seq<Step>, k: nat)
    requires IsRun(states, steps) && k < |steps|
    ensures Wedged(states[k + 1]) <==> Wedged(states[k]) || DiesHolding(states[k], steps[k])
  {
    ReachableInv(states, steps, k);
    assert Enabled(states[k], steps[k]) && states[k + 1] == Next(states[k], steps[k]);
    WedgedByStepIff(states[k], steps[k]);
  }

  /** A reachable session is wedged iff some caller died while it held the next run's directory. */
  lemma {:induction false} WedgedIffDeath(states: seq<Session>, steps: seq<Step>, k: nat)
    requires IsRun(states, steps) && k < |states|
    ensures Wedged(states[k]) <==> SomebodyDied(states, steps, k)
  {
    if k > 0 {
      WedgedIffDeath(states, steps, k - 1);
      EachStepWedgesIff(states, steps, k - 1);
      DeathsUpTo(states, steps, k - 1);
    }
  }

  /** In a wedged session no step returns a run to anybody. */
  lemma NobodyReturnsWhenWedged(s: Session, step: Step, who: nat)
    requires Wedged(s) && Enabled(s, step)
    requires who in Next(s, step).callers && Next(s, step).callers[who].Returned?
    ensures who in s.callers && s.callers[who] == Next(s, step).callers[who]
  {
  }

  /** After such a death nobody receives a run any more: who is returned one later had it by then. */
  lemma {:induction false} NobodyReturnsAfterDeath(states: seq<Session>, steps: seq<Step>, a: nat, b: nat, who: nat)
    requires IsRun(states, steps) && a < b < |states| && DiesHolding(states[a], steps[a])
    requires who in states[b].callers && states[b].callers[who].Returned?
    ensures who in states[a].callers && states[a].callers[who] == states[b].callers[who]
    decreases b
  {
    assert Enabled(states[b - 1], steps[b - 1]) && states[b] == Next(states[b - 1], steps[b - 1]);
    if a + 1 < b {
      WedgedAfterDeath(states, steps, a, b - 1);
      NobodyReturnsWhenWedged(states[b - 1], steps[b - 1], who);
      NobodyReturnsAfterDeath(states, steps, a, b - 1, who);
    }
  }

  lemma WedgedAfterDeath(states: seq<Session>, steps: seq<Step>, a: nat, b: nat)
    requires IsRun(states, steps) && a < b < |states| && DiesHolding(states[a], steps[a])
    ensures Wedged(states[b])
  {
    ReachableInv(states, steps, a);
    assert states[a + 1] == Next(states[a], steps[a]);
    DeathWedges(states[a], steps[a]);
    WedgedForever(states, steps, a + 1, b);
  }

  /** The steps of one call that nothing disturbs. */
  function Undisturbed(who: nat, now: int): seq<Step> {
    [Call(who), ReadSession(who), MakeDirectory(who, now), CreateTemporary(who), WriteTemporary(who),
        RenameTemporary(who)]
  }

  function StepsFrom(s: Session, steps: seq<Step>): Session
    decreases |steps|
  {
    if steps == [] || !Enabled(s, steps[0]) then s else StepsFrom(Next(s, steps[0]), steps[1..])
  }

  lemma UndisturbedStart(s: Session, who: nat, now: int)
    requires s.manifest.Whole? && who !in s.callers
    ensures var s2 := s.(callers := s.callers[who := HasRead(s.manifest.runs)]);
            StepsFrom(s, Undisturbed(who, now))
                == StepsFrom(Next(s2, MakeDirectory(who, now)), Undisturbed(who, now)[3..])
  {
    var steps := Undisturbed(who, now);
    var s1 := Next(s, Call(who));
    var s2 := Next(s1, ReadSession(who));
    assert s2 == s.(callers := s.callers[who := HasRead(s.manifest.runs)]);
    assert steps[1..][1..] == steps[2..] && steps[2..][1..] == steps[3..];
    assert StepsFrom(s, steps) == StepsFrom(s1, steps[1..]);
    assert StepsFrom(s1, steps[1..]) == StepsFrom(s2, steps[2..]);
  }

  lemma UndisturbedEnd(s: Session, who: nat, now: int)
    requires who in s.callers && s.callers[who].OwnsDirectory? && s.callers[who].next != []
    ensures var next, t := s.callers[who].next, StepsFrom(s, Undisturbed(who, now)[3..]);
            who in t.callers && t.callers[who] == Returned(next[|next| - 1]) && t.manifest == Whole(next)
  {
    var steps := Undisturbed(who, now)[3..];
    var s4 := Next(s, CreateTemporary(who));
    var s5 := Next(s4, WriteTemporary(who));
    var s6 := Next(s5, RenameTemporary(who));
    assert steps[1..][1..] == steps[2..] && steps[2..][1..] == [];
    assert StepsFrom(s, steps) == StepsFrom(s4, steps[1..]);
    assert StepsFrom(s4, steps[1..]) == StepsFrom(s5, steps[2..]);
    assert StepsFrom(s5, steps[2..]) == StepsFrom(s6, []);
  }

  /** An undisturbed call by a new caller succeeds iff the directory of the next run does not exist yet. */
  lemma UndisturbedCallSucceedsIff(s: Session, who: nat, now: int)
    requires Inv(s) && who !in s.callers
    ensures var k, t := |s.manifest.runs|, StepsFrom(s, Undisturbed(who, now));
            && who in t.callers
            && (k + 1 !in s.runDirectories ==>
                  t.callers[who] == Returned(RunReference(k + 1, now))
                  && t.manifest == Whole(s.manifest.runs + [RunReference(k + 1, now)]))
            && (k + 1 in s.runDirectories ==> t.callers[who] == Refused && t.manifest == s.manifest)
  {
    UndisturbedStart(s, who, now);
    var s2 := s.(callers := s.callers[who := HasRead(s.manifest.runs)]);
    var s3 := Next(s2, MakeDirectory(who, now));
    if |s.manifest.runs| + 1 !in s.runDirectories {
      UndisturbedEnd(s3, who, now);
    }
  }
}
