/**
 * The diagnostics lease of internal/audit/store.go and the life of a profiler job of
 * internal/audit/profiler.go, as steps of any number of jobs of one project over one lease file and one
 * web-server configuration. Jobs are known by their lease owner; Identifiers.OwnerIsInjective makes
 * owners of different runs different.
 */
module ProfilerLease {
  import opened Wrappers

  /** `Unfinished` is the file between its exclusive creation and the end of the write. */
  datatype LeaseFile = Record(owner: string) | Unfinished

  datatype Job =
    | Preflight                      // about to run the preflight check
    | Acquiring                      // about to create the lease file
    | Created                        // created the lease file, has not written it
    | Activating                     // holds the lease, about to activate
    | Working(stage: nat)            // activated: capture, collect, write the artifact
    | CleaningUp                     // about to restore
    | Restored                       // restored, about to read the lease back
    | Releasing                      // found its own lease, about to remove it
    | Ended                          // over, without a lease
    | Abandoned                      // over, leaving the lease behind

  /** `tainted` says the diagnostic configuration may be activated and not restored. */
  datatype State = State(lease: Option<LeaseFile>, tainted: bool, jobs: map<string, Job>)

  datatype Step =
    | Begin(owner: string)
    | RunPreflight(owner: string, ok: bool)
    | CreateLease(owner: string, ok: bool)
    | WriteLease(owner: string, written: bool, closed: bool)
    | Activate(owner: string, ok: bool, touched: bool)
    | Work(owner: string, ok: bool)
    | Restore(owner: string, ok: bool)
    | ReadLease(owner: string, ok: bool)
    | RemoveLease(owner: string, ok: bool)
    | Kill(owner: string)

  function Init(): State {
    State(None, false, map[])
  }

  /** Between a successful acquire and its release. */
  predicate Holding(j: Job) {
    j.Activating? || j.Working? || j.CleaningUp? || j.Restored? || j.Releasing?
  }

  /** The lease file is this job's doing: it made it and has not removed it. */
  predicate Claims(j: Job) {
    j.Created? || Holding(j) || j.Abandoned?
  }

  predicate Live(j: Job) {
    !j.Ended? && !j.Abandoned?
  }

  predicate Enabled(s: State, step: Step) {
    if step.Begin? then step.owner !in s.jobs
    else
      step.owner in s.jobs &&
      match step
      case RunPreflight(o, _) => s.jobs[o].Preflight?
      case CreateLease(o, _) => s.jobs[o].Acquiring?
      case WriteLease(o, _, _) => s.jobs[o].Created?
      case Activate(o, _, _) => s.jobs[o].Activating?
      case Work(o, _) => s.jobs[o].Working?
      case Restore(o, _) => s.jobs[o].CleaningUp?
      case ReadLease(o, _) => s.jobs[o].Restored?
      case RemoveLease(o, _) => s.jobs[o].Releasing?
      case Kill(o) => Live(s.jobs[o])
      case Begin(_) => false
  }

  function NextJob(s: State, step: Step): Job
    requires Enabled(s, step)
  {
    match step
    case Begin(_) => Preflight
    case RunPreflight(_, ok) => if ok then Acquiring else Ended
    case CreateLease(_, ok) => if s.lease.None? && ok then Created else Ended
    case WriteLease(_, written, closed) => if written && closed then Activating else Abandoned
    case Activate(_, ok, _) => if ok then Working(0) else CleaningUp
    case Work(o, ok) => if ok && s.jobs[o].stage < 2 then Working(s.jobs[o].stage + 1) else CleaningUp
    case Restore(_, ok) => if ok then Restored else Abandoned
    case ReadLease(o, ok) => if ok && s.lease == Some(Record(o)) then Releasing else Abandoned
    case RemoveLease(_, ok) => if ok && s.lease.Some? then Ended else Abandoned
    case Kill(o) => if Claims(s.jobs[o]) then Abandoned else Ended
  }

  function NextLease(s: State, step: Step): Option<LeaseFile> {
    match step
    case CreateLease(_, ok) => if s.lease.None? && ok then Some(Unfinished) else s.lease
    case WriteLease(o, written, _) => if written then Some(Record(o)) else s.lease
    case RemoveLease(_, ok) => if ok then None else s.lease
    case _ => s.lease
  }

  /** Activation taints the configuration even when it fails midway; a successful restore cleans it. */
  function NextTaint(s: State, step: Step): bool {
    match step
    case Activate(_, ok, touched) => s.tainted || ok || touched
    case Restore(_, ok) => if ok then false else s.tainted
    case _ => s.tainted
  }

  function Next(s: State, step: Step): State
    requires Enabled(s, step)
  {
    State(NextLease(s, step), NextTaint(s, step), s.jobs[step.owner := NextJob(s, step)])
  }

  ghost predicate IsRun(states: seq<State>, steps: seq<Step>) {
    && |states| == |steps| + 1
    && states[0] == Init()
    && forall k {:trigger steps[k]} :: 0 <= k < |steps| ==>
        Enabled(states[k], steps[k]) && states[k + 1] == Next(states[k], steps[k])
  }

  // ---- The invariant ----

  ghost predicate JobAgrees(s: State, o: string)
    requires o in s.jobs
  {
    && (Claims(s.jobs[o]) ==> s.lease.Some?)
    && (Holding(s.jobs[o]) ==> s.lease == Some(Record(o)))
    && (s.jobs[o].Created? || s.jobs[o].Activating? || s.jobs[o].Restored? || s.jobs[o].Releasing? ==> !s.tainted)
  }

  ghost predicate Inv(s: State) {
    && (forall o :: o in s.jobs ==> JobAgrees(s, o))
    && (forall a, b :: a in s.jobs && b in s.jobs && a != b && Claims(s.jobs[a]) ==> !Claims(s.jobs[b]))
    && (s.lease.Some? ==> exists o :: o in s.jobs && Claims(s.jobs[o]))
    && (s.lease.None? ==> !s.tainted)
  }

  lemma StepKeepsInv(s: State, step: Step)
    requires Inv(s) && Enabled(s, step)
    ensures Inv(Next(s, step))
  {
    var t, me := Next(s, step), step.owner;
    assert me in s.jobs ==> JobAgrees(s, me);
    if s.lease.None? {
      forall o | o in s.jobs ensures !Claims(s.jobs[o]) {
        assert JobAgrees(s, o);
      }
    }
    forall o | o in t.jobs
      ensures JobAgrees(t, o)
    {
      if o != me {
        assert JobAgrees(s, o);
      }
    }
    if t.lease.Some? {
      if Claims(t.jobs[me]) {
        assert me in t.jobs;
      } else {
        assert s.lease.Some?;
        var o :| o in s.jobs && Claims(s.jobs[o]);
        assert o != me;
        assert o in t.jobs && Claims(t.jobs[o]);
      }
    }
  }

  lemma {:induction false} ReachableInv(states: seq<State>, steps: seq<Step>, k: nat)
    requires IsRun(states, steps) && k < |states|
    ensures Inv(states[k])
  {
    if k > 0 {
      ReachableInv(states, steps, k - 1);
      assert states[k] == Next(states[k - 1], steps[k - 1]);
      StepKeepsInv(states[k - 1], steps[k - 1]);
    }
  }

  /** At most one job is between a successful acquire and its release, and the lease says which. */
  lemma OneHolder(states: seq<State>, steps: seq<Step>, k: nat, a: string, b: string)
    requires IsRun(states, steps) && k < |states|
    requires a in states[k].jobs && b in states[k].jobs
    requires Holding(states[k].jobs[a]) && Holding(states[k].jobs[b])
    ensures a == b && states[k].lease == Some(Record(a))
  {
    ReachableInv(states, steps, k);
    assert JobAgrees(states[k], a);
  }

  /** Whenever the lease file is absent no activated configuration is left unrestored. */
  lemma AbsentLeaseMeansClean(states: seq<State>, steps: seq<Step>, k: nat)
    requires IsRun(states, steps) && k < |states| && states[k].lease.None?
    ensures !states[k].tainted
  {
    ReachableInv(states, steps, k);
  }

  /** A job that read its own lease back removes no one else's. */
  lemma ReleaseRemovesOwnLease(states: seq<State>, steps: seq<Step>, k: nat, o: string)
    requires IsRun(states, steps) && k < |states| && o in states[k].jobs
    requires states[k].jobs[o].Restored? || states[k].jobs[o].Releasing?
    ensures states[k].lease == Some(Record(o)) && !states[k].tainted
  {
    ReachableInv(states, steps, k);
    assert JobAgrees(states[k], o);
  }

  lemma AbandonedStep(s: State, step: Step, o: string)
    requires Inv(s) && Enabled(s, step) && o in s.jobs && s.jobs[o].Abandoned?
    ensures var t := Next(s, step);
            && o in t.jobs && t.jobs[o].Abandoned?
            && t.lease == s.lease && t.tainted == s.tainted
  {
    assert JobAgrees(s, o);
    if step.owner in s.jobs {
      assert JobAgrees(s, step.owner);
    }
  }

  /**
   * A failed restore, or death while holding, leaves the lease for good: no later job ever activates,
   * and the configuration stays as it was left.
   */
  lemma {:induction false} AbandonedLeaseStays(states: seq<State>, steps: seq<Step>, a: nat, b: nat, o: string)
    requires IsRun(states, steps) && a <= b < |states|
    requires o in states[a].jobs && states[a].jobs[o].Abandoned?
    ensures o in states[b].jobs && states[b].jobs[o].Abandoned?
    ensures states[b].lease.Some? && states[b].lease == states[a].lease && states[b].tainted == states[a].tainted
    ensures forall other :: other in states[b].jobs && other != o ==> !Claims(states[b].jobs[other])
    decreases b
  {
    ReachableInv(states, steps, b);
    if a < b {
      AbandonedLeaseStays(states, steps, a, b - 1, o);
      ReachableInv(states, steps, b - 1);
      assert states[b] == Next(states[b - 1], steps[b - 1]);
      AbandonedStep(states[b - 1], steps[b - 1], o);
    } else {
      assert JobAgrees(states[b], o);
    }
  }

  /** Only the lease holder activates or restores, and nothing else changes what is activated. */
  lemma OnlyHolderTouchesConfiguration(states: seq<State>, steps: seq<Step>, k: nat)
    requires IsRun(states, steps) && k < |steps|
    ensures states[k + 1].tainted != states[k].tainted ==> steps[k].Activate? || steps[k].Restore?
    ensures steps[k].Activate? || steps[k].Restore? ==>
              && steps[k].owner in states[k].jobs && Holding(states[k].jobs[steps[k].owner])
              && states[k].lease == Some(Record(steps[k].owner))
  {
    ReachableInv(states, steps, k);
    assert states[k + 1] == Next(states[k], steps[k]);
    if steps[k].Activate? || steps[k].Restore? {
      assert JobAgrees(states[k], steps[k].owner);
    }
  }
}
