/** CreateRun as it runs: its own file operations in order, and anybody else's between them. */
module SessionDirectory {
  import opened Wrappers
  import opened Identifiers
  import opened RunAllocation

  datatype StoreError = ReadSessionFailed | RunDirectoryFailed | WriteManifestFailed

  lemma ReturnedIDsDiffer(s: Session, me: nat)
    requires Inv(s) && me in s.callers && s.callers[me].Returned?
    ensures forall other :: other in s.callers && other != me && s.callers[other].Returned? ==>
              s.callers[other].run.ID() != s.callers[me].run.ID()
  {
    forall other | other in s.callers && other != me && s.callers[other].Returned?
      ensures s.callers[other].run.ID() != s.callers[me].run.ID()
    {
      if s.callers[other].run.ID() == s.callers[me].run.ID() {
        RunIDIsInjective(s.callers[other].run.number, s.callers[me].run.number);
      }
    }
  }

  /** One session's directory on disk, and where every process that is in CreateRun has got to. */
  class Directory {
    var manifest: Document
    var runDirectories: set<nat>
    var temporaries: map<nat, Document>
    var callers: map<nat, Caller>

    function Now(): Session
      reads this
    {
      Session(manifest, runDirectories, temporaries, callers)
    }

    ghost predicate Valid()
      reads this
    {
      Inv(Now())
    }

    constructor ()
      ensures Valid() && Now() == Init()
    {
      manifest, runDirectories, temporaries, callers := Whole([]), {}, map[], map[];
    }

    ghost predicate Grew(before: Session)
      reads this
    {
      && before.manifest.Whole? && manifest.Whole? && before.manifest.runs <= manifest.runs
    }

    /** A step keeps the directory valid and the manifest growing. */
    lemma Kept(before: Session, step: Step)
      requires Inv(before) && Enabled(before, step) && Now() == Next(before, step)
      ensures Valid() && Grew(before)
    {
      StepKeepsInv(before, step);
    }

    ghost predicate SameFor(before: Session, me: nat)
      reads this
    {
      && me in before.callers && me in callers && callers[me] == before.callers[me]
      && (me in temporaries <==> me in before.temporaries)
      && (me in temporaries ==> temporaries[me] == before.temporaries[me])
    }

    /** Any number of steps of other callers, in any order. */
    method Others(me: nat)
      requires Valid() && me in callers
      modifies this
      ensures Valid() && Grew(old(Now())) && SameFor(old(Now()), me)
    {
      var rounds: nat := *;
      while rounds > 0
        invariant Valid() && Grew(old(Now())) && SameFor(old(Now()), me)
      {
        var step: Step := *;
        if Enabled(Now(), step) && step.who != me {
          Take(step);
        }
        rounds := rounds - 1;
      }
    }

    method Take(step: Step)
      requires Valid() && Enabled(Now(), step)
      modifies this
      ensures Valid() && Now() == Next(old(Now()), step) && Grew(old(Now()))
    {
      ghost var before := Now();
      var next := Next(Now(), step);
      manifest, runDirectories, temporaries, callers :=
        next.manifest, next.runDirectories, next.temporaries, next.callers;
      Kept(before, step);
    }

    /** Every file operation may fail; the caller then gives up and removes its temporary file. */
    method GiveUp(me: nat)
      requires Valid() && me in callers && Running(callers[me])
      modifies this
      ensures Valid() && manifest == old(manifest) && me in callers && callers[me].Failed?
    {
      ghost var before := Now();
      temporaries := temporaries - {me};
      callers := callers[me := Failed];
      Kept(before, FailIO(me));
    }

    method CreateTemporaryFile(me: nat, next: seq<RunReference>)
      requires Valid() && me in callers && callers[me] == OwnsDirectory(next)
      modifies this
      ensures Valid() && me in callers && callers[me] == HasTemporary(next) && manifest == old(manifest)
    {
      ghost var before := Now();
      temporaries := temporaries[me := Torn];
      callers := callers[me := HasTemporary(next)];
      Kept(before, CreateTemporary(me));
    }

    method FillTemporaryFile(me: nat, next: seq<RunReference>)
      requires Valid() && me in callers && callers[me] == HasTemporary(next)
      modifies this
      ensures Valid() && me in callers && callers[me] == HasWritten(next) && manifest == old(manifest)
      ensures me in temporaries && temporaries[me] == Whole(next)
    {
      ghost var before := Now();
      temporaries := temporaries[me := Whole(next)];
      callers := callers[me := HasWritten(next)];
      Kept(before, WriteTemporary(me));
    }

    method RenameIntoPlace(me: nat, next: seq<RunReference>)
      requires Valid() && me in callers && callers[me] == HasWritten(next) && next != []
      requires me in temporaries && temporaries[me] == Whole(next)
      modifies this
      ensures Valid() && me in callers && callers[me] == Returned(next[|next| - 1]) && manifest == Whole(next)
    {
      ghost var before := Now();
      manifest := temporaries[me];
      temporaries := temporaries - {me};
      callers := callers[me := Returned(next[|next| - 1])];
      Kept(before, RenameTemporary(me));
    }

    /** writeJSONAtomic: create a temporary file beside the manifest, fill it, rename it into place. */
    method WriteManifest(me: nat, next: seq<RunReference>) returns (ok: bool)
      requires Valid() && me in callers && callers[me] == OwnsDirectory(next) && next != []
      modifies this
      ensures Valid() && me in callers
      ensures callers[me] == if ok then Returned(next[|next| - 1]) else Failed
      ensures ok ==> manifest == Whole(next)
    {
      ok := *;
      if !ok {
        GiveUp(me);
        return;
      }
      CreateTemporaryFile(me, next);
      Others(me);
      ok := *;
      if !ok {
        GiveUp(me);
        return;
      }
      FillTemporaryFile(me, next);
      Others(me);
      ok := *;
      if !ok {
        GiveUp(me);
        return;
      }
      RenameIntoPlace(me, next);
    }

    method ReadManifest(me: nat) returns (ok: bool, read: seq<RunReference>)
      requires Valid() && me !in callers
      modifies this
      ensures Valid() && me in callers && Grew(old(Now()))
      ensures callers[me] == if ok then HasRead(read) else Failed
      ensures ok ==> manifest.Whole? && old(manifest).runs <= read <= manifest.runs
    {
      ghost var before := Now();
      callers := callers[me := Started];
      Kept(before, Call(me));
      Others(me);
      ok, read := *, manifest.runs;
      if !ok {
        GiveUp(me);
        return;
      }
      before := Now();
      callers := callers[me := HasRead(read)];
      Kept(before, ReadSession(me));
      Others(me);
    }

    method MakeRunDirectory(me: nat, read: seq<RunReference>, run: RunReference) returns (ok: bool)
      requires Valid() && me in callers && callers[me] == HasRead(read) && run.number == |read| + 1
      modifies this
      ensures Valid() && me in callers && !callers[me].Returned?
      ensures ok ==> callers[me] == OwnsDirectory(read + [run])
    {
      ok := *;
      if !ok {
        GiveUp(me);
        return;
      }
      ghost var before := Now();
      if run.number in runDirectories {
        callers := callers[me := Refused];
        Kept(before, MakeDirectory(me, run.createdAt));
        return false;
      }
      runDirectories := runDirectories + {run.number};
      callers := callers[me := OwnsDirectory(read + [run])];
      Kept(before, MakeDirectory(me, run.createdAt));
      Others(me);
    }

    /**
     * A successful call adds its run as the last one of the manifest, keeps everything the manifest
     * listed before, and has an ID nobody else was given; a failed call returns no run.
     */
    method CreateRun(me: nat, now: int) returns (r: Result<RunReference, StoreError>)
      requires Valid() && me !in callers
      modifies this
      ensures Valid() && me in callers
      ensures r.Success? <==> callers[me].Returned?
      ensures r.Success? ==>
                && callers[me] == Returned(r.value)
                && manifest.Whole? && manifest.runs != [] && r.value == manifest.runs[|manifest.runs| - 1]
                && old(manifest).Whole? && old(manifest).runs <= manifest.runs[..|manifest.runs| - 1]
                && forall other :: other in callers && other != me && callers[other].Returned? ==>
                     callers[other].run.ID() != r.value.ID()
    {
      var ok, read := ReadManifest(me);
      if !ok {
        return Failure(ReadSessionFailed);
      }
      var run := RunReference(|read| + 1, now);
      ok := MakeRunDirectory(me, read, run);
      if !ok {
        return Failure(RunDirectoryFailed);
      }
      ok := WriteManifest(me, read + [run]);
      if !ok {
        return Failure(WriteManifestFailed);
      }
      ReturnedIDsDiffer(Now(), me);
      return Success(run);
    }
  }
}
