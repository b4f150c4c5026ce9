/** The scheduler's `validate`: which job graphs are accepted, and what an error says. */
module JobValidation {
  import opened Wrappers
  import opened JobGraph
  import opened CycleDetection

  datatype ScheduleError =
    | NilContext
    | NilScheduler
    | NegativeBudget
    | EmptyID(index: nat)
    | DuplicateID(id: string)
    | NegativeResources(id: string)
    | NoRunner(id: string)
    | ExceedsBudget(id: string)
    | UnknownDependency(id: string, dependency: string)
    | DependencyCycle
    | CouldNotRunRemaining

  datatype Validated = Validated(budget: Resources, resources: seq<Resources>)

  function Normalized(r: Resources): (n: Resources)
    ensures r.cpu >= 0 && r.memoryMB >= 0 ==> n.cpu >= 1 && n.memoryMB >= 1
  {
    Resources(if r.cpu == 0 then 1 else r.cpu, if r.memoryMB == 0 then 1 else r.memoryMB)
  }

  predicate NonNegative(r: Resources) {
    r.cpu >= 0 && r.memoryMB >= 0
  }

  predicate Fits(r: Resources, budget: Resources) {
    r.cpu <= budget.cpu && r.memoryMB <= budget.memoryMB
  }

  predicate SoundJob(budget: Resources, job: Job) {
    && job.id != ""
    && NonNegative(job.resources)
    && job.hasRunner
    && Fits(Normalized(job.resources), Normalized(budget))
  }

  ghost predicate DistinctIDs(jobs: seq<Job>) {
    forall i, j :: 0 <= i < j < |jobs| ==> jobs[i].id != jobs[j].id
  }

  ghost predicate HasJob(jobs: seq<Job>, id: string) {
    exists i :: 0 <= i < |jobs| && jobs[i].id == id
  }

  ghost predicate NamesKnownJobs(jobs: seq<Job>) {
    forall i :: 0 <= i < |jobs| ==> forall d :: d in jobs[i].dependsOn ==> HasJob(jobs, d)
  }

  ghost predicate Acceptable(budget: Resources, jobs: seq<Job>) {
    && NonNegative(budget)
    && (forall i :: 0 <= i < |jobs| ==> SoundJob(budget, jobs[i]))
    && DistinctIDs(jobs)
    && NamesKnownJobs(jobs)
    && !HasCycle(jobs)
  }

  /** What is wrong with the input when `validate` returns this error. */
  ghost predicate Explains(error: ScheduleError, scheduler: Option<Resources>, jobs: seq<Job>) {
    match error
    case NilScheduler => scheduler.None?
    case NegativeBudget => scheduler.Some? && !NonNegative(scheduler.value)
    case EmptyID(index) => index < |jobs| && jobs[index].id == ""
    case DuplicateID(id) => exists i, j :: 0 <= i < j < |jobs| && jobs[i].id == id && jobs[j].id == id
    case NegativeResources(id) => exists i :: 0 <= i < |jobs| && jobs[i].id == id && !NonNegative(jobs[i].resources)
    case NoRunner(id) => exists i :: 0 <= i < |jobs| && jobs[i].id == id && !jobs[i].hasRunner
    case ExceedsBudget(id) =>
      scheduler.Some? && exists i :: (0 <= i < |jobs| && jobs[i].id == id &&
        !Fits(Normalized(jobs[i].resources), Normalized(scheduler.value)))
    case UnknownDependency(id, d) =>
      !HasJob(jobs, d) && exists i :: 0 <= i < |jobs| && jobs[i].id == id && d in jobs[i].dependsOn
    case DependencyCycle => HasCycle(jobs)
    case _ => false
  }

  /** The first loop: every job on its own, and the jobs by ID. */
  method ValidateJobs(scheduler: Resources, jobs: seq<Job>)
    returns (r: Result<seq<Resources>, ScheduleError>, indices: map<string, nat>)
    requires NonNegative(scheduler)
    ensures r.Success? <==> DistinctIDs(jobs) && forall i :: 0 <= i < |jobs| ==> SoundJob(scheduler, jobs[i])
    ensures r.Success? ==> Indexed(jobs, indices) && |r.value| == |jobs|
    ensures r.Success? ==> forall i :: 0 <= i < |jobs| ==> r.value[i] == Normalized(jobs[i].resources)
    ensures r.Failure? ==> Explains(r.error, Some(scheduler), jobs)
  {
    var budget := Normalized(scheduler);
    indices := map[];
    var resources: seq<Resources> := [];
    for index := 0 to |jobs|
      invariant |resources| == index
      invariant forall i :: 0 <= i < index ==> SoundJob(scheduler, jobs[i])
      invariant forall i :: 0 <= i < index ==> resources[i] == Normalized(jobs[i].resources)
      invariant Indexed(jobs[..index], indices)
    {
      var job := jobs[index];
      if job.id == "" {
        return Failure(EmptyID(index)), indices;
      }
      if job.id in indices {
        assert jobs[indices[job.id]].id == job.id;
        return Failure(DuplicateID(job.id)), indices;
      }
      if job.resources.cpu < 0 || job.resources.memoryMB < 0 {
        return Failure(NegativeResources(job.id)), indices;
      }
      if !job.hasRunner {
        return Failure(NoRunner(job.id)), indices;
      }
      IndexNext(jobs, index, indices);
      indices := indices[job.id := index];
      resources := resources + [Normalized(job.resources)];
      if resources[index].cpu > budget.cpu || resources[index].memoryMB > budget.memoryMB {
        return Failure(ExceedsBudget(job.id)), indices;
      }
    }
    assert jobs[..|jobs|] == jobs;
    r := Success(resources);
  }

  lemma IndexNext(jobs: seq<Job>, index: nat, indices: map<string, nat>)
    requires index < |jobs| && Indexed(jobs[..index], indices) && jobs[index].id !in indices
    ensures Indexed(jobs[..index + 1], indices[jobs[index].id := index])
  {
  }

  /** The second loop: every dependency is a job. */
  method ValidateDependencies(jobs: seq<Job>, indices: map<string, nat>) returns (r: Option<ScheduleError>)
    requires Indexed(jobs, indices)
    ensures r.None? <==> NamesKnownJobs(jobs)
    ensures r.Some? ==> forall scheduler :: Explains(r.value, scheduler, jobs)
  {
    for i := 0 to |jobs|
      invariant forall m :: 0 <= m < i ==> forall d :: d in jobs[m].dependsOn ==> d in indices
    {
      for k := 0 to |jobs[i].dependsOn|
        invariant forall m :: 0 <= m < k ==> jobs[i].dependsOn[m] in indices
      {
        var dependency := jobs[i].dependsOn[k];
        if dependency !in indices {
          assert dependency in jobs[i].dependsOn;
          assert !HasJob(jobs, dependency);
          return Some(UnknownDependency(jobs[i].id, dependency));
        }
      }
    }
    return None;
  }

  method Validate(scheduler: Option<Resources>, jobs: seq<Job>) returns (r: Result<Validated, ScheduleError>)
    ensures r.Success? <==> scheduler.Some? && Acceptable(scheduler.value, jobs)
    ensures r.Success? ==> r.value.budget == Normalized(scheduler.value)
    ensures r.Success? ==> |r.value.resources| == |jobs|
    ensures r.Success? ==> forall i :: 0 <= i < |jobs| ==> r.value.resources[i] == Normalized(jobs[i].resources)
    ensures r.Failure? ==> Explains(r.error, scheduler, jobs)
  {
    if scheduler.None? {
      return Failure(NilScheduler);
    }
    if scheduler.value.cpu < 0 || scheduler.value.memoryMB < 0 {
      return Failure(NegativeBudget);
    }
    var resources, indices := ValidateJobs(scheduler.value, jobs);
    if resources.Failure? {
      return Failure(resources.error);
    }
    var unknown := ValidateDependencies(jobs, indices);
    if unknown.Some? {
      return Failure(unknown.value);
    }
    var cyclic := HasDependencyCycle(jobs, indices);
    if cyclic {
      return Failure(DependencyCycle);
    }
    return Success(Validated(Normalized(scheduler.value), resources.value));
  }
}
