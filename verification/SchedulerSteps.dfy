/**
 * The scheduler's Run loop as a transition system. A step is one statement of the loop in
 * internal/audit/scheduler.go, the end of a running job, its sending of the completion, or the
 * cancellation of the context; the last three may happen between any two statements of the loop.
 */
module SchedulerSteps {
  import opened JobGraph
  import opened JobValidation
  import opened BlockedJobs

  /** What a job's goroutine sends: `cancelled` is whether the context was done when it ended. */
  datatype Completion = Completion(index: nat, failed: bool, cancelled: bool)

  datatype Phase = LoopHead | Scan(next: nat) | CheckRunning | AwaitCompletion | Returned | Stuck

  /**
   * The loop's variables, then the context, the goroutines that have not sent, the completions that
   * those of them hold whose job has ended, and the result channel, then the history: jobs in the order
   * they were started, and how many completions were received.
   */
  datatype State = State(
    status: seq<Status>, allocation: Resources, running: int, contextCancelled: bool, phase: Phase,
    contextDone: bool, executing: set<nat>, ended: map<nat, Completion>, completed: seq<Completion>,
    starts: seq<nat>, received: nat)

  datatype Event = CancelContext | JobEnds(index: nat, failed: bool) | JobSends(index: nat) | LoopStep

  function Need(jobs: seq<Job>, i: nat): Resources
    requires i < |jobs|
  {
    Normalized(jobs[i].resources)
  }

  predicate DependenciesPassed(jobs: seq<Job>, status: seq<Status>, i: nat)
    requires |status| == |jobs|
  {
    forall j :: 0 <= j < |jobs| && DependsOn(jobs, i, j) ==> status[j] == Passed
  }

  predicate CanAllocate(budget: Resources, allocation: Resources, request: Resources) {
    request.cpu <= budget.cpu - allocation.cpu && request.memoryMB <= budget.memoryMB - allocation.memoryMB
  }

  predicate AllTerminal(status: seq<Status>) {
    forall i :: 0 <= i < |status| ==> Terminal(status[i])
  }

  function Init(jobs: seq<Job>): State {
    State(seq(|jobs|, _ => Pending), Resources(0, 0), 0, false, if jobs == [] then Returned else LoopHead,
          false, {}, map[], [], [], 0)
  }

  predicate Startable(jobs: seq<Job>, budget: Resources, s: State, i: nat)
    requires |s.status| == |jobs| && i < |jobs|
  {
    && s.status[i] == Pending
    && DependenciesPassed(jobs, s.status, i)
    && CanAllocate(Normalized(budget), s.allocation, Need(jobs, i))
  }

  function Start(jobs: seq<Job>, s: State, i: nat): State
    requires |s.status| == |jobs| && i < |jobs|
  {
    s.(status := s.status[i := Running],
       allocation := Resources(s.allocation.cpu + Need(jobs, i).cpu, s.allocation.memoryMB + Need(jobs, i).memoryMB),
       running := s.running + 1, executing := s.executing + {i}, starts := s.starts + [i])
  }

  function StatusOf(c: Completion): Status {
    if c.cancelled then Cancelled else if c.failed then Failed else Passed
  }

  function Receive(jobs: seq<Job>, s: State): State
    requires |s.status| == |jobs| && s.completed != [] && s.completed[0].index < |jobs|
  {
    var c := s.completed[0];
    s.(status := s.status[c.index := StatusOf(c)],
       allocation := Resources(s.allocation.cpu - Need(jobs, c.index).cpu,
           s.allocation.memoryMB - Need(jobs, c.index).memoryMB),
       running := s.running - 1, completed := s.completed[1..], received := s.received + 1, phase := LoopHead)
  }

  predicate Enabled(jobs: seq<Job>, s: State, e: Event) {
    && |s.status| == |jobs|
    && match e
       case CancelContext => !s.contextDone
       case JobEnds(i, _) => i in s.executing && i !in s.ended
       case JobSends(i) => i in s.executing && i in s.ended
       case LoopStep =>
         && s.phase != Returned && s.phase != Stuck
         && (s.phase == AwaitCompletion ==> s.completed != [] && s.completed[0].index < |jobs|)
  }

  ghost function LoopNext(jobs: seq<Job>, budget: Resources, s: State): State
    requires Enabled(jobs, s, LoopStep)
  {
    match s.phase
    case LoopHead =>
      if !s.contextCancelled && s.contextDone then
        s.(contextCancelled := true, status := CancelPending(s.status), phase := CheckRunning)
      else if !s.contextCancelled then
        s.(status := MarkBlocked(jobs, s.status), phase := Scan(0))
      else
        s.(phase := CheckRunning)
    case Scan(next) =>
      if next >= |jobs| then s.(phase := CheckRunning)
      else if Startable(jobs, budget, s, next) then Start(jobs, s, next).(phase := Scan(next + 1))
      else s.(phase := Scan(next + 1))
    case CheckRunning =>
      if s.running == 0 then s.(phase := if AllTerminal(s.status) then Returned else Stuck)
      else s.(phase := AwaitCompletion)
    case AwaitCompletion => Receive(jobs, s)
    case _ => s
  }

  ghost function Next(jobs: seq<Job>, budget: Resources, s: State, e: Event): State
    requires Enabled(jobs, s, e)
  {
    match e
    case CancelContext => s.(contextDone := true)
    case JobEnds(i, failed) => s.(ended := s.ended[i := Completion(i, failed, s.contextDone)])
    case JobSends(i) => s.(executing := s.executing - {i}, ended := s.ended - {i},
        completed := s.completed + [s.ended[i]])
    case LoopStep => LoopNext(jobs, budget, s)
  }

  /** A run: states linked by events, from the initial state. */
  ghost predicate IsRun(jobs: seq<Job>, budget: Resources, states: seq<State>, events: seq<Event>) {
    && |states| == |events| + 1
    && states[0] == Init(jobs)
    && forall k {:trigger events[k]} :: 0 <= k < |events| ==>
         Enabled(jobs, states[k], events[k]) && states[k + 1] == Next(jobs, budget, states[k], events[k])
  }

  lemma ExtendRun(jobs: seq<Job>, budget: Resources, states: seq<State>, events: seq<Event>, e: Event)
    requires IsRun(jobs, budget, states, events)
    requires Enabled(jobs, states[|states| - 1], e)
    ensures IsRun(jobs, budget, states + [Next(jobs, budget, states[|states| - 1], e)], events + [e])
  {
  }

  // ---- Accounting: what the running jobs hold ----

  datatype Load = Load(count: nat, cpu: int, memoryMB: int)

  function LoadOf(jobs: seq<Job>, status: seq<Status>): Load
    requires |status| <= |jobs|
  {
    if status == [] then Load(0, 0, 0) else
      var last := |status| - 1;
      var rest := LoadOf(jobs, status[..last]);
      if status[last] == Running then
        Load(rest.count + 1, rest.cpu + Need(jobs, last).cpu, rest.memoryMB + Need(jobs, last).memoryMB)
      else rest
  }

  function Weight(jobs: seq<Job>, i: nat, s: Status): Load
    requires i < |jobs|
  {
    if s == Running then Load(1, Need(jobs, i).cpu, Need(jobs, i).memoryMB) else Load(0, 0, 0)
  }

  lemma {:induction false} LoadUpdate(jobs: seq<Job>, status: seq<Status>, i: nat, now: Status)
    requires |status| <= |jobs| && i < |status|
    ensures var was, sum := LoadOf(jobs, status), LoadOf(jobs, status[i := now]);
            var lost, won := Weight(jobs, i, status[i]), Weight(jobs, i, now);
            && sum.count == was.count - lost.count + won.count
            && sum.cpu == was.cpu - lost.cpu + won.cpu
            && sum.memoryMB == was.memoryMB - lost.memoryMB + won.memoryMB
  {
    var last := |status| - 1;
    if i < last {
      LoadUpdate(jobs, status[..last], i, now);
      assert status[i := now][..last] == status[..last][i := now];
    } else {
      assert status[i := now][..last] == status[..last];
    }
  }

  lemma {:induction false} LoadSame(jobs: seq<Job>, status: seq<Status>, now: seq<Status>)
    requires |status| == |now| <= |jobs|
    requires forall i :: 0 <= i < |status| ==> (status[i] == Running <==> now[i] == Running)
    ensures LoadOf(jobs, status) == LoadOf(jobs, now)
  {
    if status != [] {
      LoadSame(jobs, status[..|status| - 1], now[..|now| - 1]);
    }
  }

  lemma {:induction false} NoLoadNoneRunning(jobs: seq<Job>, status: seq<Status>)
    requires |status| <= |jobs|
    ensures LoadOf(jobs, status).count == 0 <==> forall i :: 0 <= i < |status| ==> status[i] != Running
    ensures LoadOf(jobs, status).count == 0 ==> LoadOf(jobs, status) == Load(0, 0, 0)
  {
    if status != [] {
      NoLoadNoneRunning(jobs, status[..|status| - 1]);
    }
  }

  lemma {:induction false} LoadNonNegative(jobs: seq<Job>, status: seq<Status>)
    requires |status| <= |jobs|
    requires forall i :: 0 <= i < |jobs| ==> NonNegative(jobs[i].resources)
    ensures LoadOf(jobs, status).cpu >= 0 && LoadOf(jobs, status).memoryMB >= 0
  {
    if status != [] {
      LoadNonNegative(jobs, status[..|status| - 1]);
    }
  }

  lemma {:induction false} DistinctIsBounded(xs: seq<nat>, n: nat)
    requires forall k :: 0 <= k < |xs| ==> xs[k] < n
    requires forall k, m :: 0 <= k < m < |xs| ==> xs[k] != xs[m]
    ensures |xs| <= n
  {
    SizeOfDistinct(xs);
    SubsetSize(set k | 0 <= k < |xs| :: xs[k], Below(n));
  }

  function Below(n: nat): (s: set<nat>)
    ensures |s| == n
    ensures forall i: nat :: i in s <==> i < n
  {
    if n == 0 then {} else Below(n - 1) + {n - 1}
  }

  lemma {:induction false} SizeOfDistinct(xs: seq<nat>)
    requires forall k, m :: 0 <= k < m < |xs| ==> xs[k] != xs[m]
    ensures |set k | 0 <= k < |xs| :: xs[k]| == |xs|
  {
    if xs != [] {
      var last := |xs| - 1;
      var front := xs[..last];
      SizeOfDistinct(front);
      var used := set k | 0 <= k < last :: front[k];
      forall x | x in (set k | 0 <= k < |xs| :: xs[k]) ensures x in used + {xs[last]} {
        var k :| 0 <= k < |xs| && xs[k] == x;
        assert k < last ==> front[k] == x;
      }
      forall x | x in used + {xs[last]} ensures x in (set k | 0 <= k < |xs| :: xs[k]) {
        if x in used {
          var k :| 0 <= k < last && front[k] == x;
          assert xs[k] == x;
        }
      }
      assert (set k | 0 <= k < |xs| :: xs[k]) == used + {xs[last]};
    }
  }

  lemma {:induction false} SubsetSize<T>(a: set<T>, b: set<T>)
    requires a <= b
    ensures |a| <= |b|
  {
    if a != {} {
      var x :| x in a;
      SubsetSize(a - {x}, b - {x});
    }
  }

  // ---- The invariant ----

  /**
   * `running` and `allocation` (the source calls it `allocated`) are the count and the sum over the running jobs,
   * within budget.
   */
  ghost predicate Accounted(jobs: seq<Job>, budget: Resources, s: State)
    requires |s.status| == |jobs|
  {
    var load := LoadOf(jobs, s.status);
    && s.running == load.count
    && s.allocation == Resources(load.cpu, load.memoryMB)
    && Fits(s.allocation, Normalized(budget))
  }

  /** Every running job either has a goroutine that has not sent or one completion waiting in the channel. */
  ghost predicate ChannelAgrees(s: State) {
    && |s.executing| + |s.completed| == s.running
    && (forall i :: i in s.executing ==> i < |s.status| && s.status[i] == Running)
    && (forall i :: i in s.ended ==> i in s.executing && s.ended[i].index == i)
    && (forall k :: 0 <= k < |s.completed| ==>
          s.completed[k].index < |s.status| && s.status[s.completed[k].index] == Running
          && s.completed[k].index !in s.executing)
    && (forall k, m :: 0 <= k < m < |s.completed| ==> s.completed[k].index != s.completed[m].index)
  }

  /** A job is started at most once, and only when everything it waits for has passed. */
  ghost predicate StartsAgree(jobs: seq<Job>, s: State)
    requires |s.status| == |jobs|
  {
    && |s.starts| == s.running + s.received
    && (forall k :: 0 <= k < |s.starts| ==> s.starts[k] < |jobs|)
    && (forall k, m :: 0 <= k < m < |s.starts| ==> s.starts[k] != s.starts[m])
    && (forall i: nat :: i < |jobs| && s.status[i] in {Running, Passed, Failed} ==> i in s.starts)
    && (forall i :: i in s.starts ==> s.status[i] != Pending)
    && (forall i, j: nat :: i in s.starts && DependsOn(jobs, i, j) ==> s.status[j] == Passed)
  }

  ghost predicate NoneReadyBelow(jobs: seq<Job>, s: State, k: nat)
    requires |s.status| == |jobs|
  {
    forall i: nat :: i < k && i < |jobs| && s.status[i] == Pending ==> !DependenciesPassed(jobs, s.status, i)
  }

  ghost predicate PhaseAgrees(jobs: seq<Job>, s: State)
    requires |s.status| == |jobs|
  {
    && (s.contextCancelled ==> s.contextDone && forall i: nat :: i < |jobs| ==> s.status[i] != Pending)
    && match s.phase
       case LoopHead => true
       case Scan(k) =>
         k <= |jobs| && !s.contextCancelled && Closed(jobs, s.status)
         && (s.running == 0 ==> NoneReadyBelow(jobs, s, k))
       case CheckRunning =>
         !s.contextCancelled ==> Closed(jobs, s.status) && (s.running == 0 ==> NoneReadyBelow(jobs, s, |jobs|))
       case AwaitCompletion => s.running > 0
       case Returned => s.running == 0 && AllTerminal(s.status)
       case Stuck => false
  }

  ghost predicate Inv(jobs: seq<Job>, budget: Resources, s: State) {
    && |s.status| == |jobs|
    && Accounted(jobs, budget, s)
    && ChannelAgrees(s)
    && StartsAgree(jobs, s)
    && PhaseAgrees(jobs, s)
  }

  lemma InitInv(jobs: seq<Job>, budget: Resources)
    requires Acceptable(budget, jobs)
    ensures Inv(jobs, budget, Init(jobs))
  {
    var s := Init(jobs);
    assert forall i :: 0 <= i < |jobs| ==> s.status[i] == Pending;
    FreshInv(jobs, budget, s);
  }

  lemma FreshInv(jobs: seq<Job>, budget: Resources, s: State)
    requires Acceptable(budget, jobs)
    requires |s.status| == |jobs| && forall i :: 0 <= i < |jobs| ==> s.status[i] == Pending
    requires s.running == s.received == 0 && s.allocation == Resources(0, 0) && !s.contextCancelled
    requires s.executing == {} && s.ended == map[] && s.completed == [] && s.starts == []
    requires s.phase == (if jobs == [] then Returned else LoopHead)
    ensures Inv(jobs, budget, s)
  {
    NothingIsLoaded(jobs, budget, s);
    NothingIsStarted(jobs, s);
  }

  lemma NothingIsStarted(jobs: seq<Job>, s: State)
    requires |s.status| == |jobs| && forall i :: 0 <= i < |jobs| ==> s.status[i] == Pending
    requires s.running == s.received == 0
    requires s.executing == {} && s.ended == map[] && s.completed == [] && s.starts == []
    ensures ChannelAgrees(s) && StartsAgree(jobs, s)
  {
    assert forall i: nat :: i < |jobs| ==> s.status[i] !in {Running, Passed, Failed};
  }

  lemma NothingIsLoaded(jobs: seq<Job>, budget: Resources, s: State)
    requires Acceptable(budget, jobs)
    requires |s.status| == |jobs| && forall i :: 0 <= i < |jobs| ==> s.status[i] == Pending
    requires s.running == 0 && s.allocation == Resources(0, 0)
    ensures Accounted(jobs, budget, s)
  {
    NoLoadNoneRunning(jobs, s.status);
  }

  /** Cancelling pending jobs, blocked or all, keeps what is said about running and started jobs. */
  lemma CancellingKeeps(jobs: seq<Job>, budget: Resources, s: State, t: State)
    requires Inv(jobs, budget, s)
    requires |t.status| == |jobs|
    requires forall i: nat :: i < |jobs| ==>
        t.status[i] == s.status[i] || (s.status[i] == Pending && t.status[i] == Cancelled)
    requires t == s.(status := t.status, contextCancelled := t.contextCancelled, phase := t.phase)
    ensures Accounted(jobs, budget, t) && ChannelAgrees(t) && StartsAgree(jobs, t)
  {
    LoadSame(jobs, s.status, t.status);
  }

  lemma LoopHeadKeepsInv(jobs: seq<Job>, budget: Resources, s: State)
    requires Inv(jobs, budget, s) && s.phase == LoopHead
    ensures Inv(jobs, budget, LoopNext(jobs, budget, s))
  {
    var t := LoopNext(jobs, budget, s);
    forall i: nat | i < |jobs|
      ensures t.status[i] == s.status[i] || (s.status[i] == Pending && t.status[i] == Cancelled)
    {
      BlockedIsPending(jobs, s.status, i);
    }
    CancellingKeeps(jobs, budget, s, t);
    MarkBlockedCloses(jobs, s.status);
  }

  lemma StartKeepsStarts(jobs: seq<Job>, s: State, k: nat)
    requires |s.status| == |jobs| && k < |jobs|
    requires StartsAgree(jobs, s) && s.status[k] == Pending && DependenciesPassed(jobs, s.status, k)
    ensures StartsAgree(jobs, Start(jobs, s, k))
  {
    var t := Start(jobs, s, k);
    assert k !in s.starts;
    assert forall i :: i in t.starts <==> i in s.starts || i == k;
    forall i, j: nat | i in t.starts && DependsOn(jobs, i, j)
      ensures t.status[j] == Passed
    {
      if i != k {
        assert i in s.starts;
      }
    }
  }

  lemma StartKeepsInv(jobs: seq<Job>, budget: Resources, s: State, k: nat)
    requires Inv(jobs, budget, s) && s.phase == Scan(k) && k < |jobs| && Startable(jobs, budget, s, k)
    ensures Inv(jobs, budget, Start(jobs, s, k).(phase := Scan(k + 1)))
  {
    StartIsAccounted(jobs, budget, s, k);
    StartKeepsChannel(jobs, s, k);
    StartKeepsStarts(jobs, s, k);
    StartKeepsClosed(jobs, s, k);
    ScanAfterStart(jobs, budget, Start(jobs, s, k), k + 1);
  }

  lemma ScanAfterStart(jobs: seq<Job>, budget: Resources, t: State, next: nat)
    requires |t.status| == |jobs| && Accounted(jobs, budget, t) && ChannelAgrees(t) && StartsAgree(jobs, t)
    requires next <= |jobs| && !t.contextCancelled && Closed(jobs, t.status) && t.running > 0
    ensures Inv(jobs, budget, t.(phase := Scan(next)))
  {
  }

  lemma StartIsAccounted(jobs: seq<Job>, budget: Resources, s: State, k: nat)
    requires |s.status| == |jobs| && Accounted(jobs, budget, s) && k < |jobs| && Startable(jobs, budget, s, k)
    ensures Accounted(jobs, budget, Start(jobs, s, k)) && Start(jobs, s, k).running > 0
  {
    LoadUpdate(jobs, s.status, k, Running);
  }

  lemma StartKeepsChannel(jobs: seq<Job>, s: State, k: nat)
    requires ChannelAgrees(s) && k < |jobs| && |s.status| == |jobs| && s.status[k] == Pending
    ensures ChannelAgrees(Start(jobs, s, k))
  {
    assert k !in s.executing;
  }

  lemma StartKeepsClosed(jobs: seq<Job>, s: State, k: nat)
    requires k < |jobs| && |s.status| == |jobs| && s.status[k] == Pending && Closed(jobs, s.status)
    ensures Closed(jobs, Start(jobs, s, k).status)
  {
  }

  /** While nothing is running, a pending job that is not started is not ready: it would fit. */
  lemma SkippedJobIsNotReady(jobs: seq<Job>, budget: Resources, s: State, k: nat)
    requires Acceptable(budget, jobs)
    requires |s.status| == |jobs| && Accounted(jobs, budget, s)
    requires k < |jobs| && !Startable(jobs, budget, s, k) && s.running == 0 && NoneReadyBelow(jobs, s, k)
    ensures NoneReadyBelow(jobs, s, k + 1)
  {
    NoLoadNoneRunning(jobs, s.status);
    assert SoundJob(budget, jobs[k]);
  }

  lemma ScanKeepsInv(jobs: seq<Job>, budget: Resources, s: State)
    requires Acceptable(budget, jobs)
    requires Inv(jobs, budget, s) && s.phase.Scan?
    ensures Inv(jobs, budget, LoopNext(jobs, budget, s))
  {
    var k := s.phase.next;
    if k >= |jobs| {
      KeepsAllButPhase(jobs, budget, s, CheckRunning);
    } else if Startable(jobs, budget, s, k) {
      StartKeepsInv(jobs, budget, s, k);
    } else {
      if s.running == 0 {
        SkippedJobIsNotReady(jobs, budget, s, k);
      }
      KeepsAllButPhase(jobs, budget, s, Scan(k + 1));
    }
  }

  lemma KeepsAllButPhase(jobs: seq<Job>, budget: Resources, s: State, phase: Phase)
    requires Inv(jobs, budget, s)
    ensures Accounted(jobs, budget, s.(phase := phase))
    ensures ChannelAgrees(s.(phase := phase))
    ensures StartsAgree(jobs, s.(phase := phase))
  {
  }

  lemma ReceiveKeepsInv(jobs: seq<Job>, budget: Resources, s: State)
    requires Acceptable(budget, jobs)
    requires Inv(jobs, budget, s) && s.phase == AwaitCompletion && s.completed != []
    ensures Inv(jobs, budget, Receive(jobs, s))
  {
    ReceiveIsAccounted(jobs, budget, s);
    ReceiveKeepsChannel(jobs, s);
    ReceiveKeepsStarts(jobs, s);
  }

  lemma ReceiveIsAccounted(jobs: seq<Job>, budget: Resources, s: State)
    requires Acceptable(budget, jobs) && |s.status| == |jobs| && Accounted(jobs, budget, s)
    requires s.completed != [] && s.completed[0].index < |jobs| && s.status[s.completed[0].index] == Running
    ensures Accounted(jobs, budget, Receive(jobs, s))
  {
    var c := s.completed[0];
    LoadUpdate(jobs, s.status, c.index, StatusOf(c));
    assert SoundJob(budget, jobs[c.index]);
  }

  lemma ReceiveKeepsChannel(jobs: seq<Job>, s: State)
    requires |s.status| == |jobs| && ChannelAgrees(s) && s.completed != []
    ensures ChannelAgrees(Receive(jobs, s))
  {
    var t := Receive(jobs, s);
    assert forall k :: 0 <= k < |t.completed| ==> t.completed[k] == s.completed[k + 1];
  }

  lemma ReceiveKeepsStarts(jobs: seq<Job>, s: State)
    requires |s.status| == |jobs| && StartsAgree(jobs, s) && s.completed != []
    requires s.completed[0].index < |jobs| && s.status[s.completed[0].index] == Running
    ensures StartsAgree(jobs, Receive(jobs, s))
  {
  }
}
