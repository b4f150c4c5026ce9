/** Lint reports and their validation: internal/audit/lint.go. */
module LintReport {
  import opened Wrappers
  import opened Strings

  datatype Finding = Finding(tool: string, rule: string, path: string, line: int, message: string)

  datatype Phase = Phase(name: string, status: string)

  datatype PhpResult = PhpResult(
    phpVersion: string, outcome: string, cacheState: string,
    phases: seq<Phase>, findings: seq<Finding>, limitedFindings: int)

  /** The identity fields a report has to repeat from its request. */
  datatype Identity = Identity(
    provider: string, sessionID: string, runID: string, projectID: string,
    targetID: string, targetMode: string, targetPath: string)

  datatype Request = Request(
    identity: Identity, projectPolicy: seq<string>, standalonePolicy: seq<string>,
    selected: seq<string>, matrixComplete: bool, bypassResultCache: bool, ruleIDPrefix: string)

  /** A report without its PHP results, which are a slice shared by everybody who has the report. */
  datatype Report = Report(
    schemaVersion: int, identity: Identity, imageDigest: string, toolchainDigest: string,
    status: string, selected: seq<string>, matrixComplete: bool)

  const REPORT_SCHEMA_VERSION: int := 2
  const STANDALONE: string := "standalone"

  datatype LintError =
    | BadSchema | BadIdentity | NoToolchainIdentity
    | NothingSelected | DuplicateSelected(version: string) | UnsupportedSelected(version: string)
    | RequestMatrixMismatch
    | SelectionMismatch | MatrixMismatch
    | DuplicateResult(version: string) | UnrequestedResult(version: string) | BadOutcome(version: string)
    | NoPhases(version: string) | IncompletePhase(version: string) | MissingResult(version: string)
    | NoResults | StatusMismatch

  // ---- String sets ----

  /** What sameStringSet decides. It checks only the left side for duplicates. */
  ghost predicate SameStringSet(left: seq<string>, right: seq<string>) {
    |left| == |right| && Distinct(left) && forall value :: value in right ==> value in left
  }

  method SameStrings(left: seq<string>, right: seq<string>) returns (same: bool)
    ensures same <==> SameStringSet(left, right)
  {
    if |left| != |right| {
      return false;
    }
    var seen: set<string> := {};
    for i := 0 to |left|
      invariant seen == (set k | 0 <= k < i :: left[k])
      invariant |seen| <= i
      invariant |seen| == i <==> Distinct(left[..i])
    {
      assert left[..i + 1] == left[..i] + [left[i]];
      assert left[i] in seen <==> left[i] in left[..i];
      assert (set k | 0 <= k < i + 1 :: left[k]) == seen + {left[i]};
      if Distinct(left[..i]) && left[i] !in seen {
        assert Distinct(left[..i + 1]);
      }
      if Distinct(left[..i + 1]) {
        assert forall a, b :: 0 <= a < b < i ==> left[..i][a] == left[..i + 1][a] && left[..i][b] == left[..i + 1][b];
        assert left[..i + 1][i] == left[i];
      }
      seen := seen + {left[i]};
    }
    assert left[..|left|] == left;
    if |seen| != |left| {
      return false;
    }
    for i := 0 to |right|
      invariant forall k :: 0 <= k < i ==> right[k] in left
    {
      if right[i] !in seen {
        assert right[i] in right;
        return false;
      }
    }
    same := true;
  }

  lemma {:induction false} DistinctSameMembers(a: seq<string>, b: seq<string>)
    requires Distinct(a) && Distinct(b) && forall x :: x in a <==> x in b
    ensures multiset(a) == multiset(b)
  {
    DistinctByCount(a);
    DistinctByCount(b);
    forall x
      ensures multiset(a)[x] == multiset(b)[x]
    {
      assert x in multiset(a) <==> x in a;
      assert x in multiset(b) <==> x in b;
    }
  }

  lemma {:induction false} DistinctContained(a: seq<string>, b: seq<string>)
    requires Distinct(a) && Distinct(b) && |a| == |b| && forall x :: x in b ==> x in a
    ensures forall x :: x in a ==> x in b
  {
    DistinctByCount(a);
    DistinctByCount(b);
    forall x
      ensures multiset(b)[x] <= multiset(a)[x]
    {
      assert x in multiset(b) <==> x in b;
      assert x in multiset(a) <==> x in a;
    }
    assert multiset(b) <= multiset(a);
    var rest := multiset(a) - multiset(b);
    assert multiset(a) == multiset(b) + rest;
    assert |multiset(a)| == |a| && |multiset(b)| == |b|;
    assert |rest| == 0;
    forall x | x in a ensures x in b {
      assert x in multiset(a);
      assert x !in rest;
      assert x in multiset(b);
    }
  }

  /** On a right side without duplicates the decision is whether one is a permutation of the other. */
  lemma SameSetIsPermutation(left: seq<string>, right: seq<string>)
    requires Distinct(right)
    ensures SameStringSet(left, right) <==> multiset(left) == multiset(right)
  {
    if SameStringSet(left, right) {
      DistinctContained(left, right);
      DistinctSameMembers(left, right);
    }
    if multiset(left) == multiset(right) {
      SameElements(left, right);
    }
  }

  /** With duplicates on the right it can say yes to lists that are not. */
  lemma DuplicatesFoolSameSet()
    ensures SameStringSet(["8.2", "8.3"], ["8.2", "8.2"])
    ensures multiset(["8.2", "8.3"]) != multiset(["8.2", "8.2"])
  {
    assert multiset(["8.2", "8.3"])["8.3"] == 1;
    assert multiset(["8.2", "8.2"])["8.3"] == 0;
  }

  // ---- The matrix ----

  function Policy(request: Request): seq<string> {
    if request.identity.targetMode == STANDALONE then request.standalonePolicy else request.projectPolicy
  }

  /** What the request's own completeness flag has to be. */
  ghost predicate CoversPolicy(request: Request) {
    request.identity.targetMode != STANDALONE || SameStringSet(request.selected, Policy(request))
  }

  ghost predicate MatrixIsSound(request: Request) {
    && request.selected != [] && Distinct(request.selected)
    && (forall version :: version in request.selected ==> version in Policy(request))
    && (request.matrixComplete <==> CoversPolicy(request))
  }

  method ValidateMatrix(request: Request) returns (r: Option<LintError>)
    ensures r.None? <==> MatrixIsSound(request)
  {
    var policy := if request.identity.targetMode == STANDALONE then request.standalonePolicy else request.projectPolicy;
    if |request.selected| == 0 {
      return Some(NothingSelected);
    }
    var seen: set<string> := {};
    for i := 0 to |request.selected|
      invariant seen == (set k | 0 <= k < i :: request.selected[k])
      invariant forall a, b :: 0 <= a < b < i ==> request.selected[a] != request.selected[b]
      invariant forall k :: 0 <= k < i ==> request.selected[k] in policy
    {
      var version := request.selected[i];
      if version in seen {
        return Some(DuplicateSelected(version));
      }
      seen := seen + {version};
      if version !in policy {
        assert version in request.selected;
        return Some(UnsupportedSelected(version));
      }
    }
    var same := SameStrings(request.selected, policy);
    var complete := request.identity.targetMode != STANDALONE || same;
    if request.matrixComplete != complete {
      return Some(RequestMatrixMismatch);
    }
    return None;
  }

  // ---- Results and their aggregate ----

  predicate OutcomeAllowed(outcome: string) {
    outcome in ["passed", "failed", "unsupported", "infra_error", "cancelled"]
  }

  ghost predicate HasOutcome(results: seq<PhpResult>, outcome: string) {
    exists i :: 0 <= i < |results| && results[i].outcome == outcome
  }

  /** The worst outcome wins; None where there is no aggregate. */
  ghost function AggregateStatus(results: seq<PhpResult>): Option<string> {
    if results == [] || exists i :: 0 <= i < |results| && !OutcomeAllowed(results[i].outcome) then None
    else if HasOutcome(results, "cancelled") then Some("cancelled")
    else if HasOutcome(results, "infra_error") then Some("infra_error")
    else if HasOutcome(results, "failed") then Some("failed")
    else if HasOutcome(results, "passed") then Some("passed")
    else Some("unsupported")
  }

  method Aggregate(results: seq<PhpResult>) returns (status: Option<string>)
    ensures status == AggregateStatus(results)
  {
    if |results| == 0 {
      return None;
    }
    var hasCancelled, hasInfraError, hasFailed, hasPassed := false, false, false, false;
    for i := 0 to |results|
      invariant forall k :: 0 <= k < i ==> OutcomeAllowed(results[k].outcome)
      invariant hasCancelled <==> exists k :: 0 <= k < i && results[k].outcome == "cancelled"
      invariant hasInfraError <==> exists k :: 0 <= k < i && results[k].outcome == "infra_error"
      invariant hasFailed <==> exists k :: 0 <= k < i && results[k].outcome == "failed"
      invariant hasPassed <==> exists k :: 0 <= k < i && results[k].outcome == "passed"
    {
      var outcome := results[i].outcome;
      if !OutcomeAllowed(outcome) {
        return None;
      }
      if outcome == "cancelled" {
        hasCancelled := true;
      } else if outcome == "infra_error" {
        hasInfraError := true;
      } else if outcome == "failed" {
        hasFailed := true;
      } else if outcome == "passed" {
        hasPassed := true;
      }
    }
    if hasCancelled {
      return Some("cancelled");
    } else if hasInfraError {
      return Some("infra_error");
    } else if hasFailed {
      return Some("failed");
    } else if hasPassed {
      return Some("passed");
    }
    return Some("unsupported");
  }

  predicate PhasesAreComplete(phases: seq<Phase>) {
    phases != [] && forall i :: 0 <= i < |phases| ==> phases[i].name != "" && phases[i].status != ""
  }

  function Versions(results: seq<PhpResult>): (versions: seq<string>)
    ensures |versions| == |results| && forall i :: 0 <= i < |results| ==> versions[i] == results[i].phpVersion
  {
    seq(|results|, i requires 0 <= i < |results| => results[i].phpVersion)
  }

  predicate ResultIsSound(expected: seq<string>, result: PhpResult) {
    result.phpVersion in expected && OutcomeAllowed(result.outcome) && PhasesAreComplete(result.phases)
  }

  ghost predicate ResultsAreSound(expected: seq<string>, results: seq<PhpResult>) {
    && Distinct(Versions(results))
    && (forall i :: 0 <= i < |results| ==> ResultIsSound(expected, results[i]))
    && (forall version :: version in expected ==> version in Versions(results))
  }

  method ValidateResults(expected: seq<string>, results: seq<PhpResult>) returns (r: Option<LintError>)
    ensures r.None? <==> ResultsAreSound(expected, results)
  {
    var seen: set<string> := {};
    for i := 0 to |results|
      invariant seen == (set k | 0 <= k < i :: results[k].phpVersion)
      invariant forall a, b :: 0 <= a < b < i ==> results[a].phpVersion != results[b].phpVersion
      invariant forall k :: 0 <= k < i ==> ResultIsSound(expected, results[k])
    {
      var version := results[i].phpVersion;
      if version in seen {
        assert Versions(results)[i] == version;
        return Some(DuplicateResult(version));
      }
      seen := seen + {version};
      if version !in expected {
        return Some(UnrequestedResult(version));
      }
      if !OutcomeAllowed(results[i].outcome) {
        return Some(BadOutcome(version));
      }
      if |results[i].phases| == 0 {
        return Some(NoPhases(version));
      }
      for p := 0 to |results[i].phases|
        invariant forall q :: 0 <= q < p ==> results[i].phases[q].name != "" && results[i].phases[q].status != ""
      {
        if results[i].phases[p].name == "" || results[i].phases[p].status == "" {
          return Some(IncompletePhase(version));
        }
      }
    }
    assert forall version :: version in seen <==> version in Versions(results);
    for i := 0 to |expected|
      invariant forall k :: 0 <= k < i ==> expected[k] in Versions(results)
    {
      if expected[i] !in seen {
        return Some(MissingResult(expected[i]));
      }
    }
    return None;
  }

  // ---- Validation ----

  predicate IdentityMatches(report: Identity, request: Identity) {
    && report == request
    && report.provider != "" && report.sessionID != "" && report.runID != "" && report.projectID != ""
    && report.targetID != "" && report.targetMode != "" && report.targetPath != ""
  }

  ghost predicate ReportIsSound(request: Request, report: Report, results: seq<PhpResult>) {
    && report.schemaVersion == REPORT_SCHEMA_VERSION
    && IdentityMatches(report.identity, request.identity)
    && report.imageDigest != "" && report.toolchainDigest != ""
    && MatrixIsSound(request)
    && report.selected == request.selected
    && report.matrixComplete == request.matrixComplete
    && ResultsAreSound(request.selected, results)
    && AggregateStatus(results) == Some(report.status)
  }

  method ValidateReport(request: Request, report: Report, results: seq<PhpResult>) returns (r: Option<LintError>)
    ensures r.None? <==> ReportIsSound(request, report, results)
  {
    if report.schemaVersion != REPORT_SCHEMA_VERSION {
      return Some(BadSchema);
    }
    if !IdentityMatches(report.identity, request.identity) {
      return Some(BadIdentity);
    }
    if report.imageDigest == "" || report.toolchainDigest == "" {
      return Some(NoToolchainIdentity);
    }
    r := ValidateMatrix(request);
    if r.Some? {
      return;
    }
    if report.selected != request.selected {
      return Some(SelectionMismatch);
    }
    if report.matrixComplete != request.matrixComplete {
      return Some(MatrixMismatch);
    }
    r := ValidateResults(request.selected, results);
    if r.Some? {
      return;
    }
    var status := Aggregate(results);
    if status.None? {
      return Some(NoResults);
    }
    if report.status != status.value {
      return Some(StatusMismatch);
    }
    return None;
  }

  /** An accepted report has exactly one result for each selected version. */
  lemma ResultsAreAPermutation(request: Request, report: Report, results: seq<PhpResult>)
    requires ReportIsSound(request, report, results)
    ensures Distinct(Versions(results)) && multiset(Versions(results)) == multiset(request.selected)
  {
    forall version | version in Versions(results)
      ensures version in request.selected
    {
      var i :| 0 <= i < |results| && Versions(results)[i] == version;
      assert ResultIsSound(request.selected, results[i]);
    }
    DistinctSameMembers(Versions(results), request.selected);
  }

  /**
   * For a standalone target an accepted report says the matrix is complete exactly when its selection is
   * a permutation of the policy. That sameStringSet ignores duplicates on its right does not matter
   * here: every selected version is also checked to be in the policy.
   */
  lemma CompleteMeansPermutation(request: Request, report: Report, results: seq<PhpResult>)
    requires ReportIsSound(request, report, results) && request.identity.targetMode == STANDALONE
    ensures report.matrixComplete <==> multiset(report.selected) == multiset(request.standalonePolicy)
  {
    var selected, policy := request.selected, request.standalonePolicy;
    if report.matrixComplete {
      SameMembersSameLength(selected, policy);
      SameSetIsPermutation(selected, policy);
    }
    if multiset(selected) == multiset(policy) {
      SameElements(selected, policy);
    }
  }

  /** A list as long as a duplicate-free one with the same members has no duplicates itself. */
  lemma SameMembersSameLength(a: seq<string>, b: seq<string>)
    requires Distinct(a) && |a| == |b| && forall x :: x in a <==> x in b
    ensures Distinct(b)
  {
    DistinctByCount(a);
    forall x
      ensures multiset(a)[x] <= multiset(b)[x]
    {
      assert x in multiset(a) <==> x in a;
      assert x in multiset(b) <==> x in b;
    }
    assert multiset(a) <= multiset(b);
    var rest := multiset(b) - multiset(a);
    assert multiset(b) == multiset(a) + rest;
    assert |multiset(a)| == |a| && |multiset(b)| == |b|;
    assert |rest| == 0;
    assert multiset(a) == multiset(b);
    SameElements(a, b);
  }
}
