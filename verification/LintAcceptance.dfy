/** acceptReport of internal/audit/lint_govard.go: what happens to a report before it becomes evidence. */
module LintAcceptance {
  import opened Wrappers
  import opened Strings
  import opened LintReport

  /** Paths are taken to be slash-separated already, which filepath.ToSlash makes them. */
  predicate IsGeneratedPath(path: string) {
    || "bootstrap/cache/" <= path || path == "bootstrap/cache"
    || "storage/" <= path
    || "var/" <= path || path == "var"
    || "vendor/" <= path || path == "vendor"
  }

  predicate IsGenerated(f: Finding) {
    f.path != "" && IsGeneratedPath(f.path)
  }

  predicate IsLimitation(f: Finding) {
    "Internal error:" <= f.message || f.path == "dev/tests" || "dev/tests/" <= f.path
  }

  /** The findings that satisfy p, in order. */
  function Keep(findings: seq<Finding>, p: Finding -> bool): (kept: seq<Finding>)
    ensures |kept| <= |findings|
  {
    if findings == [] then []
    else
      var last := findings[|findings| - 1];
      Keep(findings[..|findings| - 1], p) + (if p(last) then [last] else [])
  }

  predicate NotGenerated(f: Finding) {
    !IsGenerated(f)
  }

  predicate NotLimitation(f: Finding) {
    !IsLimitation(f)
  }

  /** About project code: neither on a generated path nor a limitation of the tools. */
  predicate Actionable(f: Finding) {
    !IsGenerated(f) && !IsLimitation(f)
  }

  function OutcomeOf(findings: seq<Finding>): string {
    if findings == [] then "passed" else "failed"
  }

  // ---- The stages, result by result ----

  function WithoutGenerated(r: PhpResult): PhpResult {
    var kept := Keep(r.findings, NotGenerated);
    if |kept| != |r.findings| then r.(findings := kept, outcome := OutcomeOf(kept)) else r.(findings := kept)
  }

  function WithoutLimitations(r: PhpResult): PhpResult {
    var kept := Keep(r.findings, NotLimitation);
    var dropped := |r.findings| - |kept|;
    if dropped == 0 then r else r.(findings := kept, limitedFindings := dropped, outcome := OutcomeOf(kept))
  }

  /** phaseTools. */
  function PhaseTool(name: string): Option<string> {
    if name == "phpcs" then Some("M2-LINT-PHPCS")
    else if name == "phpstan" then Some("M2-LINT-PHPSTAN")
    else if name == "compat" then Some("M2-LINT-COMPAT")
    else None
  }

  predicate HasToolFinding(findings: seq<Finding>, tool: string) {
    exists i :: 0 <= i < |findings| && findings[i].tool == tool
  }

  /** A failed tool phase without a finding of its tool is the tool's own error. */
  function Reclassified(phase: Phase, findings: seq<Finding>): Phase {
    var tool := PhaseTool(phase.name);
    if tool.Some? && phase.status == "failed"
        && !HasToolFinding(findings, tool.value) then phase.(status := "error") else phase
  }

  function ReclassifiedResult(r: PhpResult): PhpResult {
    r.(phases := seq(|r.phases|, i requires 0 <= i < |r.phases| => Reclassified(r.phases[i], r.findings)))
  }

  const TOOLCHAIN_PREFIX: string := "M2-LINT"

  function RenamedID(prefix: string, id: string): string {
    if TOOLCHAIN_PREFIX + "-" <= id then prefix + id[|TOOLCHAIN_PREFIX|..] else id
  }

  function Renamed(prefix: string, f: Finding): Finding {
    f.(tool := RenamedID(prefix, f.tool), rule := RenamedID(prefix, f.rule))
  }

  /** applyLintRuleIDPrefix; a blank prefix or the toolchain's own changes nothing. */
  function RenamedFindings(prefix: string, findings: seq<Finding>): (r: seq<Finding>)
    ensures |r| == |findings|
  {
    var p := TrimSpace(prefix);
    if p == "" || p == TOOLCHAIN_PREFIX then findings
    else seq(|findings|, i requires 0 <= i < |findings| => Renamed(p, findings[i]))
  }

  /** What acceptance makes of one result. */
  function Processed(prefix: string, r: PhpResult): PhpResult {
    var cleaned := ReclassifiedResult(WithoutLimitations(WithoutGenerated(r)));
    cleaned.(findings := RenamedFindings(prefix, cleaned.findings))
  }

  // ---- The stages as they run, in place on the shared slice ----

  method KeepFindings(findings: seq<Finding>, p: Finding -> bool) returns (kept: seq<Finding>)
    ensures kept == Keep(findings, p)
  {
    kept := [];
    for i := 0 to |findings|
      invariant kept == Keep(findings[..i], p)
    {
      assert findings[..i + 1][..i] == findings[..i];
      if p(findings[i]) {
        kept := kept + [findings[i]];
      }
    }
    assert findings[..|findings|] == findings;
  }

  method FilterGenerated(results: array<PhpResult>) returns (filtered: bool)
    modifies results
    ensures forall i :: 0 <= i < results.Length ==> results[i] == WithoutGenerated(old(results[i]))
    ensures filtered <==> exists i :: 0 <= i < results.Length && |results[i].findings| != |old(results[i].findings)|
  {
    filtered := false;
    for idx := 0 to results.Length
      invariant forall i :: 0 <= i < idx ==> results[i] == WithoutGenerated(old(results[i]))
      invariant forall i :: idx <= i < results.Length ==> results[i] == old(results[i])
      invariant filtered <==> exists i :: 0 <= i < idx && |results[i].findings| != |old(results[i].findings)|
    {
      var lost := FilterAt(results, idx);
      filtered := filtered || lost;
    }
  }

  method FilterAt(results: array<PhpResult>, idx: nat) returns (lost: bool)
    requires idx < results.Length
    modifies results
    ensures results[idx] == WithoutGenerated(old(results[idx]))
    ensures forall i :: 0 <= i < results.Length && i != idx ==> results[i] == old(results[i])
    ensures lost <==> |results[idx].findings| != |old(results[idx]).findings|
  {
    var original := |results[idx].findings|;
    var kept := KeepFindings(results[idx].findings, NotGenerated);
    results[idx] := results[idx].(findings := kept);
    lost := |kept| != original;
    if lost {
      results[idx] := results[idx].(outcome := if |kept| == 0 then "passed" else "failed");
    }
  }

  /** The number of limitations that the results lose. */
  function LimitationsIn(results: seq<PhpResult>): nat {
    if results == [] then 0
    else
      var last := results[|results| - 1];
      LimitationsIn(results[..|results| - 1]) + |last.findings| - |Keep(last.findings, NotLimitation)|
  }

  method PartitionResult(r: PhpResult) returns (result: PhpResult, dropped: nat)
    ensures result == WithoutLimitations(r)
    ensures dropped == |r.findings| - |Keep(r.findings, NotLimitation)|
  {
    var actionable := KeepFindings(r.findings, NotLimitation);
    dropped := |r.findings| - |actionable|;
    if dropped == 0 {
      return r, dropped;
    }
    result := r.(findings := actionable, limitedFindings := dropped,
                    outcome := if |actionable| == 0 then "passed" else "failed");
  }

  method PartitionAt(results: array<PhpResult>, idx: nat) returns (dropped: nat)
    requires idx < results.Length
    modifies results
    ensures results[idx] == WithoutLimitations(old(results[idx]))
    ensures forall i :: 0 <= i < results.Length && i != idx ==> results[i] == old(results[i])
    ensures dropped == |old(results[idx]).findings| - |Keep(old(results[idx]).findings, NotLimitation)|
  {
    var result;
    result, dropped := PartitionResult(results[idx]);
    results[idx] := result;
  }

  lemma LimitationsStep(results: seq<PhpResult>, n: nat)
    requires n < |results|
    ensures LimitationsIn(results[..n + 1])
         == LimitationsIn(results[..n]) + |results[n].findings| - |Keep(results[n].findings, NotLimitation)|
  {
    assert results[..n + 1][..n] == results[..n];
  }

  method PartitionLimitations(results: array<PhpResult>) returns (limited: nat)
    modifies results
    ensures forall i :: 0 <= i < results.Length ==> results[i] == WithoutLimitations(old(results[i]))
    ensures limited == LimitationsIn(old(results[..]))
  {
    ghost var before := results[..];
    limited := 0;
    for idx := 0 to results.Length
      invariant forall i :: 0 <= i < idx ==> results[i] == WithoutLimitations(before[i])
      invariant forall i :: idx <= i < results.Length ==> results[i] == before[i]
      invariant limited == LimitationsIn(before[..idx])
    {
      var dropped := PartitionAt(results, idx);
      LimitationsStep(before, idx);
      limited := limited + dropped;
    }
    assert before[..|before|] == before;
  }

  method ReclassifyPhases(results: array<PhpResult>)
    modifies results
    ensures forall i :: 0 <= i < results.Length ==> results[i] == ReclassifiedResult(old(results[i]))
  {
    for idx := 0 to results.Length
      invariant forall i :: 0 <= i < idx ==> results[i] == ReclassifiedResult(old(results[i]))
      invariant forall i :: idx <= i < results.Length ==> results[i] == old(results[i])
    {
      var phases := results[idx].phases;
      for p := 0 to |phases|
        invariant |phases| == |results[idx].phases|
        invariant forall q :: 0 <= q < p ==> phases[q] == Reclassified(results[idx].phases[q], results[idx].findings)
        invariant forall q :: p <= q < |phases| ==> phases[q] == results[idx].phases[q]
      {
        var tool := PhaseTool(phases[p].name);
        if tool.None? || phases[p].status != "failed" {
          continue;
        }
        if !HasToolFinding(results[idx].findings, tool.value) {
          phases := phases[p := phases[p].(status := "error")];
        }
      }
      results[idx] := results[idx].(phases := phases);
    }
  }

  method ApplyPrefix(results: array<PhpResult>, prefix: string)
    modifies results
    ensures forall i :: 0 <= i < results.Length ==>
              results[i] == old(results[i]).(findings := RenamedFindings(prefix, old(results[i]).findings))
  {
    var p := TrimSpace(prefix);
    if p == "" || p == TOOLCHAIN_PREFIX {
      return;
    }
    for idx := 0 to results.Length
      invariant forall i :: 0 <= i < idx ==>
                  results[i] == old(results[i]).(findings := RenamedFindings(prefix, old(results[i]).findings))
      invariant forall i :: idx <= i < results.Length ==> results[i] == old(results[i])
    {
      var findings := results[idx].findings;
      for j := 0 to |findings|
        invariant |findings| == |results[idx].findings|
        invariant forall q :: 0 <= q < j ==> findings[q] == Renamed(p, results[idx].findings[q])
        invariant forall q :: j <= q < |findings| ==> findings[q] == results[idx].findings[q]
      {
        findings := findings[j := findings[j].(tool := RenamedID(p, findings[j].tool),
            rule := RenamedID(p, findings[j].rule))];
      }
      results[idx] := results[idx].(findings := findings);
    }
  }

  // ---- Acceptance ----

  datatype Rejection =
    | Invalid(error: LintError) | WrongImage | WrongToolchain | BadCacheEvidence | WrongExitStatus

  /** govardLintStatusForExit. */
  function StatusForExit(exitCode: int): string {
    if exitCode == 1 then "failed"
    else if exitCode == 2 then "infra_error"
    else if exitCode == 3 then "unsupported"
    else if exitCode == 143 then "cancelled"
    else "passed"
  }

  predicate CacheEvidenceIsSound(request: Request, results: seq<PhpResult>) {
    forall i :: 0 <= i < |results| ==>
      && results[i].cacheState in ["cold", "warm", "bypassed"]
      && !(request.bypassResultCache && results[i].cacheState == "warm")
  }

  /** Whether acceptance takes any finding away. */
  ghost predicate LosesFindings(results: seq<PhpResult>) {
    exists i :: 0 <= i < |results|
        && |WithoutLimitations(WithoutGenerated(results[i])).findings| != |results[i].findings|
  }

  lemma {:induction false} NoLimitations(results: seq<PhpResult>)
    ensures LimitationsIn(results) == 0 <==> forall i :: 0 <= i < |results| ==>
        |Keep(results[i].findings, NotLimitation)| == |results[i].findings|
  {
    if results != [] {
      NoLimitations(results[..|results| - 1]);
    }
  }

  ghost predicate Checked(request: Request, report: Report, results: seq<PhpResult>, imageDigest: string,
      toolchainDigest: string) {
    && ReportIsSound(request, report, results)
    && report.imageDigest == imageDigest && report.toolchainDigest == toolchainDigest
    && CacheEvidenceIsSound(request, results)
  }

  /** The checks of acceptReport before anything is changed. */
  method CheckReport(request: Request, report: Report, results: seq<PhpResult>, imageDigest: string,
      toolchainDigest: string)
    returns (r: Option<Rejection>)
    ensures r.None? <==> Checked(request, report, results, imageDigest, toolchainDigest)
  {
    var invalid := ValidateReport(request, report, results);
    if invalid.Some? {
      return Some(Invalid(invalid.value));
    }
    if report.imageDigest != imageDigest {
      return Some(WrongImage);
    }
    if report.toolchainDigest != toolchainDigest {
      return Some(WrongToolchain);
    }
    if !CacheEvidenceIsSound(request, results) {
      return Some(BadCacheEvidence);
    }
    return None;
  }

  method ProcessResults(results: array<PhpResult>, prefix: string) returns (changed: bool)
    modifies results
    ensures forall i :: 0 <= i < results.Length ==> results[i] == Processed(prefix, old(results[i]))
    ensures changed <==> LosesFindings(old(results[..]))
  {
    ghost var original := results[..];
    var filtered := FilterGenerated(results);
    ghost var kept := results[..];
    var limited := PartitionLimitations(results);
    NoLimitations(kept);
    ReclassifyPhases(results);
    ApplyPrefix(results, prefix);
    changed := filtered || limited > 0;
    forall i | 0 <= i < |original|
      ensures |WithoutLimitations(WithoutGenerated(original[i])).findings| != |original[i].findings|
              <==>
                  |kept[i].findings| != |original[i].findings|
                  || |Keep(kept[i].findings, NotLimitation)| != |kept[i].findings|
    {
      assert kept[i] == WithoutGenerated(original[i]);
    }
  }

  /**
   * An accepted report passed every check as the container wrote it; its results are the processed ones,
   * and its status is their aggregate, which is the container's own status, confirmed by the exit code,
   * when no finding was taken away.
   */
  method AcceptReport(request: Request, report: Report, results: array<PhpResult>, exitCode: int,
                      imageDigest: string, toolchainDigest: string)
    returns (r: Result<Report, Rejection>)
    modifies results
    ensures r.Success? <==>
              && Checked(request, report, old(results[..]), imageDigest, toolchainDigest)
              && (LosesFindings(old(results[..])) || report.status == StatusForExit(exitCode))
    ensures r.Success? ==> forall i :: 0 <= i < results.Length ==>
        results[i] == Processed(request.ruleIDPrefix, old(results[i]))
    ensures r.Success? ==>
        AggregateStatus(results[..]) == Some(r.value.status) && r.value == report.(status := r.value.status)
    ensures r.Success? && !LosesFindings(old(results[..])) ==> r.value == report
  {
    ghost var original := results[..];
    var problem := CheckReport(request, report, results[..], imageDigest, toolchainDigest);
    if problem.Some? {
      return Failure(problem.value);
    }
    var changed := ProcessResults(results, request.ruleIDPrefix);
    ProcessedHasAggregate(request, original, results[..]);
    if changed {
      var status := Aggregate(results[..]);
      if status.None? {
        return Success(report);
      }
      return Success(report.(status := status.value));
    }
    if report.status != StatusForExit(exitCode) {
      return Failure(WrongExitStatus);
    }
    UnchangedKeepsAggregate(request.ruleIDPrefix, original, results[..]);
    return Success(report);
  }

  lemma ProcessedHasAggregate(request: Request, original: seq<PhpResult>, processed: seq<PhpResult>)
    requires AggregateStatus(original).Some?
    requires |processed| == |original|
    requires forall i :: 0 <= i < |original| ==> processed[i] == Processed(request.ruleIDPrefix, original[i])
    ensures AggregateStatus(processed).Some?
  {
    forall i | 0 <= i < |processed|
      ensures OutcomeAllowed(processed[i].outcome)
    {
      assert OutcomeAllowed(original[i].outcome);
    }
  }

  lemma UnchangedKeepsAggregate(prefix: string, original: seq<PhpResult>, processed: seq<PhpResult>)
    requires |processed| == |original| && !LosesFindings(original)
    requires forall i :: 0 <= i < |original| ==> processed[i] == Processed(prefix, original[i])
    ensures AggregateStatus(processed) == AggregateStatus(original)
  {
    forall i | 0 <= i < |original|
      ensures processed[i].outcome == original[i].outcome
    {
      assert |WithoutLimitations(WithoutGenerated(original[i])).findings| == |original[i].findings|;
      assert processed[i].outcome == WithoutLimitations(WithoutGenerated(original[i])).outcome;
    }
  }

  // ---- What acceptance conserves ----

  lemma {:induction false} KeepTwice(findings: seq<Finding>)
    ensures Keep(Keep(findings, NotGenerated), NotLimitation) == Keep(findings, Actionable)
  {
    if findings != [] {
      var n := |findings| - 1;
      KeepTwice(findings[..n]);
      var kept, all := Keep(findings[..n], NotGenerated), Keep(findings, NotGenerated);
      if NotGenerated(findings[n]) {
        assert all == kept + [findings[n]] && all[..|all| - 1] == kept;
        assert Keep(all, NotLimitation)
            == Keep(kept, NotLimitation) + (if NotLimitation(findings[n]) then [findings[n]] else []);
      } else {
        assert all == kept;
      }
      assert Actionable(findings[n]) <==> NotGenerated(findings[n]) && NotLimitation(findings[n]);
    }
  }

  lemma {:induction false} KeepAll(findings: seq<Finding>, p: Finding -> bool)
    ensures |Keep(findings, p)| == |findings| ==> Keep(findings, p) == findings
  {
    if findings != [] {
      KeepAll(findings[..|findings| - 1], p);
    }
  }

  /** A limitation on a path that is linted. */
  predicate CountedLimitation(f: Finding) {
    !IsGenerated(f) && IsLimitation(f)
  }

  lemma {:induction false} KeepPartitions(findings: seq<Finding>)
    ensures |Keep(findings, NotGenerated)| == |Keep(findings, Actionable)| + |Keep(findings, CountedLimitation)|
  {
    if findings != [] {
      KeepPartitions(findings[..|findings| - 1]);
    }
  }

  /**
   * Conservation: before the ids are renamed, a result's findings are its original ones, in order,
   * without exactly those on generated paths and the tool limitations. The limitations that are not on
   * generated paths are counted when there are any. A result that lost a finding is passed iff none
   * remain and failed otherwise; one that lost none keeps its outcome.
   */
  lemma FindingsAreConserved(r: PhpResult)
    ensures var after := WithoutLimitations(WithoutGenerated(r));
            && after.findings == Keep(r.findings, Actionable)
            && after.limitedFindings == (if Keep(r.findings, CountedLimitation) != []
                then |Keep(r.findings, CountedLimitation)| else r.limitedFindings)
            && after.outcome == (if |after.findings| != |r.findings| then OutcomeOf(after.findings) else r.outcome)
            && after.phpVersion == r.phpVersion && after.phases == r.phases && after.cacheState == r.cacheState
  {
    KeepTwice(r.findings);
    KeepPartitions(r.findings);
    KeepAll(Keep(r.findings, NotGenerated), NotLimitation);
  }

  /** Reclassifying and renaming touch neither outcomes nor counts, and renaming only ids. */
  lemma ProcessedIsConservedAndRenamed(prefix: string, r: PhpResult)
    ensures var after := Processed(prefix, r);
            && after.findings == RenamedFindings(prefix, Keep(r.findings, Actionable))
            && after.outcome == WithoutLimitations(WithoutGenerated(r)).outcome
            && after.limitedFindings == WithoutLimitations(WithoutGenerated(r)).limitedFindings
            && |after.phases| == |r.phases|
            && forall p :: 0 <= p < |r.phases| ==>
                 after.phases[p].name == r.phases[p].name
                 && (after.phases[p].status == r.phases[p].status
                     || (r.phases[p].status == "failed" && after.phases[p].status == "error"
                         && PhaseTool(r.phases[p].name).Some?
                         && !HasToolFinding(Keep(r.findings, Actionable), PhaseTool(r.phases[p].name).value)))
  {
    FindingsAreConserved(r);
  }

  /**
   * A lost finding overrides any outcome: a result that was an infrastructure error and reported one
   * finding, on a generated path, is accepted as passed.
   */
  lemma LostFindingOverridesOutcome(prefix: string, r: PhpResult, f: Finding)
    requires r.findings == [f] && IsGenerated(f)
    ensures Processed(prefix, r).outcome == "passed" && Processed(prefix, r).findings == []
  {
    assert r.findings[..0] == [];
    assert Keep(r.findings, NotGenerated) == [];
    ProcessedIsConservedAndRenamed(prefix, r);
  }
}
