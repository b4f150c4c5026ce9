/** IDs of the audit store: validateID, run IDs and lease owners (internal/audit/store.go, profiler.go). */
module Identifiers {
  import opened Strings

  predicate IDChar(c: char) {
    'A' <= c <= 'Z' || 'a' <= c <= 'z' || '0' <= c <= '9' || c == '.' || c == '_' || c == '-'
  }

  /** validateID accepts the value. */
  predicate ValidID(value: string) {
    value != "" && value != "." && value != ".." && forall i :: 0 <= i < |value| ==> IDChar(value[i])
  }

  function Zeros(n: nat): (z: string)
    ensures |z| == n && forall i :: 0 <= i < |z| ==> z[i] == '0'
  {
    if n == 0 then "" else Zeros(n - 1) + "0"
  }

  /** `%04d`. */
  function Padded(n: nat): (s: string)
    ensures |s| >= 4 && forall c :: c in s ==> IsDigit(c)
  {
    var digits := Decimal(n);
    if |digits| < 4 then Zeros(4 - |digits|) + digits else digits
  }

  function RunID(n: nat): string {
    "run-" + Padded(n)
  }

  lemma RunIDIsValid(n: nat)
    ensures ValidID(RunID(n))
  {
    var id := RunID(n);
    forall i | 0 <= i < |id|
      ensures IDChar(id[i])
    {
      if i >= 4 {
        assert id[i] == Padded(n)[i - 4];
        assert IsDigit(Padded(n)[i - 4]);
      }
    }
  }

  lemma {:induction false} LeadingZeros(zeros: string, digits: string)
    requires (forall i :: 0 <= i < |zeros| ==> zeros[i] == '0') && (forall c :: c in digits ==> IsDigit(c))
    ensures forall c :: c in zeros + digits ==> IsDigit(c)
    ensures DecimalValue(zeros + digits) == DecimalValue(digits)
    decreases |digits|, |zeros|
  {
    var s := zeros + digits;
    if digits != "" {
      var front := digits[..|digits| - 1];
      LeadingZeros(zeros, front);
      assert s[..|s| - 1] == zeros + front;
    } else if zeros != "" {
      LeadingZeros(zeros[..|zeros| - 1], "");
      assert s[..|s| - 1] == zeros[..|zeros| - 1] + "";
      assert s[|s| - 1] == '0';
    }
  }

  lemma PaddedRoundTrip(n: nat)
    ensures DecimalValue(Padded(n)) == n
  {
    var digits := Decimal(n);
    DecimalRoundTrip(n);
    if |digits| < 4 {
      LeadingZeros(Zeros(4 - |digits|), digits);
    }
  }

  /** Different numbers never share a run ID, however many digits they have. */
  lemma RunIDIsInjective(m: nat, n: nat)
    requires RunID(m) == RunID(n)
    ensures m == n
  {
    assert RunID(m)[4..] == Padded(m) && RunID(n)[4..] == Padded(n);
    PaddedRoundTrip(m);
    PaddedRoundTrip(n);
  }

  /** The owner a profiler job records in its lease. */
  function Owner(sessionID: string, runID: string): string {
    sessionID + ":" + runID
  }

  /** Runs of different sessions, or different runs of one, never share a lease owner. */
  lemma OwnerIsInjective(s: string, r: string, s2: string, r2: string)
    requires ValidID(s) && ValidID(s2) && Owner(s, r) == Owner(s2, r2)
    ensures s == s2 && r == r2
  {
    var owner := Owner(s, r);
    assert owner[|s|] == ':' && owner[|s2|] == ':';
    forall k | 0 <= k < |s| ensures owner[k] != ':' {
      assert owner[k] == s[k] && IDChar(s[k]);
    }
    forall k | 0 <= k < |s2| ensures owner[k] != ':' {
      assert owner[k] == s2[k] && IDChar(s2[k]);
    }
    assert |s| == |s2|;
    assert s == owner[..|s|] && s2 == owner[..|s2|];
    assert r == owner[|s| + 1..] && r2 == owner[|s2| + 1..];
  }
}
