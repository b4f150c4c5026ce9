/** Go's byte-wise string order, sort.Strings, and the renderings of numbers used in names. */
module Strings {

  /**
   * The order of `sort.Strings`. Go compares the UTF-8 bytes, which orders strings of Unicode
   * scalar values by code point.
   */
  predicate Less(a: string, b: string) {
    if b == "" then false
    else if a == "" then true
    else a[0] < b[0] || (a[0] == b[0] && Less(a[1..], b[1..]))
  }

  lemma {:induction false} LessIsStrict(a: string)
    ensures !Less(a, a)
  {
    if a != "" {
      LessIsStrict(a[1..]);
    }
  }

  lemma {:induction false} LessIsTransitive(a: string, b: string, c: string)
    requires Less(a, b) && Less(b, c)
    ensures Less(a, c)
  {
    if a != "" && a[0] == b[0] == c[0] {
      LessIsTransitive(a[1..], b[1..], c[1..]);
    }
  }

  lemma {:induction false} LessIsTotal(a: string, b: string)
    ensures Less(a, b) || a == b || Less(b, a)
  {
    if a != "" && b != "" && a[0] == b[0] {
      LessIsTotal(a[1..], b[1..]);
      assert a == [a[0]] + a[1..] && b == [b[0]] + b[1..];
    }
  }

  /** In order, with equal neighbours allowed. */
  ghost predicate Sorted(names: seq<string>) {
    forall i, j :: 0 <= i < j < |names| ==> !Less(names[j], names[i])
  }

  /** In order and free of duplicates. */
  ghost predicate StrictlySorted(names: seq<string>) {
    forall i, j :: 0 <= i < j < |names| ==> Less(names[i], names[j])
  }

  ghost predicate Distinct<T>(xs: seq<T>) {
    forall i, j :: 0 <= i < j < |xs| ==> xs[i] != xs[j]
  }

  function Insert(name: string, names: seq<string>): (r: seq<string>)
    ensures multiset(r) == multiset(names) + multiset{name}
  {
    if names == [] then [name]
    else if Less(names[0], name) then
      assert names == [names[0]] + names[1..];
      [names[0]] + Insert(name, names[1..])
    else [name] + names
  }

  /** What `sort.Strings` leaves behind. */
  function Sort(names: seq<string>): (r: seq<string>)
    ensures multiset(r) == multiset(names)
  {
    if names == [] then [] else
      assert names == [names[0]] + names[1..];
      Insert(names[0], Sort(names[1..]))
  }

  lemma {:induction false} InsertKeepsSorted(name: string, names: seq<string>)
    requires Sorted(names)
    ensures Sorted(Insert(name, names))
  {
    if names != [] {
      var r := Insert(name, names);
      if Less(names[0], name) {
        var rest := Insert(name, names[1..]);
        InsertKeepsSorted(name, names[1..]);
        forall j | 0 <= j < |rest|
          ensures !Less(rest[j], names[0])
        {
          assert rest[j] in multiset(rest);
          if rest[j] == name {
            if Less(name, names[0]) { LessIsTransitive(name, names[0], name); LessIsStrict(name); }
          } else {
            assert rest[j] in names[1..];
          }
        }
      } else {
        forall j | 0 <= j < |names|
          ensures !Less(names[j], name)
        {
          if Less(names[j], name) {
            LessIsTotal(names[0], name);
            LessIsTotal(names[0], names[j]);
            if names[0] == name {
            } else if names[0] != names[j] {
              assert Less(name, names[0]);
              LessIsTransitive(names[j], name, names[0]);
            }
          }
        }
      }
    }
  }

  lemma {:induction false} SortSorts(names: seq<string>)
    ensures Sorted(Sort(names))
  {
    if names != [] {
      SortSorts(names[1..]);
      InsertKeepsSorted(names[0], Sort(names[1..]));
    }
  }

  lemma SortedDistinctIsStrict(names: seq<string>)
    requires Sorted(names) && Distinct(names)
    ensures StrictlySorted(names)
  {
    forall i, j | 0 <= i < j < |names|
      ensures Less(names[i], names[j])
    {
      LessIsTotal(names[i], names[j]);
    }
  }

  lemma SameElements<T>(a: seq<T>, b: seq<T>)
    requires multiset(a) == multiset(b)
    ensures |a| == |b|
    ensures forall x :: x in a <==> x in b
    ensures Distinct(a) <==> Distinct(b)
  {
    assert |a| == |multiset(a)| && |b| == |multiset(b)|;
    forall x ensures x in a <==> x in b {
      assert x in a <==> x in multiset(a);
      assert x in b <==> x in multiset(b);
    }
    DistinctByCount(a);
    DistinctByCount(b);
  }

  lemma {:induction false} DistinctByCount<T>(xs: seq<T>)
    ensures Distinct(xs) <==> forall x :: multiset(xs)[x] <= 1
  {
    if xs != [] {
      var rest := xs[1..];
      assert xs == [xs[0]] + rest;
      DistinctByCount(rest);
      if Distinct(xs) {
        assert xs[0] !in multiset(rest);
        assert forall i, j :: 0 <= i < j < |rest| ==> rest[i] == xs[i + 1] && rest[j] == xs[j + 1];
      } else {
        var i, j :| 0 <= i < j < |xs| && xs[i] == xs[j];
        if i == 0 {
          assert rest[j - 1] == xs[0];
          assert xs[0] in multiset(rest);
          assert multiset(xs)[xs[0]] >= 2;
        } else {
          assert rest[i - 1] == rest[j - 1];
          var x :| multiset(rest)[x] > 1;
          assert multiset(xs)[x] > 1;
        }
      }
    }
  }

  // ---- Decimal digits ----

  function Digit(d: nat): char
    requires d < 10
  {
    '0' + d as char
  }

  predicate IsDigit(c: char) {
    '0' <= c <= '9'
  }

  function DigitValue(c: char): nat
    requires IsDigit(c)
  {
    (c - '0') as nat
  }

  /** The `%d` rendering of a natural number. */
  function Decimal(n: nat): (s: string)
    ensures s != "" && forall c :: c in s ==> IsDigit(c)
  {
    if n < 10 then [Digit(n)] else Decimal(n / 10) + [Digit(n % 10)]
  }

  function DecimalValue(s: string): nat
    requires forall c :: c in s ==> IsDigit(c)
  {
    if s == "" then 0 else 10 * DecimalValue(s[..|s| - 1]) + DigitValue(s[|s| - 1])
  }

  lemma {:induction false} DecimalRoundTrip(n: nat)
    ensures DecimalValue(Decimal(n)) == n
  {
    if n < 10 {
      assert Decimal(n)[..0] == "";
    } else {
      DecimalRoundTrip(n / 10);
      assert Decimal(n)[..|Decimal(n)| - 1] == Decimal(n / 10);
    }
  }

  // ---- White space ----

  /** White space that strings.TrimSpace removes, within ASCII. */
  predicate IsBlank(c: char) {
    c == ' ' || c == '\t' || c == '\n' || c == '\r' || c as int == 11 || c as int == 12
  }

  function TrimLeft(s: string): string {
    if s != "" && IsBlank(s[0]) then TrimLeft(s[1..]) else s
  }

  function TrimRight(s: string): string {
    if s != "" && IsBlank(s[|s| - 1]) then TrimRight(s[..|s| - 1]) else s
  }

  function TrimSpace(s: string): string {
    TrimRight(TrimLeft(s))
  }

  lemma {:induction false} TrimOfPlain(s: string)
    requires forall i :: 0 <= i < |s| ==> !IsBlank(s[i])
    ensures TrimSpace(s) == s
    ensures s != "" ==> TrimSpace(s + "\n") == s
  {
    if s != "" {
      assert (s + "\n")[0] == s[0];
      assert TrimLeft(s + "\n") == s + "\n";
      assert (s + "\n")[..|s|] == s;
    }
  }
}
