/** buildCacheKey.ID of internal/cmd/deploy_build_cache.go, up to the hash of its preimage. */
module BuildCacheKey {
  import opened Strings

  /** Field values are byte strings, one character per byte. */
  datatype Key = Key(
    revision: string, composerLockSHA256: string, php: string, mode: string,
    govardVersion: string, inputsSHA256: string, tools: string, binary: string)

  /** The fields in the order they are hashed. */
  function FieldsOf(k: Key): seq<string> {
    [k.revision, k.composerLockSHA256, k.php, k.mode, k.govardVersion, k.inputsSHA256, k.binary, k.tools]
  }

  /** `%d:%s;` */
  function Framed(field: string): string {
    Decimal(|field|) + ":" + field + ";"
  }

  function Preimage(fields: seq<string>): string {
    if fields == [] then "" else Framed(fields[0]) + Preimage(fields[1..])
  }

  method HashedBytes(key: Key) returns (bytes: string)
    ensures bytes == Preimage(FieldsOf(key))
  {
    var fields := FieldsOf(key);
    bytes := "";
    for i := 0 to |fields|
      invariant bytes + Preimage(fields[i..]) == Preimage(fields)
    {
      assert fields[i..][1..] == fields[i + 1..];
      assert bytes + (Framed(fields[i]) + Preimage(fields[i + 1..]))
          == bytes + Framed(fields[i]) + Preimage(fields[i + 1..]);
      bytes := bytes + Framed(fields[i]);
    }
    assert fields[|fields|..] == [];
  }

  /** A framed field can be told from whatever follows it. */
  lemma FrameIsSelfDelimiting(a: string, b: string, restA: string, restB: string)
    requires Framed(a) + restA == Framed(b) + restB
    ensures a == b && restA == restB
  {
    var s := Framed(a) + restA;
    var m, n := |Decimal(|a|)|, |Decimal(|b|)|;
    ColonEndsLength(a, restA);
    ColonEndsLength(b, restB);
    assert m == n;
    assert Decimal(|a|) == s[..m] && Decimal(|b|) == s[..n];
    DecimalRoundTrip(|a|);
    DecimalRoundTrip(|b|);
    assert |a| == |b|;
    FrameParts(a, restA);
    FrameParts(b, restB);
  }

  /** The first colon ends the length. */
  lemma ColonEndsLength(a: string, rest: string)
    ensures var s, m := Framed(a) + rest, |Decimal(|a|)|;
            |s| > m && s[m] == ':' && forall k :: 0 <= k < m ==> s[k] != ':'
  {
    var s, m := Framed(a) + rest, |Decimal(|a|)|;
    forall k | 0 <= k < m ensures s[k] != ':' {
      assert s[k] == Decimal(|a|)[k] && IsDigit(Decimal(|a|)[k]);
    }
  }

  lemma FrameParts(a: string, rest: string)
    ensures var s, m := Framed(a) + rest, |Decimal(|a|)|;
            |s| >= m + |a| + 2 && a == s[m + 1..m + 1 + |a|] && rest == s[m + |a| + 2..]
  {
  }

  /** No field boundary can be shifted: equal preimages come from equal fields. */
  lemma {:induction false} PreimageIsInjective(a: seq<string>, b: seq<string>)
    requires |a| == |b| && Preimage(a) == Preimage(b)
    ensures a == b
  {
    if a != [] {
      FrameIsSelfDelimiting(a[0], b[0], Preimage(a[1..]), Preimage(b[1..]));
      PreimageIsInjective(a[1..], b[1..]);
      assert a == [a[0]] + a[1..] && b == [b[0]] + b[1..];
    }
  }

  /** Keys that differ in any of the eight fields are hashed from different bytes. */
  lemma KeysAreToldApart(k: Key, l: Key)
    ensures Preimage(FieldsOf(k)) == Preimage(FieldsOf(l)) <==> k == l
  {
    if Preimage(FieldsOf(k)) == Preimage(FieldsOf(l)) {
      PreimageIsInjective(FieldsOf(k), FieldsOf(l));
      var a, b := FieldsOf(k), FieldsOf(l);
      assert a[0] == b[0] && a[1] == b[1] && a[2] == b[2] && a[3] == b[3];
      assert a[4] == b[4] && a[5] == b[5] && a[6] == b[6] && a[7] == b[7];
    }
  }
}
