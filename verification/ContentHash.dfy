/** composerContentHash of internal/audit/integrity_composer_hash.go, up to the digest of its bytes. */
module ContentHash {
  import opened Wrappers
  import opened Strings
  import opened PhpJson
  import opened PhpJsonReader
  import opened PhpJsonRoundTrip
  import opened PhpJsonShape

  /** composerHashedKeys. */
  const HASHED_KEYS: seq<string> := [
    "name", "version", "require", "require-dev", "conflict", "replace",
    "provide", "minimum-stability", "prefer-stable", "repositories", "extra"
  ]

  datatype HashError = ParseFailed(error: ParseError) | NotAnObject

  /** Those of the keys that the manifest has, with their values. */
  function HashedFields(root: seq<Field>, keys: seq<string>): seq<Field> {
    if keys == [] then []
    else
      var front, key := HashedFields(root, keys[..|keys| - 1]), keys[|keys| - 1];
      match Lookup(root, key)
      case None => front
      case Some(value) => SetField(front, key, value)
  }

  /** The value at `config.platform`, if `config` is an object that has it. */
  function Platform(root: seq<Field>): Option<Value> {
    match Lookup(root, "config")
    case Some(Object(config)) => Lookup(config, "platform")
    case _ => None
  }

  function RelevantFields(root: seq<Field>): seq<Field> {
    var hashed := HashedFields(root, HASHED_KEYS);
    match Platform(root)
    case None => hashed
    case Some(platform) => SetField(hashed, "config", Object([Field("platform", platform)]))
  }

  /** The bytes that are digested. */
  function HashInput(root: seq<Field>, floats: Floats): string {
    Encode(Object(SortFields(RelevantFields(root))), floats)
  }

  function HashInputOfText(manifest: string, floats: Floats): Result<string, HashError> {
    match Parse(manifest)
    case Failure(error) => Failure(ParseFailed(error))
    case Success(Object(root)) => Success(HashInput(root, floats))
    case Success(_) => Failure(NotAnObject)
  }

  method AddPlatform(relevant: PhpObject, root: seq<Field>)
    requires relevant.Valid() && relevant.Fields() == HashedFields(root, HASHED_KEYS)
    modifies relevant
    ensures relevant.Valid() && relevant.Fields() == RelevantFields(root)
  {
    var config := Lookup(root, "config");
    if config.Some? && config.value.Object? {
      var platform := Lookup(config.value.fields, "platform");
      if platform.Some? {
        var nested := new PhpObject();
        nested.Set("platform", platform.value);
        assert nested.Fields() == [Field("platform", platform.value)];
        relevant.Set("config", Object(nested.Fields()));
      }
    }
  }

  method CollectHashed(root: seq<Field>, keys: seq<string>) returns (relevant: PhpObject)
    ensures fresh(relevant) && relevant.Valid() && relevant.Fields() == HashedFields(root, keys)
  {
    relevant := new PhpObject();
    for k := 0 to |keys|
      invariant fresh(relevant) && relevant.Valid() && relevant.Fields() == HashedFields(root, keys[..k])
    {
      assert keys[..k + 1][..k] == keys[..k];
      var value := Lookup(root, keys[k]);
      if value.Some? {
        relevant.Set(keys[k], value.value);
      }
    }
    assert keys[..|keys|] == keys;
  }

  method ContentHashInput(manifest: string, floats: Floats) returns (r: Result<string, HashError>)
    ensures r == HashInputOfText(manifest, floats)
  {
    var parsed := ParsePhpJson(manifest);
    if parsed.Failure? {
      return Failure(ParseFailed(parsed.error));
    }
    if !parsed.value.Object? {
      return Failure(NotAnObject);
    }
    var root := parsed.value.fields;
    var relevant := CollectHashed(root, HASHED_KEYS);
    AddPlatform(relevant, root);
    relevant.SortKeys();
    var builder := new Buffer();
    WriteValue(Object(relevant.Fields()), floats, builder);
    assert "" + HashInput(root, floats) == HashInput(root, floats);
    return Success(builder.contents);
  }

  // ---- What the digest can see ----

  function NormalOption(v: Option<Value>): Option<Value> {
    match v
    case None => None
    case Some(value) => Some(Normal(value))
  }

  ghost predicate SameAt(a: seq<Field>, b: seq<Field>, keys: seq<string>) {
    forall key :: key in keys ==> NormalOption(Lookup(a, key)) == NormalOption(Lookup(b, key))
  }

  /** The manifests agree, as ordered values with `{}` read as `[]`, wherever the digest looks. */
  ghost predicate SameView(a: seq<Field>, b: seq<Field>) {
    SameAt(a, b, HASHED_KEYS) && NormalOption(Platform(a)) == NormalOption(Platform(b))
  }

  lemma HashedKeysAreDistinct()
    ensures Distinct(HASHED_KEYS) && "config" !in HASHED_KEYS
  {
  }

  /** The fields hold exactly what the manifest has at the keys. */
  ghost predicate HoldsAt(fields: seq<Field>, root: seq<Field>, keys: seq<string>) {
    && Distinct(Keys(fields))
    && (forall key :: key in keys ==> Lookup(fields, key) == Lookup(root, key))
    && (forall key :: key in Keys(fields) ==> key in keys)
  }

  lemma HoldsAtNext(fields: seq<Field>, root: seq<Field>, keys: seq<string>, last: string)
    requires HoldsAt(fields, root, keys) && last !in keys
    ensures Lookup(root, last).None? ==> HoldsAt(fields, root, keys + [last])
    ensures Lookup(root, last).Some? ==> HoldsAt(SetField(fields, last, Lookup(root, last).value), root, keys + [last])
  {
    assert last !in Keys(fields);
    if Lookup(root, last).Some? {
      var value := Lookup(root, last).value;
      SetKeepsDistinct(fields, last, value);
      forall key | key in keys + [last]
        ensures Lookup(SetField(fields, last, value), key) == Lookup(root, key)
      {
        LookupAfterSet(fields, last, value, key);
      }
    }
  }

  lemma {:induction false} HashedFieldsLookup(root: seq<Field>, keys: seq<string>)
    requires Distinct(keys)
    ensures HoldsAt(HashedFields(root, keys), root, keys)
  {
    if keys != [] {
      var front, last := keys[..|keys| - 1], keys[|keys| - 1];
      HashedFieldsLookup(root, front);
      assert keys == front + [last];
      HoldsAtNext(HashedFields(root, front), root, front, last);
    }
  }

  function PlatformField(root: seq<Field>): Option<Value> {
    match Platform(root)
    case None => None
    case Some(platform) => Some(Object([Field("platform", platform)]))
  }

  lemma RelevantLookup(root: seq<Field>)
    ensures Distinct(Keys(RelevantFields(root)))
    ensures forall key :: key in HASHED_KEYS ==> Lookup(RelevantFields(root), key) == Lookup(root, key)
    ensures Lookup(RelevantFields(root), "config") == PlatformField(root)
    ensures forall key :: key in Keys(RelevantFields(root)) ==> key in HASHED_KEYS || key == "config"
  {
    HashedKeysAreDistinct();
    HashedFieldsLookup(root, HASHED_KEYS);
    PlatformAdded(root, HASHED_KEYS, HashedFields(root, HASHED_KEYS));
  }

  /** Setting `config` beside fields that do not have it. */
  lemma PlatformAdded(root: seq<Field>, keys: seq<string>, hashed: seq<Field>)
    requires "config" !in keys && Distinct(Keys(hashed)) && forall key :: key in Keys(hashed) ==> key in keys
    ensures var fields := if Platform(root).None? then hashed
        else SetField(hashed, "config", PlatformField(root).value);
            && Distinct(Keys(fields))
            && (forall key :: key in keys ==> Lookup(fields, key) == Lookup(hashed, key))
            && Lookup(fields, "config") == PlatformField(root)
            && forall key :: key in Keys(fields) ==> key in keys || key == "config"
  {
    assert "config" !in Keys(hashed);
    if Platform(root).Some? {
      var config := PlatformField(root).value;
      SetKeepsDistinct(hashed, "config", config);
      LookupAfterSet(hashed, "config", config, "config");
      forall key | key in keys
        ensures Lookup(SetField(hashed, "config", config), key) == Lookup(hashed, key)
      {
        LookupAfterSet(hashed, "config", config, key);
      }
    }
  }

  lemma LookupSorted(fields: seq<Field>, key: string)
    requires Distinct(Keys(fields))
    ensures Distinct(Keys(SortFields(fields)))
    ensures Lookup(SortFields(fields), key) == Lookup(fields, key)
  {
    var sorted := SortFields(fields);
    SameElements(Keys(sorted), Keys(fields));
    if key in Keys(sorted) {
      var i :| 0 <= i < |sorted| && Keys(sorted)[i] == key;
      LookupAt(sorted, i);
    }
  }

  lemma {:induction false} LookupNormal(fields: seq<Field>, key: string)
    ensures Lookup(NormalFields(fields), key) == NormalOption(Lookup(fields, key))
  {
    if fields != [] {
      assert NormalFields(fields)[1..] == NormalFields(fields[1..]);
      LookupNormal(fields[1..], key);
    }
  }

  lemma {:induction false} NormalFieldAt(fields: seq<Field>, i: nat)
    requires i < |fields|
    ensures NormalFields(fields)[i] == Field(fields[i].key, Normal(fields[i].value))
  {
    if i > 0 {
      NormalFieldAt(fields[1..], i - 1);
    }
  }

  /** Canonical values wherever the digest looks; the rest of the manifest may be anything. */
  predicate CanonicalView(root: seq<Field>) {
    && (forall k :: 0 <= k < |HASHED_KEYS| ==>
          Lookup(root, HASHED_KEYS[k]).Some? ==> Canonical(Lookup(root, HASHED_KEYS[k]).value))
    && (Platform(root).Some? ==> Canonical(Platform(root).value))
  }

  lemma {:induction false} CanonicalFromValues(fields: seq<Field>)
    requires Distinct(Keys(fields))
    requires forall i :: 0 <= i < |fields| ==> Canonical(fields[i].value)
    ensures CanonicalFields(fields)
  {
    if fields != [] {
      assert Keys(fields) == [fields[0].key] + Keys(fields[1..]);
      assert Keys(fields[1..]) == Keys(fields)[1..];
      CanonicalFromValues(fields[1..]);
    }
  }

  lemma CanonicalPlatform(root: seq<Field>)
    requires CanonicalView(root)
    ensures PlatformField(root).Some? ==> Canonical(PlatformField(root).value)
  {
    if Platform(root).Some? {
      var fields := [Field("platform", Platform(root).value)];
      assert fields[1..] == [] && Keys(fields[1..]) == [];
    }
  }

  lemma CanonicalInput(root: seq<Field>)
    requires CanonicalView(root)
    ensures Canonical(Object(SortFields(RelevantFields(root))))
  {
    var fields := RelevantFields(root);
    var sorted := SortFields(fields);
    RelevantLookup(root);
    CanonicalPlatform(root);
    SameElements(Keys(sorted), Keys(fields));
    forall i | 0 <= i < |sorted|
      ensures Canonical(sorted[i].value)
    {
      var key := sorted[i].key;
      assert Keys(sorted)[i] == key;
      assert key in Keys(fields);
      LookupSorted(fields, key);
      LookupAt(sorted, i);
      if key in HASHED_KEYS {
        var k :| 0 <= k < |HASHED_KEYS| && HASHED_KEYS[k] == key;
        assert Lookup(fields, key) == Lookup(root, HASHED_KEYS[k]);
      }
    }
    CanonicalFromValues(sorted);
  }

  /** Equal bytes mean equal views. */
  lemma SameInputSameView(a: seq<Field>, b: seq<Field>, floats: Floats)
    requires CanonicalView(a) && CanonicalView(b)
    requires HashInput(a, floats) == HashInput(b, floats)
    ensures SameView(a, b)
  {
    var fa, fb := RelevantFields(a), RelevantFields(b);
    CanonicalInput(a);
    CanonicalInput(b);
    EncodingIsInjective(Object(SortFields(fa)), Object(SortFields(fb)), floats);
    assert NormalFields(SortFields(fa)) == NormalFields(SortFields(fb));
    RelevantLookup(a);
    RelevantLookup(b);
    forall key
      ensures NormalOption(Lookup(fa, key)) == NormalOption(Lookup(fb, key))
    {
      LookupSorted(fa, key);
      LookupSorted(fb, key);
      LookupNormal(SortFields(fa), key);
      LookupNormal(SortFields(fb), key);
    }
    forall key | key in HASHED_KEYS
      ensures NormalOption(Lookup(a, key)) == NormalOption(Lookup(b, key))
    {
      assert NormalOption(Lookup(fa, key)) == NormalOption(Lookup(fb, key));
    }
    assert NormalOption(Lookup(fa, "config")) == NormalOption(Lookup(fb, "config"));
    NormalPlatform(a);
    NormalPlatform(b);
  }

  lemma NormalPlatform(root: seq<Field>)
    ensures NormalOption(PlatformField(root)) ==
            match NormalOption(Platform(root))
            case None => None
            case Some(platform) => Some(Object([Field("platform", platform)]))
  {
    if Platform(root).Some? {
      var fields := [Field("platform", Platform(root).value)];
      assert fields[1..] == [];
      assert NormalFields(fields) == [Field("platform", Normal(Platform(root).value))];
    }
  }

  lemma {:induction false} SameViewSameHashedKeys(a: seq<Field>, b: seq<Field>, keys: seq<string>)
    requires SameAt(a, b, keys)
    ensures Keys(HashedFields(a, keys)) == Keys(HashedFields(b, keys))
  {
    if keys != [] {
      SameViewSameHashedKeys(a, b, keys[..|keys| - 1]);
      assert NormalOption(Lookup(a, keys[|keys| - 1])) == NormalOption(Lookup(b, keys[|keys| - 1]));
    }
  }

  lemma SameViewAt(a: seq<Field>, b: seq<Field>, key: string)
    requires SameView(a, b) && key in Keys(RelevantFields(a))
    ensures NormalOption(Lookup(RelevantFields(a), key)) == NormalOption(Lookup(RelevantFields(b), key))
  {
    RelevantLookup(a);
    RelevantLookup(b);
    if key in HASHED_KEYS {
      assert Lookup(RelevantFields(a), key) == Lookup(a, key);
    } else {
      NormalPlatform(a);
      NormalPlatform(b);
    }
  }

  /** Equal views mean equal bytes, whatever the numbers are. */
  lemma SameViewSameInput(a: seq<Field>, b: seq<Field>, floats: Floats)
    requires SameView(a, b)
    ensures HashInput(a, floats) == HashInput(b, floats)
  {
    var fa, fb := RelevantFields(a), RelevantFields(b);
    var sa, sb := SortFields(fa), SortFields(fb);
    SameViewSameHashedKeys(a, b, HASHED_KEYS);
    assert Keys(fa) == Keys(fb);
    forall i | 0 <= i < |sa|
      ensures NormalFields(sa)[i] == NormalFields(sb)[i]
    {
      NormalFieldAt(sa, i);
      NormalFieldAt(sb, i);
      SameElements(Keys(sa), Keys(fa));
      assert sa[i].key == Keys(sa)[i] && sb[i].key == Keys(sb)[i];
      assert Keys(sa)[i] in Keys(fa);
      SameViewAt(a, b, sa[i].key);
    }
    assert NormalFields(sa) == NormalFields(sb);
    EncodingOfNormal(Object(sa), floats);
    EncodingOfNormal(Object(sb), floats);
  }

  /** Integer literals wherever the digest looks; elsewhere numbers may have fractions and exponents. */
  predicate IntegersInView(root: seq<Field>) {
    && (forall k :: 0 <= k < |HASHED_KEYS| ==>
          Lookup(root, HASHED_KEYS[k]).Some? ==> IntegersOnly(Lookup(root, HASHED_KEYS[k]).value))
    && (Platform(root).Some? ==> IntegersOnly(Platform(root).value))
  }

  lemma WellFormedLookup(fields: seq<Field>, key: string)
    requires WellFormed(Object(fields))
    ensures Lookup(fields, key).Some? ==> WellFormed(Lookup(fields, key).value)
  {
  }

  lemma ParsedViewIsCanonical(text: string, root: seq<Field>)
    requires Parse(text) == Success(Object(root)) && IntegersInView(root)
    ensures CanonicalView(root)
  {
    ParsedIsWellFormed(text);
    forall k | 0 <= k < |HASHED_KEYS| && Lookup(root, HASHED_KEYS[k]).Some?
      ensures Canonical(Lookup(root, HASHED_KEYS[k]).value)
    {
      WellFormedLookup(root, HASHED_KEYS[k]);
      WellFormedIntegersAreCanonical(Lookup(root, HASHED_KEYS[k]).value);
    }
    if Platform(root).Some? {
      WellFormedLookup(root, "config");
      WellFormedLookup(Lookup(root, "config").value.fields, "platform");
      WellFormedIntegersAreCanonical(Platform(root).value);
    }
  }

  /**
   * Exact staleness: two manifests whose numbers, where the digest looks, are integer literals give the
   * digest the same bytes iff they agree at every hashed key and at config.platform. Nothing else, and no
   * top-level order, can matter.
   */
  lemma DigestSeesExactlyTheView(textA: string, textB: string, a: seq<Field>, b: seq<Field>, floats: Floats)
    requires Parse(textA) == Success(Object(a)) && Parse(textB) == Success(Object(b))
    requires IntegersInView(a) && IntegersInView(b)
    ensures HashInputOfText(textA, floats) == HashInputOfText(textB, floats) <==> SameView(a, b)
  {
    ParsedViewIsCanonical(textA, a);
    ParsedViewIsCanonical(textB, b);
    if HashInput(a, floats) == HashInput(b, floats) {
      SameInputSameView(a, b, floats);
    }
    if SameView(a, b) {
      SameViewSameInput(a, b, floats);
    }
  }

  /** Reordering the top level of a manifest cannot make a lock stale. */
  lemma TopLevelOrderIsNotSeen(a: seq<Field>, b: seq<Field>, floats: Floats)
    requires Distinct(Keys(a)) && Distinct(Keys(b)) && multiset(a) == multiset(b)
    ensures HashInput(a, floats) == HashInput(b, floats)
  {
    forall key
      ensures Lookup(a, key) == Lookup(b, key)
    {
      SameFieldsSameLookup(a, b, key);
      SameFieldsSameLookup(b, a, key);
    }
    SameViewSameInput(a, b, floats);
  }

  lemma SameFieldsSameLookup(a: seq<Field>, b: seq<Field>, key: string)
    requires Distinct(Keys(b)) && multiset(a) == multiset(b)
    ensures Lookup(a, key).Some? ==> Lookup(b, key) == Lookup(a, key)
  {
    if Lookup(a, key).Some? {
      var i :| 0 <= i < |a| && a[i] == Field(key, Lookup(a, key).value);
      assert a[i] in multiset(b);
      var j :| 0 <= j < |b| && b[j] == a[i];
      LookupAt(b, j);
    }
  }

  /** The order inside a hashed object is seen: a reordered `extra`, say, changes the bytes. */
  lemma NestedOrderIsSeen(a: seq<Field>, b: seq<Field>, key: string, x: seq<Field>, y: seq<Field>, floats: Floats)
    requires CanonicalView(a) && CanonicalView(b) && key in HASHED_KEYS
    requires Lookup(a, key) == Some(Object(x)) && Lookup(b, key) == Some(Object(y))
    requires Keys(x) != Keys(y)
    ensures HashInput(a, floats) != HashInput(b, floats)
  {
    if HashInput(a, floats) == HashInput(b, floats) {
      SameInputSameView(a, b, floats);
    }
  }
}
