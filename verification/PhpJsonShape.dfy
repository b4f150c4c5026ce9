/** What encodings look like, and what the reader can produce. */
module PhpJsonShape {
  import opened Wrappers
  import opened Strings
  import opened PhpJson
  import opened PhpJsonReader
  import opened PhpJsonRoundTrip

  predicate Ascii(s: string) {
    forall i :: 0 <= i < |s| ==> s[i] as int < 0x80
  }

  predicate LowerHex(c: char) {
    '0' <= c <= '9' || 'a' <= c <= 'f'
  }

  /** `\u` and exactly four lower-case hex digits. */
  predicate UnitEscape(s: string) {
    |s| == 6 && s[0] == '\\' && s[1] == 'u' && forall i :: 2 <= i < 6 ==> LowerHex(s[i])
  }

  lemma HexUnit(n: nat)
    requires n < 0x10000
    ensures UnitEscape("\\u" + Hex4(n))
  {
    HexIsLower(n / 0x1000);
    HexIsLower(n / 0x100 % 0x10);
    HexIsLower(n / 0x10 % 0x10);
    HexIsLower(n % 0x10);
  }

  lemma HexIsLower(d: nat)
    requires d < 16
    ensures LowerHex(HexDigit(d))
  {
  }

  /**
   * A character becomes itself, a two-character escape, one four-digit escape, or outside the basic
   * plane a surrogate pair of them (section 7 of RFC 8259).
   */
  lemma EscapeShape(c: char)
    ensures var s := EscapeChar(c);
            || (s == [c] && 0x20 <= c as int < 0x80 && c !in "\"\\/")
            || (|s| == 2 && s[0] == '\\' && s[1] in "\"\\/bfnrt")
            || (UnitEscape(s) && c as int <= 0xFFFF)
            || (|s| == 12 && UnitEscape(s[..6]) && UnitEscape(s[6..]) && c as int > 0xFFFF)
  {
    var r := c as int;
    if r > 0xFFFF {
      var high, low := "\\u" + Hex4(HighSurrogate(r)), "\\u" + Hex4(LowSurrogate(r));
      HexUnit(HighSurrogate(r));
      HexUnit(LowSurrogate(r));
      assert EscapeChar(c) == high + low;
      assert (high + low)[..6] == high && (high + low)[6..] == low;
    } else if r < 0x20 || r >= 0x80 {
      HexUnit(r);
    }
  }

  lemma EscapeIsAscii(c: char)
    ensures Ascii(EscapeChar(c))
  {
    EscapeShape(c);
    var s := EscapeChar(c);
    if |s| == 12 {
      forall i | 0 <= i < 12 ensures s[i] as int < 0x80 {
        if i < 6 {
          assert s[i] == s[..6][i];
        } else {
          assert s[i] == s[6..][i - 6];
        }
      }
    }
  }

  lemma {:induction false} TextIsAscii(text: string)
    ensures Ascii(EscapeAll(text))
  {
    if text != "" {
      EscapeIsAscii(text[0]);
      TextIsAscii(text[1..]);
    }
  }

  /** The output is pure ASCII. */
  lemma {:induction false} EncodingIsAscii(v: Value, floats: Floats)
    requires Canonical(v)
    ensures Ascii(Encode(v, floats))
    decreases v, 0
  {
    match v
    case Object(fields) => FieldsAreAscii(fields, false, floats);
    case List(items) => ItemsAreAscii(items, false, floats);
    case Str(text) => TextIsAscii(text);
    case Number(literal) => IntegerHasNoPoint(literal);
    case _ =>
  }

  lemma {:induction false} FieldsAreAscii(fields: seq<Field>, comma: bool, floats: Floats)
    requires CanonicalFields(fields)
    ensures Ascii(EncodeFields(fields, comma, floats))
    decreases fields, 1
  {
    if fields != [] {
      TextIsAscii(fields[0].key);
      EncodingIsAscii(fields[0].value, floats);
      assert Ascii(EncodeField(fields[0], comma, floats));
      FieldsAreAscii(fields[1..], true, floats);
    }
  }

  lemma {:induction false} ItemsAreAscii(items: seq<Value>, comma: bool, floats: Floats)
    requires CanonicalItems(items)
    ensures Ascii(EncodeItems(items, comma, floats))
    decreases items, 1
  {
    if items != [] {
      EncodingIsAscii(items[0], floats);
      assert Ascii(EncodeItem(items[0], comma, floats));
      ItemsAreAscii(items[1..], true, floats);
    }
  }

  // ---- What the reader produces ----

  /** Every number is written without fraction or exponent. */
  predicate IntegersOnly(v: Value) {
    match v
    case Object(fields) => forall i :: 0 <= i < |fields| ==> IntegersOnly(fields[i].value)
    case List(items) => forall i :: 0 <= i < |items| ==> IntegersOnly(items[i])
    case Number(literal) => !ContainsAny(literal, ".eE")
    case _ => true
  }

  /** Distinct keys throughout, and no number that is an integer to the encoder but not to RFC 8259. */
  ghost predicate WellFormed(v: Value) {
    match v
    case Object(fields) => Distinct(Keys(fields)) && forall i :: 0 <= i < |fields| ==> WellFormed(fields[i].value)
    case List(items) => forall i :: 0 <= i < |items| ==> WellFormed(items[i])
    case Number(literal) => ContainsAny(literal, ".eE") || IntegerLiteral(literal)
    case _ => true
  }

  lemma ReadNumberIsSound(s: string, n: nat)
    requires ReadNumber(s) == Some(n)
    ensures ContainsAny(s[..n], ".eE") || IntegerLiteral(s[..n])
  {
    var a := ReadInteger(s).value;
    var b := ReadFraction(s[a..]).value;
    if b > 0 {
      assert s[..n][a] == '.';
    } else if n > a {
      assert s[..n][a] in "eE";
    } else {
      var sign := if s != "" && s[0] == '-' then 1 else 0;
      assert s[..n][0] == s[0];
      assert forall i :: sign <= i < n ==> s[..n][i] == s[sign..][i - sign];
    }
  }

  predicate SoundToken(t: Token) {
    t.NumberToken? ==> ContainsAny(t.literal, ".eE") || IntegerLiteral(t.literal)
  }

  lemma ScalarIsSound(s: string)
    ensures ReadScalar(s).Some? ==> SoundToken(ReadScalar(s).value.0)
  {
    if ReadNumber(s).Some? {
      ReadNumberIsSound(s, ReadNumber(s).value);
    }
  }

  lemma PlainTokenIsSound(r: Reader)
    requires r.rest != ""
    ensures PlainToken(r).Got? ==> SoundToken(PlainToken(r).value)
  {
    NumberComesFromScalar(r);
    ScalarIsSound(r.rest);
  }

  lemma NumberComesFromScalar(r: Reader)
    requires r.rest != ""
    ensures PlainToken(r).Got? && PlainToken(r).value.NumberToken? ==>
              ReadScalar(r.rest).Some? && ReadScalar(r.rest).value.0 == PlainToken(r).value
  {
    var c := r.rest[0];
    if c == '[' || c == ']' || c == '{' || c == '}' {
      BracketIsNoNumber(r);
    } else if c == '"' && (r.mode == ObjectStart || r.mode == ObjectKey) {
      KeyIsNoNumber(r);
    }
  }

  lemma BracketIsNoNumber(r: Reader)
    requires r.rest != ""
    requires var c := r.rest[0]; c == '[' || c == ']' || c == '{' || c == '}'
    ensures PlainToken(r).Got? ==> PlainToken(r).value.Delim?
  {
  }

  lemma KeyIsNoNumber(r: Reader)
    requires r.rest != "" && r.rest[0] == '"' && (r.mode == ObjectStart || r.mode == ObjectKey)
    ensures PlainToken(r).Got? ==> PlainToken(r).value.StringToken?
  {
  }

  lemma {:induction false} TokenIsSound(r: Reader)
    ensures NextToken(r).Got? ==> SoundToken(NextToken(r).value)
    decreases |r.rest|
  {
    var s := SkipSpace(r.rest);
    if s != "" {
      PlainTokenIsSound(r.(rest := s));
    }
    if s != "" && s[0] == ':' {
      TokenIsSound(Reader(s[1..], ObjectValue, r.stack));
    } else if s != "" && s[0] == ',' {
      TokenIsSound(Reader(s[1..], ArrayValue, r.stack));
      TokenIsSound(Reader(s[1..], ObjectKey, r.stack));
    }
  }

  lemma {:induction false} DecodedIsWellFormed(r: Reader)
    ensures DecodeValue(r).Got? ==> WellFormed(DecodeValue(r).value)
    decreases |r.rest|, 0
  {
    TokenIsSound(r);
    match NextToken(r)
    case Got(Delim(c), next) =>
      if c == '{' {
        DecodedFieldsAreWellFormed(next, []);
      } else if c == '[' {
        DecodedItemsAreWellFormed(next, []);
      }
    case _ =>
  }

  lemma {:induction false} DecodedFieldsAreWellFormed(r: Reader, done: seq<Field>)
    requires WellFormed(Object(done))
    ensures DecodeFields(r, done).Got? ==> WellFormed(DecodeFields(r, done).value)
    decreases |r.rest|, 1
  {
    if More(r) && NextToken(r).Got? && NextToken(r).value.StringToken? {
      var next := NextToken(r).next;
      DecodedIsWellFormed(next);
      if DecodeValue(next).Got? {
        var value := DecodeValue(next).value;
        SetKeepsDistinct(done, NextToken(r).value.text, value);
        assert WellFormed(Object(SetField(done, NextToken(r).value.text, value)));
        DecodedFieldsAreWellFormed(DecodeValue(next).next, SetField(done, NextToken(r).value.text, value));
      }
    }
  }

  lemma {:induction false} DecodedItemsAreWellFormed(r: Reader, done: seq<Value>)
    requires WellFormed(List(done))
    ensures DecodeItems(r, done).Got? ==> WellFormed(DecodeItems(r, done).value)
    decreases |r.rest|, 1
  {
    if More(r) {
      DecodedIsWellFormed(r);
      if DecodeValue(r).Got? {
        assert WellFormed(List(done + [DecodeValue(r).value]));
        DecodedItemsAreWellFormed(DecodeValue(r).next, done + [DecodeValue(r).value]);
      }
    }
  }

  lemma {:induction false} WellFormedIntegersAreCanonical(v: Value)
    requires WellFormed(v) && IntegersOnly(v)
    ensures Canonical(v)
    decreases v, 0
  {
    match v
    case Object(fields) => WellFormedFieldsAreCanonical(fields);
    case List(items) => WellFormedItemsAreCanonical(items);
    case _ =>
  }

  lemma {:induction false} WellFormedFieldsAreCanonical(fields: seq<Field>)
    requires Distinct(Keys(fields))
    requires forall i :: 0 <= i < |fields| ==> WellFormed(fields[i].value) && IntegersOnly(fields[i].value)
    ensures CanonicalFields(fields)
    decreases fields, 1
  {
    if fields != [] {
      assert Keys(fields) == [fields[0].key] + Keys(fields[1..]);
      assert Keys(fields[1..]) == Keys(fields)[1..];
      WellFormedIntegersAreCanonical(fields[0].value);
      WellFormedFieldsAreCanonical(fields[1..]);
    }
  }

  lemma {:induction false} WellFormedItemsAreCanonical(items: seq<Value>)
    requires forall i :: 0 <= i < |items| ==> WellFormed(items[i]) && IntegersOnly(items[i])
    ensures CanonicalItems(items)
    decreases items, 1
  {
    if items != [] {
      WellFormedIntegersAreCanonical(items[0]);
      WellFormedItemsAreCanonical(items[1..]);
    }
  }

  lemma ParsedIsWellFormed(text: string)
    ensures Parse(text).Success? ==> WellFormed(Parse(text).value)
  {
    DecodedIsWellFormed(Reader(text, TopValue, []));
  }

  /** Whatever text was parsed, its value is canonical as soon as its numbers are integer literals. */
  lemma ParsedIsCanonical(text: string)
    ensures Parse(text).Success? && IntegersOnly(Parse(text).value) ==> Canonical(Parse(text).value)
  {
    ParsedIsWellFormed(text);
    if Parse(text).Success? && IntegersOnly(Parse(text).value) {
      WellFormedIntegersAreCanonical(Parse(text).value);
    }
  }

  /** Parsing, encoding and parsing again only turns empty objects into empty lists. */
  lemma ReparseIsNormal(text: string, floats: Floats)
    requires Parse(text).Success? && IntegersOnly(Parse(text).value)
    ensures Parse(Encode(Parse(text).value, floats)) == Success(Normal(Parse(text).value))
  {
    ParsedIsCanonical(text);
    RoundTrip(Parse(text).value, floats);
  }
}
