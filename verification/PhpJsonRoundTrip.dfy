/** Encoding then parsing gives the value back, with each empty object read as an empty list. */
module PhpJsonRoundTrip {
  import opened Wrappers
  import opened Strings
  import opened PhpJson
  import opened PhpJsonReader

  /** PHP cannot tell `{}` from `[]`. */
  function Normal(v: Value): Value
    decreases v, 0
  {
    match v
    case Object(fields) => if fields == [] then List([]) else Object(NormalFields(fields))
    case List(items) => List(NormalItems(items))
    case _ => v
  }

  function NormalFields(fields: seq<Field>): (r: seq<Field>)
    ensures |r| == |fields| && Keys(r) == Keys(fields)
    decreases fields, 1
  {
    if fields == [] then [] else
      assert Keys(fields) == [fields[0].key] + Keys(fields[1..]);
      [Field(fields[0].key, Normal(fields[0].value))] + NormalFields(fields[1..])
  }

  function NormalItems(items: seq<Value>): (r: seq<Value>)
    ensures |r| == |items|
    decreases items, 1
  {
    if items == [] then [] else [Normal(items[0])] + NormalItems(items[1..])
  }

  /** An integer as section 6 of RFC 8259 writes it. */
  predicate IntegerLiteral(s: string) {
    var sign := if "-" <= s then 1 else 0;
    && |s| > sign
    && (forall i :: sign <= i < |s| ==> IsDigit(s[i]))
    && (s[sign] == '0' ==> |s| == sign + 1)
  }

  /** Keys are distinct in every object and every number is an integer literal. */
  predicate Canonical(v: Value)
    decreases v, 0
  {
    match v
    case Object(fields) => CanonicalFields(fields)
    case List(items) => CanonicalItems(items)
    case Number(literal) => IntegerLiteral(literal)
    case _ => true
  }

  predicate CanonicalFields(fields: seq<Field>)
    decreases fields, 1
  {
    fields != [] ==>
      && fields[0].key !in Keys(fields[1..])
      && Canonical(fields[0].value)
      && CanonicalFields(fields[1..])
  }

  predicate CanonicalItems(items: seq<Value>)
    decreases items, 1
  {
    items != [] ==> Canonical(items[0]) && CanonicalItems(items[1..])
  }

  // ---- Strings ----

  lemma DigitsRoundTrip(hex: string, n: nat, a: nat, b: nat, c: nat, d: nat, rest: string)
    requires a < 16 && b < 16 && c < 16 && d < 16
    requires hex == [HexDigit(a), HexDigit(b), HexDigit(c), HexDigit(d)]
    requires n == a * 0x1000 + b * 0x100 + c * 0x10 + d
    ensures ReadHex4(hex + rest) == Some(n)
  {
    HexDigitRoundTrip(a);
    HexDigitRoundTrip(b);
    HexDigitRoundTrip(c);
    HexDigitRoundTrip(d);
    var s := hex + rest;
    assert s[0] == hex[0] && s[1] == hex[1] && s[2] == hex[2] && s[3] == hex[3];
  }

  lemma HexRoundTrip(n: nat, rest: string)
    requires n < 0x10000
    ensures ReadHex4(Hex4(n) + rest) == Some(n)
  {
    var a, b, c, d := HexDigits(n);
    DigitsRoundTrip(Hex4(n), n, a, b, c, d, rest);
  }

  lemma HexDigits(n: nat) returns (a: nat, b: nat, c: nat, d: nat)
    requires n < 0x10000
    ensures a < 16 && b < 16 && c < 16 && d < 16
    ensures Hex4(n) == [HexDigit(a), HexDigit(b), HexDigit(c), HexDigit(d)]
    ensures n == a * 0x1000 + b * 0x100 + c * 0x10 + d
  {
    a, b, c, d := n / 0x1000, n / 0x100 % 0x10, n / 0x10 % 0x10, n % 0x10;
    assert n / 0x100 == n / 0x10 / 0x10 && n / 0x1000 == n / 0x100 / 0x10;
  }

  lemma HexDigitRoundTrip(d: nat)
    requires d < 16
    ensures HexValue(HexDigit(d)) == Some(d)
  {
  }

  lemma UnitRoundTrip(n: nat, rest: string)
    requires n < 0x10000
    ensures Unescape("u" + Hex4(n) + rest) == Some(JoinUnits(n, rest))
  {
    var s := "u" + Hex4(n) + rest;
    assert s[1..] == Hex4(n) + rest;
    assert s[5..] == rest;
    HexRoundTrip(n, rest);
  }

  /** A surrogate pair is put together again: section 2.2 of RFC 2781 undoes section 2.1. */
  lemma PairRoundTrip(c: char, rest: string)
    requires c as int > 0xFFFF
    ensures JoinUnits(HighSurrogate(c as int), "\\u" + Hex4(LowSurrogate(c as int)) + rest) == (c, rest)
  {
    var r := c as int;
    var after := "\\u" + Hex4(LowSurrogate(r)) + rest;
    assert after[2..] == Hex4(LowSurrogate(r)) + rest;
    assert after[6..] == rest;
    assert after[0] == '\\' && after[1] == 'u';
    HexRoundTrip(LowSurrogate(r), rest);
    assert r == 0x10000 + (HighSurrogate(r) - 0xD800) * 0x400 + (LowSurrogate(r) - 0xDC00);
  }

  /** What the reader needs of an escaped character followed by the rest. */
  ghost predicate ReadsAs(s: string, c: char, rest: string) {
    && s != "" && s[0] as int >= 0x20 && s[0] != '"'
    && (if s[0] == '\\' then Unescape(s[1..]) == Some((c, rest)) else s[0] == c && s[1..] == rest)
  }

  lemma PairReadsAs(c: char, rest: string)
    requires c as int > 0xFFFF
    ensures ReadsAs("\\u" + Hex4(HighSurrogate(c as int)) + "\\u" + Hex4(LowSurrogate(c as int)) + rest, c, rest)
  {
    var r := c as int;
    var after := "\\u" + Hex4(LowSurrogate(r)) + rest;
    var s := "\\u" + Hex4(HighSurrogate(r)) + "\\u" + Hex4(LowSurrogate(r)) + rest;
    assert s[1..] == "u" + Hex4(HighSurrogate(r)) + after;
    UnitRoundTrip(HighSurrogate(r), after);
    PairRoundTrip(c, rest);
  }

  lemma UnitReadsAs(c: char, rest: string)
    requires c as int <= 0xFFFF
    ensures ReadsAs("\\u" + Hex4(c as int) + rest, c, rest)
  {
    var s := "\\u" + Hex4(c as int) + rest;
    assert s[1..] == "u" + Hex4(c as int) + rest;
    UnitRoundTrip(c as int, rest);
  }

  lemma ShortReadsAs(c: char, letter: char, rest: string)
    requires Unescape([letter]) == Some((c, "")) && letter != 'u'
    ensures ReadsAs(['\\', letter] + rest, c, rest)
  {
    var s := ['\\', letter] + rest;
    assert s[1..][1..] == rest;
  }

  /** Reading what one character was escaped to. */
  lemma EscapeRoundTrip(c: char, rest: string)
    ensures ReadsAs(EscapeChar(c) + rest, c, rest)
  {
    var r := c as int;
    if c in "\"\\/" {
      ShortReadsAs(c, c, rest);
    } else if r == 8 {
      ShortReadsAs(c, 'b', rest);
    } else if r == 12 {
      ShortReadsAs(c, 'f', rest);
    } else if c == '\n' {
      ShortReadsAs(c, 'n', rest);
    } else if c == '\r' {
      ShortReadsAs(c, 'r', rest);
    } else if c == '\t' {
      ShortReadsAs(c, 't', rest);
    } else if r > 0xFFFF {
      PairReadsAs(c, rest);
    } else if r < 0x20 || r >= 0x80 {
      UnitReadsAs(c, rest);
    } else {
      assert ([c] + rest)[1..] == rest;
    }
  }

  lemma {:induction false} StringRoundTrip(text: string, rest: string)
    ensures ReadString(EscapeAll(text) + "\"" + rest) == Some((text, rest))
  {
    if text == "" {
      assert EscapeAll(text) + "\"" + rest == "\"" + rest;
    } else {
      var tail := EscapeAll(text[1..]) + "\"" + rest;
      assert EscapeAll(text) + "\"" + rest == EscapeChar(text[0]) + tail;
      EscapeRoundTrip(text[0], tail);
      StringRoundTrip(text[1..], rest);
      assert text == [text[0]] + text[1..];
    }
  }

  // ---- Numbers ----

  /** What follows a number in the encoder's output cannot be taken for more of it. */
  predicate EndsNumber(rest: string) {
    rest == "" || rest[0] in ",]}"
  }

  lemma {:induction false} DigitRunIs(s: string, n: nat)
    requires n <= |s| && (forall i :: 0 <= i < n ==> IsDigit(s[i]))
    requires n < |s| ==> !IsDigit(s[n])
    ensures DigitRun(s) == n
  {
    if n > 0 {
      DigitRunIs(s[1..], n - 1);
    }
  }

  lemma NumberRoundTrip(literal: string, rest: string)
    requires IntegerLiteral(literal) && EndsNumber(rest)
    ensures ReadNumber(literal + rest) == Some(|literal|)
  {
    var s := literal + rest;
    var sign := if "-" <= literal then 1 else 0;
    assert (s[0] == '-') <==> sign == 1 by {
      assert s[0] == literal[0];
      assert sign == 0 ==> IsDigit(literal[0]);
    }
    forall i | 0 <= i < |literal| - sign ensures IsDigit(s[sign..][i]) {
      assert s[sign..][i] == literal[sign + i];
    }
    assert |literal| < |s| ==> s[|literal|] == rest[0];
    DigitRunIs(s[sign..], |literal| - sign);
    assert s[sign] == literal[sign];
    assert ReadInteger(s) == Some(|literal|);
    assert s[|literal|..] == rest;
    assert ReadFraction(rest) == Some(0) && ReadExponent(rest) == Some(0);
  }

  lemma IntegerHasNoPoint(literal: string)
    requires IntegerLiteral(literal)
    ensures !ContainsAny(literal, ".eE")
  {
    forall i | 0 <= i < |literal|
      ensures literal[i] !in ".eE"
    {
      assert IsDigit(literal[i]) || literal[i] == '-';
    }
  }

  // ---- Values ----

  /** No encoding starts with white space, a separator or a closing bracket. */
  predicate StartsValue(s: string) {
    s != "" && !IsSpace(s[0]) && s[0] !in "]}:,"
  }

  lemma EncodingStartsValue(v: Value, floats: Floats, rest: string)
    requires Canonical(v)
    ensures StartsValue(Encode(v, floats) + rest)
  {
    if v.Number? {
      IntegerHasNoPoint(v.literal);
      assert IsDigit(v.literal[0]) || v.literal[0] == '-';
    }
  }

  lemma TextIsScalar(text: string, rest: string)
    ensures ReadScalar(EncodeString(text) + rest) == Some((StringToken(text), rest))
  {
    var s := EncodeString(text) + rest;
    assert s[1..] == EscapeAll(text) + "\"" + rest;
    StringRoundTrip(text, rest);
  }

  lemma TextRoundTrip(text: string, rest: string, mode: Mode, stack: seq<Mode>)
    requires ValueAllowed(mode)
    ensures DecodeValue(Reader(EncodeString(text) + rest, mode, stack))
        == Got(Str(text), Reader(rest, ValueEnd(mode), stack))
  {
    TextIsScalar(text, rest);
    var r := Reader(EncodeString(text) + rest, mode, stack);
    assert r.rest[0] == '"' && SkipSpace(r.rest) == r.rest;
    assert PlainToken(r) == Got(StringToken(text), Reader(rest, ValueEnd(mode), stack));
  }

  lemma NumberIsRead(s: string, n: nat, mode: Mode, stack: seq<Mode>)
    requires s != "" && (IsDigit(s[0]) || s[0] == '-') && ReadNumber(s) == Some(n) && ValueAllowed(mode)
    ensures DecodeValue(Reader(s, mode, stack)) == Got(Number(s[..n]), Reader(s[n..], ValueEnd(mode), stack))
  {
    NumberIsNext(s, n, mode, stack);
    TokenIsValue(Reader(s, mode, stack), s[..n], Reader(s[n..], ValueEnd(mode), stack));
  }

  lemma TokenIsValue(r: Reader, literal: string, next: Reader)
    ensures NextToken(r) == Got(NumberToken(literal), next) ==> DecodeValue(r) == Got(Number(literal), next)
  {
  }

  lemma NumberIsNext(s: string, n: nat, mode: Mode, stack: seq<Mode>)
    requires s != "" && (IsDigit(s[0]) || s[0] == '-') && ReadNumber(s) == Some(n) && ValueAllowed(mode)
    ensures NextToken(Reader(s, mode, stack)) == Got(NumberToken(s[..n]), Reader(s[n..], ValueEnd(mode), stack))
  {
    NumberIsScalar(s, n);
    ScalarIsPlain(Reader(s, mode, stack), NumberToken(s[..n]), s[n..]);
    PlainIsNext(Reader(s, mode, stack));
  }

  lemma PlainIsNext(r: Reader)
    requires r.rest != "" && !IsSpace(r.rest[0]) && r.rest[0] != ':' && r.rest[0] != ','
    ensures NextToken(r) == PlainToken(r)
  {
    assert SkipSpace(r.rest) == r.rest;
  }

  lemma ScalarIsPlain(r: Reader, token: Token, rest: string)
    requires r.rest != "" && ValueAllowed(r.mode)
    requires var c := r.rest[0]; c != '[' && c != ']' && c != '{' && c != '}' && c != '"'
    requires ReadScalar(r.rest) == Some((token, rest))
    ensures PlainToken(r) == Got(token, Reader(rest, ValueEnd(r.mode), r.stack))
  {
  }

  lemma NumberIsScalar(s: string, n: nat)
    requires s != "" && (IsDigit(s[0]) || s[0] == '-') && ReadNumber(s) == Some(n)
    ensures ReadScalar(s) == Some((NumberToken(s[..n]), s[n..]))
  {
  }

  lemma LiteralRoundTrip(literal: string, rest: string, mode: Mode, stack: seq<Mode>)
    requires IntegerLiteral(literal) && ValueAllowed(mode) && EndsNumber(rest)
    ensures DecodeValue(Reader(literal + rest, mode, stack))
        == Got(Number(literal), Reader(rest, ValueEnd(mode), stack))
  {
    var s := literal + rest;
    assert s[0] == literal[0];
    NumberRoundTrip(literal, rest);
    assert s[..|literal|] == literal && s[|literal|..] == rest;
    NumberIsRead(s, |literal|, mode, stack);
  }

  lemma WordRoundTrip(v: Value, floats: Floats, rest: string, mode: Mode, stack: seq<Mode>)
    requires (v.Bool? || v.Null?) && ValueAllowed(mode)
    ensures DecodeValue(Reader(Encode(v, floats) + rest, mode, stack)) == Got(v, Reader(rest, ValueEnd(mode), stack))
  {
    var s := Encode(v, floats) + rest;
    var token := if v.Bool? then BoolToken(v.truth) else NullToken;
    WordIsScalar(v, floats, rest);
    ScalarIsPlain(Reader(s, mode, stack), token, rest);
    PlainIsNext(Reader(s, mode, stack));
    WordTokenIsValue(Reader(s, mode, stack), v, Reader(rest, ValueEnd(mode), stack));
  }

  lemma WordIsScalar(v: Value, floats: Floats, rest: string)
    requires v.Bool? || v.Null?
    ensures var s := Encode(v, floats) + rest;
            && s[0] in "tfn"
            && ReadScalar(s) == Some((if v.Bool? then BoolToken(v.truth) else NullToken, rest))
  {
    var s := Encode(v, floats) + rest;
    assert s[|Encode(v, floats)|..] == rest;
  }

  lemma WordTokenIsValue(r: Reader, v: Value, next: Reader)
    requires v.Bool? || v.Null?
    ensures NextToken(r) == Got(if v.Bool? then BoolToken(v.truth) else NullToken, next) ==>
              DecodeValue(r) == Got(v, next)
  {
  }

  lemma ScalarRoundTrip(v: Value, floats: Floats, rest: string, mode: Mode, stack: seq<Mode>)
    requires Canonical(v) && !v.Object? && !v.List?
    requires ValueAllowed(mode) && EndsNumber(rest)
    ensures DecodeValue(Reader(Encode(v, floats) + rest, mode, stack)) == Got(v, Reader(rest, ValueEnd(mode), stack))
  {
    match v
    case Str(text) => TextRoundTrip(text, rest, mode, stack);
    case Number(literal) =>
      IntegerHasNoPoint(literal);
      LiteralRoundTrip(literal, rest, mode, stack);
    case _ => WordRoundTrip(v, floats, rest, mode, stack);
  }

  /** The separators the encoder writes before a value, and the state in which the reader expects them. */
  predicate Expects(before: Mode, separator: string, expected: Mode) {
    || (separator == "" && before == expected && ValueAllowed(before))
    || (separator == "," && before == ArrayComma && expected == ArrayValue)
    || (separator == ":" && before == ObjectColon && expected == ObjectValue)
  }

  lemma SeparatorIsSkipped(before: Mode, separator: string, expected: Mode, s: string, stack: seq<Mode>)
    requires Expects(before, separator, expected)
    ensures DecodeValue(Reader(separator + s, before, stack)) == DecodeValue(Reader(s, expected, stack))
  {
    if separator == "" {
      assert separator + s == s;
    } else {
      assert SkipSpace(separator + s) == separator + s;
      assert (separator + s)[1..] == s;
    }
  }

  lemma {:induction false} ValueRoundTrip(v: Value, floats: Floats, rest: string, mode: Mode, stack: seq<Mode>)
    requires Canonical(v)
    requires ValueAllowed(mode) && EndsNumber(rest)
    ensures DecodeValue(Reader(Encode(v, floats) + rest, mode, stack))
        == Got(Normal(v), Reader(rest, ValueEnd(mode), stack))
    decreases v, 0
  {
    match v
    case Object(fields) =>
      if fields == [] {
        assert EncodeItems([], false, floats) == "";
        ListRoundTrip([], floats, rest, mode, stack);
      } else {
        ObjectRoundTrip(fields, floats, rest, mode, stack);
      }
    case List(items) => ListRoundTrip(items, floats, rest, mode, stack);
    case _ => ScalarRoundTrip(v, floats, rest, mode, stack);
  }

  lemma {:induction false} ListRoundTrip(items: seq<Value>, floats: Floats, rest: string, mode: Mode, stack: seq<Mode>)
    requires CanonicalItems(items) && ValueAllowed(mode)
    ensures DecodeValue(Reader("[" + EncodeItems(items, false, floats) + "]" + rest, mode, stack))
            == Got(List(NormalItems(items)), Reader(rest, ValueEnd(mode), stack))
    decreases items, 2
  {
    var inner := EncodeItems(items, false, floats) + "]" + rest;
    Bracketed("[", EncodeItems(items, false, floats), "]", rest);
    ItemsRoundTrip(items, [], floats, rest, mode, stack, ArrayStart);
    NothingBefore(NormalItems(items));
    OpenBracket("[" + inner, inner, mode, stack, Got(List(NormalItems(items)), Reader(rest, ValueEnd(mode), stack)));
  }

  lemma {:induction false} ObjectRoundTrip(fields: seq<Field>, floats: Floats, rest: string, mode: Mode,
      stack: seq<Mode>)
    requires CanonicalFields(fields) && ValueAllowed(mode)
    ensures DecodeValue(Reader("{" + EncodeFields(fields, false, floats) + "}" + rest, mode, stack))
            == Got(Object(NormalFields(fields)), Reader(rest, ValueEnd(mode), stack))
    decreases fields, 2
  {
    var inner := EncodeFields(fields, false, floats) + "}" + rest;
    Bracketed("{", EncodeFields(fields, false, floats), "}", rest);
    FieldsRoundTrip(fields, [], floats, rest, mode, stack, ObjectStart);
    NothingBefore(NormalFields(fields));
    OpenBrace("{" + inner, inner, mode, stack, Got(Object(NormalFields(fields)), Reader(rest, ValueEnd(mode), stack)));
  }

  lemma Bracketed(open: string, text: string, close: string, rest: string)
    ensures open + text + close + rest == open + (text + close + rest)
  {
  }

  lemma NothingBefore<T>(s: seq<T>)
    ensures [] + s == s
  {
  }

  lemma OpenBracket(s: string, inner: string, mode: Mode, stack: seq<Mode>, v: Read<Value>)
    requires s == "[" + inner && ValueAllowed(mode)
    requires DecodeItems(Reader(inner, ArrayStart, stack + [mode]), []) == v
    ensures DecodeValue(Reader(s, mode, stack)) == v
  {
    assert SkipSpace(s) == s;
    assert s[1..] == inner;
  }

  lemma OpenBrace(s: string, inner: string, mode: Mode, stack: seq<Mode>, v: Read<Value>)
    requires s == "{" + inner && ValueAllowed(mode)
    requires DecodeFields(Reader(inner, ObjectStart, stack + [mode]), []) == v
    ensures DecodeValue(Reader(s, mode, stack)) == v
  {
    assert SkipSpace(s) == s;
    assert s[1..] == inner;
  }

  lemma CloseIsRead(c: char, inner: Mode, mode: Mode, rest: string, stack: seq<Mode>)
    requires (c == ']' && inner in {ArrayStart, ArrayComma}) || (c == '}' && inner in {ObjectStart, ObjectComma})
    ensures var r := Reader([c] + rest, inner, stack + [mode]);
            !More(r) && NextToken(r) == Got(Delim(c), Reader(rest, ValueEnd(mode), stack))
  {
    var s := [c] + rest;
    assert SkipSpace(s) == s;
    assert s[1..] == rest;
    assert (stack + [mode])[..|stack|] == stack;
  }

  lemma {:induction false} ItemsRoundTrip(items: seq<Value>, done: seq<Value>, floats: Floats, rest: string,
                                         mode: Mode, stack: seq<Mode>, inner: Mode)
    requires CanonicalItems(items)
    requires inner in {ArrayStart, ArrayComma}
    ensures DecodeItems(Reader(EncodeItems(items, inner == ArrayComma, floats) + "]" + rest, inner, stack + [mode]),
        done)
            == Got(List(done + NormalItems(items)), Reader(rest, ValueEnd(mode), stack))
    decreases items, 1
  {
    var s := EncodeItems(items, inner == ArrayComma, floats) + "]" + rest;
    if items == [] {
      assert s == "]" + rest;
      CloseIsRead(']', inner, mode, rest, stack);
      assert done + NormalItems(items) == done;
    } else {
      var separator := if inner == ArrayComma then "," else "";
      var after := EncodeItems(items[1..], true, floats) + "]" + rest;
      var value := Encode(items[0], floats) + after;
      assert EncodeItem(items[0], inner == ArrayComma, floats) == separator + Encode(items[0], floats);
      RegroupItem(separator, Encode(items[0], floats), EncodeItems(items[1..], true, floats), rest);
      assert s == separator + value;
      EncodingStartsValue(items[0], floats, after);
      ItemsEndNumbers(items[1..], floats, rest);
      var expected := if inner == ArrayComma then ArrayValue else ArrayStart;
      ValueRoundTrip(items[0], floats, after, expected, stack + [mode]);
      ItemIsRead(Normal(items[0]), value, after, inner, stack + [mode], done);
      ItemsRoundTrip(items[1..], done + [Normal(items[0])], floats, rest, mode, stack, ArrayComma);
      assert done + NormalItems(items) == done + [Normal(items[0])] + NormalItems(items[1..]);
    }
  }

  lemma ItemIsRead(value: Value, text: string, after: string, inner: Mode, stack: seq<Mode>, done: seq<Value>)
    requires inner in {ArrayStart, ArrayComma} && StartsValue(text)
    requires DecodeValue(Reader(text, if inner == ArrayComma then ArrayValue else ArrayStart, stack))
        == Got(value, Reader(after, ArrayComma, stack))
    ensures DecodeItems(Reader((if inner == ArrayComma then "," else "") + text, inner, stack), done)
            == DecodeItems(Reader(after, ArrayComma, stack), done + [value])
  {
    var separator := if inner == ArrayComma then "," else "";
    SeparatorIsSkipped(inner, separator, if inner == ArrayComma then ArrayValue else ArrayStart, text, stack);
    assert inner == ArrayStart ==> separator + text == text;
    PlainIsMore(Reader(separator + text, inner, stack));
  }

  lemma ItemsEndNumbers(items: seq<Value>, floats: Floats, rest: string)
    ensures EndsNumber(EncodeItems(items, true, floats) + "]" + rest)
  {
  }

  lemma FieldsEndNumbers(fields: seq<Field>, floats: Floats, rest: string)
    ensures EndsNumber(EncodeFields(fields, true, floats) + "}" + rest)
  {
  }

  lemma RegroupItem(a: string, b: string, c: string, rest: string)
    ensures (a + b) + c + "]" + rest == a + (b + (c + "]" + rest))
  {
  }

  lemma RegroupField(a: string, b: string, c: string, d: string, rest: string)
    ensures (a + b + ":" + c) + d + "}" + rest == a + b + (":" + (c + (d + "}" + rest)))
  {
  }

  /** A key where one is expected. */
  lemma QuotedKeyIsRead(key: string, after: string, mode: Mode, stack: seq<Mode>)
    requires mode in {ObjectStart, ObjectKey}
    ensures var r := Reader(EncodeString(key) + after, mode, stack);
            More(r) && NextToken(r) == Got(StringToken(key), Reader(after, ObjectColon, stack))
  {
    var quoted := EncodeString(key) + after;
    assert quoted[0] == '"' && quoted[1..] == EscapeAll(key) + "\"" + after;
    StringRoundTrip(key, after);
    var r := Reader(quoted, mode, stack);
    KeyIsPlain(r, key, after);
    PlainIsNext(r);
    PlainIsMore(r);
  }

  lemma KeyIsPlain(r: Reader, text: string, rest: string)
    requires r.rest != "" && r.rest[0] == '"' && ReadString(r.rest[1..]) == Some((text, rest))
    requires r.mode in {ObjectStart, ObjectKey}
    ensures PlainToken(r) == Got(StringToken(text), Reader(rest, ObjectColon, r.stack))
  {
  }

  lemma PlainIsMore(r: Reader)
    requires r.rest != "" && !IsSpace(r.rest[0]) && r.rest[0] != ']' && r.rest[0] != '}'
    ensures More(r)
  {
    assert SkipSpace(r.rest) == r.rest;
  }

  lemma CommaIsSkipped(s: string, stack: seq<Mode>)
    ensures var r := Reader("," + s, ObjectComma, stack);
            More(r) && NextToken(r) == NextToken(Reader(s, ObjectKey, stack))
  {
    assert SkipSpace("," + s) == "," + s;
    assert ("," + s)[1..] == s;
  }

  /** The key of the next field, with the comma before it. */
  lemma KeyIsRead(key: string, after: string, inner: Mode, stack: seq<Mode>)
    requires inner in {ObjectStart, ObjectComma}
    ensures var s := (if inner == ObjectComma then "," else "") + EncodeString(key) + after;
            var r := Reader(s, inner, stack);
            More(r) && NextToken(r) == Got(StringToken(key), Reader(after, ObjectColon, stack))
  {
    if inner == ObjectComma {
      QuotedKeyIsRead(key, after, ObjectKey, stack);
      CommaIsSkipped(EncodeString(key) + after, stack);
      Assoc(",", EncodeString(key), after);
    } else {
      QuotedKeyIsRead(key, after, ObjectStart, stack);
      assert "" + EncodeString(key) == EncodeString(key);
    }
  }

  lemma FieldIsRead(key: string, value: Value, text: string, after: string, inner: Mode, stack: seq<Mode>,
      done: seq<Field>)
    requires inner in {ObjectStart, ObjectComma}
    requires DecodeValue(Reader(text, ObjectValue, stack)) == Got(value, Reader(after, ObjectComma, stack))
    ensures DecodeFields(Reader((if inner == ObjectComma then "," else "") + EncodeString(key) + (":" + text), inner,
        stack), done)
            == DecodeFields(Reader(after, ObjectComma, stack), SetField(done, key, value))
  {
    KeyIsRead(key, ":" + text, inner, stack);
    SeparatorIsSkipped(ObjectColon, ":", ObjectValue, text, stack);
  }

  lemma FieldText(fields: seq<Field>, comma: bool, floats: Floats, rest: string)
    requires fields != []
    ensures EncodeFields(fields, comma, floats) + "}" + rest
            == (if comma then "," else "") + EncodeString(fields[0].key)
               + (":" + (Encode(fields[0].value, floats) + (EncodeFields(fields[1..], true, floats) + "}" + rest)))
  {
    var separator := if comma then "," else "";
    assert EncodeField(fields[0], comma, floats)
        == separator + EncodeString(fields[0].key) + ":" + Encode(fields[0].value, floats);
    RegroupField(separator, EncodeString(fields[0].key), Encode(fields[0].value, floats),
        EncodeFields(fields[1..], true, floats), rest);
  }

  lemma SetNewField(done: seq<Field>, fields: seq<Field>, value: Value)
    requires CanonicalFields(fields) && fields != []
    requires forall key :: key in Keys(done) ==> key !in Keys(fields)
    ensures var next := SetField(done, fields[0].key, value);
            && next == done + [Field(fields[0].key, value)]
            && forall key :: key in Keys(next) ==> key !in Keys(fields[1..])
  {
    assert Keys(fields) == [fields[0].key] + Keys(fields[1..]);
    assert Keys(fields)[0] == fields[0].key;
    assert fields[0].key !in Keys(done);
  }

  lemma NoFieldsRoundTrip(done: seq<Field>, floats: Floats, rest: string, mode: Mode, stack: seq<Mode>, inner: Mode)
    requires inner in {ObjectStart, ObjectComma}
    ensures DecodeFields(Reader(EncodeFields([], inner == ObjectComma, floats) + "}" + rest, inner, stack + [mode]),
        done)
            == Got(Object(done + NormalFields([])), Reader(rest, ValueEnd(mode), stack))
  {
    assert EncodeFields([], inner == ObjectComma, floats) + "}" + rest == "}" + rest;
    CloseIsRead('}', inner, mode, rest, stack);
    assert done + NormalFields([]) == done;
  }

  lemma AssocFields(a: seq<Field>, b: seq<Field>, c: seq<Field>)
    ensures (a + b) + c == a + (b + c)
  {
  }

  lemma {:induction false} FieldsRoundTrip(fields: seq<Field>, done: seq<Field>, floats: Floats, rest: string,
                                          mode: Mode, stack: seq<Mode>, inner: Mode)
    requires CanonicalFields(fields)
    requires forall key :: key in Keys(done) ==> key !in Keys(fields)
    requires inner in {ObjectStart, ObjectComma}
    ensures DecodeFields(Reader(EncodeFields(fields, inner == ObjectComma, floats) + "}" + rest, inner,
        stack + [mode]), done)
            == Got(Object(done + NormalFields(fields)), Reader(rest, ValueEnd(mode), stack))
    decreases fields, 1
  {
    if fields == [] {
      NoFieldsRoundTrip(done, floats, rest, mode, stack, inner);
    } else {
      var field := fields[0];
      var after := EncodeFields(fields[1..], true, floats) + "}" + rest;
      var value := Normal(field.value);
      FieldText(fields, inner == ObjectComma, floats, rest);
      FieldsEndNumbers(fields[1..], floats, rest);
      ValueRoundTrip(field.value, floats, after, ObjectValue, stack + [mode]);
      FieldIsRead(field.key, value, Encode(field.value, floats) + after, after, inner, stack + [mode], done);
      SetNewField(done, fields, value);
      FieldsRoundTrip(fields[1..], SetField(done, field.key, value), floats, rest, mode, stack, ObjectComma);
      AssocFields(done, [Field(field.key, value)], NormalFields(fields[1..]));
    }
  }

  /** Encoding then parsing a value reads it back. */
  lemma RoundTrip(v: Value, floats: Floats)
    requires Canonical(v)
    ensures Parse(Encode(v, floats)) == Success(Normal(v))
  {
    ValueRoundTrip(v, floats, "", TopValue, []);
    assert Encode(v, floats) + "" == Encode(v, floats);
  }

  /** What the encoding cannot see is exactly the difference between `{}` and `[]`. */
  lemma {:induction false} EncodingOfNormal(v: Value, floats: Floats)
    ensures Encode(Normal(v), floats) == Encode(v, floats)
    decreases v, 0
  {
    match v
    case Object(fields) => EncodingOfNormalFields(fields, false, floats);
    case List(items) => EncodingOfNormalItems(items, false, floats);
    case _ =>
  }

  lemma {:induction false} EncodingOfNormalFields(fields: seq<Field>, comma: bool, floats: Floats)
    ensures EncodeFields(NormalFields(fields), comma, floats) == EncodeFields(fields, comma, floats)
    decreases fields, 1
  {
    if fields != [] {
      EncodingOfNormal(fields[0].value, floats);
      EncodingOfNormalFields(fields[1..], true, floats);
      assert NormalFields(fields)[1..] == NormalFields(fields[1..]);
    }
  }

  lemma {:induction false} EncodingOfNormalItems(items: seq<Value>, comma: bool, floats: Floats)
    ensures EncodeItems(NormalItems(items), comma, floats) == EncodeItems(items, comma, floats)
    decreases items, 1
  {
    if items != [] {
      EncodingOfNormal(items[0], floats);
      EncodingOfNormalItems(items[1..], true, floats);
      assert NormalItems(items)[1..] == NormalItems(items[1..]);
    }
  }

  /** Two values have the same encoding iff they are equal with each `{}` read as `[]`. */
  lemma EncodingIsInjective(v: Value, w: Value, floats: Floats)
    requires Canonical(v) && Canonical(w)
    ensures Encode(v, floats) == Encode(w, floats) <==> Normal(v) == Normal(w)
  {
    RoundTrip(v, floats);
    RoundTrip(w, floats);
    EncodingOfNormal(v, floats);
    EncodingOfNormal(w, floats);
  }
}
