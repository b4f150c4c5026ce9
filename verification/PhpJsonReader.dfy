/**
 * The reader side of internal/audit/integrity_composer_hash.go: decodePHPValue over a token reader
 * of RFC 8259 texts with the token states of Go's json.Decoder.
 */
module PhpJsonReader {
  import opened Wrappers
  import opened Strings
  import opened PhpJson

  // ---- Lexing: sections 2, 6 and 7 of RFC 8259 ----

  predicate IsSpace(c: char) {
    c == ' ' || c == '\t' || c == '\n' || c == '\r'
  }

  function SkipSpace(s: string): (r: string)
    ensures |r| <= |s| && (r == "" || !IsSpace(r[0]))
  {
    if s != "" && IsSpace(s[0]) then SkipSpace(s[1..]) else s
  }

  function HexValue(c: char): (v: Option<nat>)
    ensures v.Some? ==> v.value < 16
  {
    if '0' <= c <= '9' then Some((c - '0') as nat)
    else if 'a' <= c <= 'f' then Some((c - 'a') as nat + 10)
    else if 'A' <= c <= 'F' then Some((c - 'A') as nat + 10)
    else None
  }

  /** The value of four hex digits at the front. */
  function ReadHex4(s: string): (v: Option<nat>)
    ensures v.Some? ==> v.value < 0x10000 && |s| >= 4
  {
    if |s| < 4 then None
    else match (HexValue(s[0]), HexValue(s[1]), HexValue(s[2]), HexValue(s[3]))
      case (Some(a), Some(b), Some(c), Some(d)) => Some(a * 0x1000 + b * 0x100 + c * 0x10 + d)
      case _ => None
  }

  const REPLACEMENT: char := '\U{FFFD}'

  /** A code unit and what follows it: half a surrogate pair takes its other half or is replaced. */
  function JoinUnits(unit: nat, rest: string): (r: (char, string))
    requires unit < 0x10000
    ensures |r.1| <= |rest|
  {
    if 0xD800 <= unit < 0xE000 then
      if unit < 0xDC00 && "\\u" <= rest && ReadHex4(rest[2..]).Some?
          && 0xDC00 <= ReadHex4(rest[2..]).value < 0xE000 then
        ((0x10000 + (unit - 0xD800) * 0x400 + (ReadHex4(rest[2..]).value - 0xDC00)) as char, rest[6..])
      else (REPLACEMENT, rest)
    else (unit as char, rest)
  }

  /** What an escape means; `s` starts after the backslash. */
  function Unescape(s: string): (r: Option<(char, string)>)
    ensures r.Some? ==> |r.value.1| < |s|
  {
    if s == "" then None
    else if s[0] == '"' || s[0] == '\\' || s[0] == '/' then Some((s[0], s[1..]))
    else if s[0] == 'b' then Some((8 as char, s[1..]))
    else if s[0] == 'f' then Some((12 as char, s[1..]))
    else if s[0] == 'n' then Some(('\n', s[1..]))
    else if s[0] == 'r' then Some(('\r', s[1..]))
    else if s[0] == 't' then Some(('\t', s[1..]))
    else if s[0] == 'u' then
      match ReadHex4(s[1..])
      case None => None
      case Some(unit) => Some(JoinUnits(unit, s[5..]))
    else None
  }

  /** The text of a string literal and what follows it; `s` starts after the opening quote. */
  function ReadString(s: string): (r: Option<(string, string)>)
    ensures r.Some? ==> |r.value.1| < |s|
    decreases |s|
  {
    if s == "" || s[0] as int < 0x20 then None
    else if s[0] == '"' then Some(("", s[1..]))
    else
      var step := if s[0] == '\\' then Unescape(s[1..]) else Some((s[0], s[1..]));
      match step
      case None => None
      case Some((c, after)) =>
        match ReadString(after)
        case None => None
        case Some((text, rest)) => Some(([c] + text, rest))
  }

  function DigitRun(s: string): (n: nat)
    ensures n <= |s| && forall i :: 0 <= i < n ==> IsDigit(s[i])
    ensures n < |s| ==> !IsDigit(s[n])
  {
    if s != "" && IsDigit(s[0]) then 1 + DigitRun(s[1..]) else 0
  }

  /** The length of a fraction and exponent part, if what is there is one. */
  function ReadExponent(s: string): (n: Option<nat>)
    ensures n.Some? ==> n.value <= |s| && (n.value > 0 ==> s[0] in "eE")
  {
    if s == "" || s[0] !in "eE" then Some(0)
    else
      var sign := if |s| > 1 && s[1] in "+-" then 1 else 0;
      var digits := DigitRun(s[1 + sign..]);
      if digits == 0 then None else Some(1 + sign + digits)
  }

  function ReadFraction(s: string): (n: Option<nat>)
    ensures n.Some? ==> n.value <= |s| && (n.value > 0 ==> s[0] == '.')
  {
    if s == "" || s[0] != '.' then Some(0)
    else
      var digits := DigitRun(s[1..]);
      if digits == 0 then None else Some(1 + digits)
  }

  /** Sign and integer part: a lone zero, or digits that do not start with zero. */
  function ReadInteger(s: string): (n: Option<nat>)
    ensures n.Some? ==> 0 < n.value <= |s|
  {
    var sign := if s != "" && s[0] == '-' then 1 else 0;
    var digits := DigitRun(s[sign..]);
    if digits == 0 then None
    else if s[sign] == '0' then Some(sign + 1)
    else Some(sign + digits)
  }

  /** The length of the number at the front. */
  function ReadNumber(s: string): (n: Option<nat>)
    ensures n.Some? ==> 0 < n.value <= |s|
  {
    match ReadInteger(s)
    case None => None
    case Some(a) =>
      match ReadFraction(s[a..])
      case None => None
      case Some(b) =>
        match ReadExponent(s[a + b..])
        case None => None
        case Some(c) => Some(a + b + c)
  }

  // ---- Tokens ----

  datatype Token =
    | Delim(c: char) | StringToken(text: string) | NumberToken(literal: string) | BoolToken(truth: bool) | NullToken

  datatype Mode =
    | TopValue
    | ArrayStart | ArrayValue | ArrayComma
    | ObjectStart | ObjectKey | ObjectColon | ObjectValue | ObjectComma

  datatype Reader = Reader(rest: string, mode: Mode, stack: seq<Mode>)

  datatype Read<T> = Got(value: T, next: Reader) | EndOfInput | Invalid

  predicate ValueAllowed(mode: Mode) {
    mode == TopValue || mode == ArrayStart || mode == ArrayValue || mode == ObjectValue
  }

  function ValueEnd(mode: Mode): Mode {
    match mode
    case ArrayStart => ArrayComma
    case ArrayValue => ArrayComma
    case ObjectValue => ObjectComma
    case _ => mode
  }

  /** A string, number, true, false or null at the front. */
  function ReadScalar(s: string): (r: Option<(Token, string)>)
    ensures r.Some? ==> |r.value.1| < |s|
  {
    if "\"" <= s then
      match ReadString(s[1..])
      case None => None
      case Some((text, rest)) => Some((StringToken(text), rest))
    else if "true" <= s then Some((BoolToken(true), s[4..]))
    else if "false" <= s then Some((BoolToken(false), s[5..]))
    else if "null" <= s then Some((NullToken, s[4..]))
    else
      match ReadNumber(s)
      case None => None
      case Some(n) => Some((NumberToken(s[..n]), s[n..]))
  }

  function Open(c: char, r: Reader, inner: Mode): Read<Token>
    requires r.rest != ""
  {
    if !ValueAllowed(r.mode) then Invalid
    else Got(Delim(c), Reader(r.rest[1..], inner, r.stack + [r.mode]))
  }

  function Close(c: char, r: Reader, empty: Mode, after: Mode): Read<Token>
    requires r.rest != ""
  {
    if (r.mode != empty && r.mode != after) || r.stack == [] then Invalid
    else Got(Delim(c), Reader(r.rest[1..], ValueEnd(r.stack[|r.stack| - 1]), r.stack[..|r.stack| - 1]))
  }

  /** A token that is not preceded by a separator; white space is already skipped. */
  function PlainToken(r: Reader): (t: Read<Token>)
    requires r.rest != ""
    ensures t.Got? ==> |t.next.rest| < |r.rest|
  {
    if r.rest[0] == '[' then Open('[', r, ArrayStart)
    else if r.rest[0] == ']' then Close(']', r, ArrayStart, ArrayComma)
    else if r.rest[0] == '{' then Open('{', r, ObjectStart)
    else if r.rest[0] == '}' then Close('}', r, ObjectStart, ObjectComma)
    else if r.rest[0] == '"' && (r.mode == ObjectStart || r.mode == ObjectKey) then
      match ReadString(r.rest[1..])
      case None => Invalid
      case Some((text, rest)) => Got(StringToken(text), Reader(rest, ObjectColon, r.stack))
    else if !ValueAllowed(r.mode) then Invalid
    else
      match ReadScalar(r.rest)
      case None => Invalid
      case Some((token, rest)) => Got(token, Reader(rest, ValueEnd(r.mode), r.stack))
  }

  /** Decoder.Token: separators are checked against the state and skipped. */
  function NextToken(reader: Reader): (t: Read<Token>)
    ensures t.Got? ==> |t.next.rest| < |reader.rest|
    decreases |reader.rest|
  {
    var r := reader.(rest := SkipSpace(reader.rest));
    if r.rest == "" then EndOfInput
    else if r.rest[0] == ':' then
      if r.mode == ObjectColon then NextToken(Reader(r.rest[1..], ObjectValue, r.stack)) else Invalid
    else if r.rest[0] == ',' then
      if r.mode == ArrayComma then NextToken(Reader(r.rest[1..], ArrayValue, r.stack))
      else if r.mode == ObjectComma then NextToken(Reader(r.rest[1..], ObjectKey, r.stack))
      else Invalid
    else PlainToken(r)
  }

  /** Decoder.More: something other than a closing bracket or brace comes next. */
  predicate More(r: Reader) {
    var rest := SkipSpace(r.rest);
    rest != "" && rest[0] != ']' && rest[0] != '}'
  }

  // ---- Values ----

  function DecodeValue(r: Reader): (v: Read<Value>)
    ensures v.Got? ==> |v.next.rest| < |r.rest|
    decreases |r.rest|, 0
  {
    match NextToken(r)
    case EndOfInput => EndOfInput
    case Invalid => Invalid
    case Got(Delim(c), next) =>
      if c == '{' then DecodeFields(next, [])
      else if c == '[' then DecodeItems(next, [])
      else Invalid
    case Got(StringToken(text), next) => Got(Str(text), next)
    case Got(NumberToken(literal), next) => Got(Number(literal), next)
    case Got(BoolToken(truth), next) => Got(Bool(truth), next)
    case Got(NullToken, next) => Got(Null, next)
  }

  function DecodeFields(r: Reader, done: seq<Field>): (v: Read<Value>)
    ensures v.Got? ==> |v.next.rest| < |r.rest|
    decreases |r.rest|, 1
  {
    match NextToken(r)
    case EndOfInput => EndOfInput
    case Invalid => Invalid
    case Got(token, next) =>
      if !More(r) then Got(Object(done), next)
      else if !token.StringToken? then Invalid
      else
        match DecodeValue(next)
        case EndOfInput => EndOfInput
        case Invalid => Invalid
        case Got(value, after) => DecodeFields(after, SetField(done, token.text, value))
  }

  function DecodeItems(r: Reader, done: seq<Value>): (v: Read<Value>)
    ensures v.Got? ==> |v.next.rest| < |r.rest|
    decreases |r.rest|, 1
  {
    if More(r) then
      match DecodeValue(r)
      case EndOfInput => EndOfInput
      case Invalid => Invalid
      case Got(value, after) => DecodeItems(after, done + [value])
    else
      match NextToken(r)
      case EndOfInput => EndOfInput
      case Invalid => Invalid
      case Got(_, next) => Got(List(done), next)
  }

  datatype ParseError = UnexpectedEnd | Malformed | TrailingContent

  function Parse(text: string): Result<Value, ParseError> {
    match DecodeValue(Reader(text, TopValue, []))
    case EndOfInput => Failure(UnexpectedEnd)
    case Invalid => Failure(Malformed)
    case Got(value, next) => if NextToken(next) == EndOfInput then Success(value) else Failure(TrailingContent)
  }

  // ---- The decoder object ----

  datatype Lexeme = Lexeme(token: Token) | NoMore | NotAToken

  class Decoder {
    var rest: string
    var mode: Mode
    var stack: seq<Mode>

    constructor (text: string)
      ensures Now() == Reader(text, TopValue, [])
    {
      rest, mode, stack := text, TopValue, [];
    }

    function Now(): Reader
      reads this
    {
      Reader(rest, mode, stack)
    }

    ghost predicate Returns(t: Lexeme, want: Read<Token>)
      reads this
    {
      match want
      case Got(token, next) => t == Lexeme(token) && Now() == next
      case EndOfInput => t == NoMore
      case Invalid => t == NotAToken
    }

    method NextDelimiter(c: char) returns (t: Lexeme)
      requires rest != "" && rest[0] == c && !IsSpace(c) && c in "[]{}"
      modifies this
      ensures Returns(t, NextToken(old(Now())))
    {
      assert SkipSpace(rest) == rest;
      if c == '[' || c == '{' {
        if !ValueAllowed(mode) {
          return NotAToken;
        }
        stack := stack + [mode];
        mode := if c == '[' then ArrayStart else ObjectStart;
      } else {
        var closable :=
          if c == ']' then mode == ArrayStart || mode == ArrayComma else mode == ObjectStart || mode == ObjectComma;
        if !closable || stack == [] {
          return NotAToken;
        }
        mode := ValueEnd(stack[|stack| - 1]);
        stack := stack[..|stack| - 1];
      }
      rest := rest[1..];
      return Lexeme(Delim(c));
    }

    method NextScalar() returns (t: Lexeme)
      requires rest != "" && !IsSpace(rest[0]) && rest[0] !in "[]{}:,"
      modifies this
      ensures Returns(t, NextToken(old(Now())))
    {
      assert SkipSpace(rest) == rest;
      if rest[0] == '"' && (mode == ObjectStart || mode == ObjectKey) {
        var key := ReadString(rest[1..]);
        if key.None? {
          return NotAToken;
        }
        rest, mode := key.value.1, ObjectColon;
        return Lexeme(StringToken(key.value.0));
      }
      if !ValueAllowed(mode) {
        return NotAToken;
      }
      var scalar := ReadScalar(rest);
      if scalar.None? {
        return NotAToken;
      }
      rest, mode := scalar.value.1, ValueEnd(mode);
      return Lexeme(scalar.value.0);
    }

    method Token() returns (t: Lexeme)
      modifies this
      ensures Returns(t, NextToken(old(Now())))
    {
      while true
        invariant NextToken(Now()) == NextToken(old(Now()))
        decreases |rest|
      {
        rest := SkipSpace(rest);
        assert SkipSpace(rest) == rest;
        if rest == "" {
          return NoMore;
        }
        var c := rest[0];
        if c in "[]{}" {
          t := NextDelimiter(c);
          return;
        } else if c == ':' {
          if mode != ObjectColon {
            return NotAToken;
          }
          rest, mode := rest[1..], ObjectValue;
        } else if c == ',' {
          if mode == ArrayComma {
            rest, mode := rest[1..], ArrayValue;
          } else if mode == ObjectComma {
            rest, mode := rest[1..], ObjectKey;
          } else {
            return NotAToken;
          }
        } else {
          t := NextScalar();
          return;
        }
      }
    }
  }

  ghost predicate Yields(r: Result<Value, ParseError>, decoder: Decoder, want: Read<Value>)
    reads decoder
  {
    match want
    case Got(value, next) => r == Success(value) && decoder.Now() == next
    case EndOfInput => r == Failure(UnexpectedEnd)
    case Invalid => r == Failure(Malformed)
  }

  function Problem(t: Lexeme): ParseError {
    if t == NoMore then UnexpectedEnd else Malformed
  }

  method DecodePhpValue(decoder: Decoder) returns (r: Result<Value, ParseError>)
    modifies decoder
    ensures Yields(r, decoder, DecodeValue(old(decoder.Now())))
    decreases |decoder.rest|, 0
  {
    var t := decoder.Token();
    if !t.Lexeme? {
      return Failure(Problem(t));
    }
    match t.token
    case Delim(c) =>
      if c == '{' {
        r := DecodeObject(decoder);
      } else if c == '[' {
        r := DecodeList(decoder);
      } else {
        r := Failure(Malformed);
      }
    case StringToken(text) => r := Success(Str(text));
    case NumberToken(literal) => r := Success(Number(literal));
    case BoolToken(truth) => r := Success(Bool(truth));
    case NullToken => r := Success(Null);
  }

  method DecodeObject(decoder: Decoder) returns (r: Result<Value, ParseError>)
    modifies decoder
    ensures Yields(r, decoder, DecodeFields(old(decoder.Now()), []))
    decreases |decoder.rest|, 1
  {
    var obj := new PhpObject();
    while More(decoder.Now())
      invariant fresh(obj) && obj.Valid()
      invariant DecodeFields(decoder.Now(), obj.Fields()) == DecodeFields(old(decoder.Now()), [])
      invariant |decoder.rest| <= old(|decoder.rest|)
      decreases |decoder.rest|
    {
      var keyToken := decoder.Token();
      if !keyToken.Lexeme? {
        return Failure(Problem(keyToken));
      }
      if !keyToken.token.StringToken? {
        return Failure(Malformed);
      }
      var value := DecodePhpValue(decoder);
      if value.Failure? {
        return value;
      }
      obj.Set(keyToken.token.text, value.value);
    }
    var close := decoder.Token();
    if !close.Lexeme? {
      return Failure(Problem(close));
    }
    return Success(Object(obj.Fields()));
  }

  method DecodeList(decoder: Decoder) returns (r: Result<Value, ParseError>)
    modifies decoder
    ensures Yields(r, decoder, DecodeItems(old(decoder.Now()), []))
    decreases |decoder.rest|, 1
  {
    var list: seq<Value> := [];
    while More(decoder.Now())
      invariant DecodeItems(decoder.Now(), list) == DecodeItems(old(decoder.Now()), [])
      invariant |decoder.rest| <= old(|decoder.rest|)
      decreases |decoder.rest|
    {
      var value := DecodePhpValue(decoder);
      if value.Failure? {
        return value;
      }
      list := list + [value.value];
    }
    var close := decoder.Token();
    if !close.Lexeme? {
      return Failure(Problem(close));
    }
    return Success(List(list));
  }

  method ParsePhpJson(raw: string) returns (r: Result<Value, ParseError>)
    ensures r == Parse(raw)
  {
    var decoder := new Decoder(raw);
    r := DecodePhpValue(decoder);
    if r.Failure? {
      return;
    }
    var trailing := decoder.Token();
    if trailing != NoMore {
      return Failure(TrailingContent);
    }
  }
}
