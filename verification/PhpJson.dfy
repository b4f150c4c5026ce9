/**
 * PHP values and PHP's json_encode as internal/audit/integrity_composer_hash.go reproduces it.
 * A `string` is a sequence of Unicode scalar values: what a Go string holding valid UTF-8 ranges over.
 */
module PhpJson {
  import opened Wrappers
  import opened Strings

  datatype Field = Field(key: string, value: Value)

  /** An object keeps its fields in the order they were written. */
  datatype Value =
    | Object(fields: seq<Field>)
    | List(items: seq<Value>)
    | Str(text: string)
    | Number(literal: string)
    | Bool(truth: bool)
    | Null

  /** ParseFloat followed by FormatFloat in Go: None where the literal does not parse. */
  type Floats = string -> Option<string>

  // ---- Objects ----

  function Keys(fields: seq<Field>): (keys: seq<string>)
    ensures |keys| == |fields|
    ensures forall i :: 0 <= i < |fields| ==> keys[i] == fields[i].key
  {
    seq(|fields|, i requires 0 <= i < |fields| => fields[i].key)
  }

  function Lookup(fields: seq<Field>, key: string): (r: Option<Value>)
    ensures r.None? <==> key !in Keys(fields)
    ensures r.Some? ==> exists i :: 0 <= i < |fields| && fields[i] == Field(key, r.value)
  {
    if fields == [] then None
    else if fields[0].key == key then
      assert Keys(fields)[0] == key;
      Some(fields[0].value)
    else
      assert Keys(fields) == [fields[0].key] + Keys(fields[1..]);
      assert forall i :: 0 <= i < |fields| - 1 ==> fields[1..][i] == fields[i + 1];
      Lookup(fields[1..], key)
  }

  /** What `set` does to the fields: a known key keeps its place, a new one goes last. */
  function SetField(fields: seq<Field>, key: string, value: Value): (r: seq<Field>)
    ensures Keys(r) == if key in Keys(fields) then Keys(fields) else Keys(fields) + [key]
  {
    if key in Keys(fields) then
      seq(|fields|, i requires 0 <= i < |fields| => if fields[i].key == key then Field(key, value) else fields[i])
    else fields + [Field(key, value)]
  }

  lemma {:induction false} LookupAt(fields: seq<Field>, i: nat)
    requires Distinct(Keys(fields)) && i < |fields|
    ensures Lookup(fields, fields[i].key) == Some(fields[i].value)
  {
    if i > 0 {
      assert Keys(fields)[0] != Keys(fields)[i];
      assert Keys(fields[1..]) == Keys(fields)[1..];
      LookupAt(fields[1..], i - 1);
    }
  }

  lemma LookupAfterSet(fields: seq<Field>, key: string, value: Value, other: string)
    requires Distinct(Keys(fields))
    ensures Lookup(SetField(fields, key, value), other) == if other == key then Some(value) else Lookup(fields, other)
  {
    var r := SetField(fields, key, value);
    SetKeepsDistinct(fields, key, value);
    if other in Keys(r) {
      var i :| 0 <= i < |r| && Keys(r)[i] == other;
      LookupAt(r, i);
      if i < |fields| {
        assert Keys(fields)[i] == other;
        LookupAt(fields, i);
      }
    }
  }

  lemma SetKeepsDistinct(fields: seq<Field>, key: string, value: Value)
    requires Distinct(Keys(fields))
    ensures Distinct(Keys(SetField(fields, key, value)))
  {
  }

  /** The fields a list of keys picks out of a map, in that order. */
  function FieldsOf(keys: seq<string>, values: map<string, Value>): (fields: seq<Field>)
    requires forall key :: key in keys ==> key in values
    ensures Keys(fields) == keys
  {
    seq(|keys|, i requires 0 <= i < |keys| => Field(keys[i], values[keys[i]]))
  }

  /** The fields in the order of their keys. */
  function SortFields(fields: seq<Field>): (r: seq<Field>)
    ensures Keys(r) == Sort(Keys(fields))
    ensures forall i :: 0 <= i < |r| ==> Lookup(fields, r[i].key) == Some(r[i].value)
  {
    SameElements(Sort(Keys(fields)), Keys(fields));
    var keys := Sort(Keys(fields));
    seq(|keys|, i requires 0 <= i < |keys| => Field(keys[i], Lookup(fields, keys[i]).value))
  }

  lemma SortedMapIsSortFields(keys: seq<string>, values: map<string, Value>)
    requires Distinct(keys) && forall key :: key in keys ==> key in values
    ensures multiset(Sort(keys)) == multiset(keys) && forall key :: key in Sort(keys) ==> key in values
    ensures FieldsOf(Sort(keys), values) == SortFields(FieldsOf(keys, values))
  {
    var fields := FieldsOf(keys, values);
    SameElements(Sort(keys), keys);
    forall i | 0 <= i < |keys|
      ensures Lookup(fields, keys[i]) == Some(values[keys[i]])
    {
      LookupAt(fields, i);
    }
  }

  /** phpObject: the keys in order and the values by key. */
  class PhpObject {
    var keys: seq<string>
    var values: map<string, Value>

    ghost predicate Valid()
      reads this
    {
      Distinct(keys) && forall key :: key in keys <==> key in values
    }

    function Fields(): (fields: seq<Field>)
      reads this
      requires Valid()
      ensures Keys(fields) == keys
    {
      FieldsOf(keys, values)
    }

    constructor ()
      ensures Valid() && Fields() == []
    {
      keys, values := [], map[];
    }

    method Set(key: string, value: Value)
      requires Valid()
      modifies this
      ensures Valid() && Fields() == SetField(old(Fields()), key, value)
    {
      ghost var before := Fields();
      if key !in values {
        keys := keys + [key];
      }
      values := values[key := value];
      assert Fields() == SetField(before, key, value);
    }

    method SortKeys()
      requires Valid()
      modifies this
      ensures Valid() && Fields() == SortFields(old(Fields()))
    {
      SameElements(Sort(keys), keys);
      SortedMapIsSortFields(keys, values);
      keys := Sort(keys);
    }
  }

  // ---- Encoding ----

  function HexDigit(d: nat): char
    requires d < 16
  {
    "0123456789abcdef"[d]
  }

  /** `%04x` of a 16-bit code unit. */
  function Hex4(n: nat): (s: string)
    requires n < 0x10000
    ensures |s| == 4
  {
    [HexDigit(n / 0x1000), HexDigit(n / 0x100 % 0x10), HexDigit(n / 0x10 % 0x10), HexDigit(n % 0x10)]
  }

  function HighSurrogate(r: nat): (u: nat)
    requires 0x10000 <= r < 0x110000
    ensures 0xD800 <= u < 0xDC00
  {
    0xD800 + (r - 0x10000) / 0x400
  }

  function LowSurrogate(r: nat): (u: nat)
    requires 0x10000 <= r < 0x110000
    ensures 0xDC00 <= u < 0xE000
  {
    0xDC00 + (r - 0x10000) % 0x400
  }

  function EscapeChar(c: char): string {
    var r := c as int;
    if c == '"' then "\\\""
    else if c == '\\' then "\\\\"
    else if c == '/' then "\\/"
    else if r == 8 then "\\b"
    else if r == 12 then "\\f"
    else if c == '\n' then "\\n"
    else if c == '\r' then "\\r"
    else if c == '\t' then "\\t"
    else if r < 0x20 then "\\u" + Hex4(r)
    else if r < 0x80 then [c]
    else if r > 0xFFFF then "\\u" + Hex4(HighSurrogate(r)) + "\\u" + Hex4(LowSurrogate(r))
    else "\\u" + Hex4(r)
  }

  function EscapeAll(text: string): string {
    if text == "" then "" else EscapeChar(text[0]) + EscapeAll(text[1..])
  }

  function EncodeString(text: string): string {
    "\"" + EscapeAll(text) + "\""
  }

  predicate ContainsAny(text: string, chars: string) {
    exists i :: 0 <= i < |text| && text[i] in chars
  }

  function EncodeNumber(literal: string, floats: Floats): string {
    if !ContainsAny(literal, ".eE") then literal
    else match floats(literal)
      case None => literal
      case Some(rendered) => if ContainsAny(rendered, ".eE") then rendered else rendered + ".0"
  }

  function Encode(value: Value, floats: Floats): string
    decreases value, 0
  {
    match value
    case Object(fields) => if fields == [] then "[]" else "{" + EncodeFields(fields, false, floats) + "}"
    case List(items) => "[" + EncodeItems(items, false, floats) + "]"
    case Str(text) => EncodeString(text)
    case Number(literal) => EncodeNumber(literal, floats)
    case Bool(truth) => if truth then "true" else "false"
    case Null => "null"
  }

  function EncodeField(field: Field, comma: bool, floats: Floats): string
    decreases field, 1
  {
    (if comma then "," else "") + EncodeString(field.key) + ":" + Encode(field.value, floats)
  }

  function EncodeFields(fields: seq<Field>, comma: bool, floats: Floats): string
    decreases fields, 2
  {
    if fields == [] then "" else EncodeField(fields[0], comma, floats) + EncodeFields(fields[1..], true, floats)
  }

  function EncodeItem(item: Value, comma: bool, floats: Floats): string
    decreases item, 1
  {
    (if comma then "," else "") + Encode(item, floats)
  }

  function EncodeItems(items: seq<Value>, comma: bool, floats: Floats): string
    decreases items, 2
  {
    if items == [] then "" else EncodeItem(items[0], comma, floats) + EncodeItems(items[1..], true, floats)
  }

  lemma Assoc(a: string, b: string, c: string)
    ensures (a + b) + c == a + (b + c)
  {
  }

  lemma AssocField(a: string, b: string, c: string, d: string)
    ensures a + b + c + ":" + d == a + (b + c + ":" + d)
  {
  }

  /** bytes.Buffer. */
  class Buffer {
    var contents: string

    constructor ()
      ensures contents == ""
    {
      contents := "";
    }

    method Write(s: string)
      modifies this
      ensures contents == old(contents) + s
    {
      contents := contents + s;
    }
  }

  /** `\u%04x` of a 16-bit code unit. */
  method WriteUnit(unit: nat, out: Buffer)
    requires unit < 0x10000
    modifies out
    ensures out.contents == old(out.contents) + ("\\u" + Hex4(unit))
  {
    out.Write("\\u" + Hex4(unit));
  }

  /** The surrogate pair of a character beyond 16 bits. */
  method WritePair(r: nat, out: Buffer)
    requires 0x10000 <= r < 0x110000
    modifies out
    ensures out.contents == old(out.contents) + ("\\u" + Hex4(HighSurrogate(r)) + "\\u" + Hex4(LowSurrogate(r)))
  {
    var offset := r - 0x10000;
    out.Write("\\u" + Hex4(0xD800 + offset / 0x400) + "\\u" + Hex4(0xDC00 + offset % 0x400));
  }

  method WriteChar(c: char, out: Buffer)
    modifies out
    ensures out.contents == old(out.contents) + EscapeChar(c)
  {
    var r := c as int;
    if c == '"' {
      out.Write("\\\"");
    } else if c == '\\' {
      out.Write("\\\\");
    } else if c == '/' {
      out.Write("\\/");
    } else if r == 8 {
      out.Write("\\b");
    } else if r == 12 {
      out.Write("\\f");
    } else if c == '\n' {
      out.Write("\\n");
    } else if c == '\r' {
      out.Write("\\r");
    } else if c == '\t' {
      out.Write("\\t");
    } else if r < 0x20 {
      WriteUnit(r, out);
    } else if r < 0x80 {
      out.Write([c]);
    } else if r > 0xFFFF {
      WritePair(r, out);
    } else {
      WriteUnit(r, out);
    }
  }

  method WriteString(value: string, out: Buffer)
    modifies out
    ensures out.contents == old(out.contents) + EncodeString(value)
  {
    ghost var written := "";
    out.Write("\"");
    for i := 0 to |value|
      invariant out.contents == old(out.contents) + "\"" + written
      invariant written + EscapeAll(value[i..]) == EscapeAll(value)
    {
      WriteChar(value[i], out);
      assert value[i..][1..] == value[i + 1..];
      Assoc(written, EscapeChar(value[i]), EscapeAll(value[i + 1..]));
      Assoc(old(out.contents) + "\"", written, EscapeChar(value[i]));
      written := written + EscapeChar(value[i]);
    }
    assert value[|value|..] == "";
    out.Write("\"");
    Assoc(old(out.contents) + "\"", written, "\"");
    Assoc(old(out.contents), "\"", written + "\"");
  }

  method WriteNumber(literal: string, floats: Floats, out: Buffer)
    modifies out
    ensures out.contents == old(out.contents) + EncodeNumber(literal, floats)
  {
    if !ContainsAny(literal, ".eE") {
      out.Write(literal);
      return;
    }
    var parsed := floats(literal);
    if parsed.None? {
      out.Write(literal);
      return;
    }
    var rendered := parsed.value;
    if !ContainsAny(rendered, ".eE") {
      rendered := rendered + ".0";
    }
    out.Write(rendered);
  }

  /** encodePHPJSON: the buffer grows by exactly the encoding. */
  method WriteValue(value: Value, floats: Floats, out: Buffer)
    modifies out
    ensures out.contents == old(out.contents) + Encode(value, floats)
    decreases value, 0
  {
    match value
    case Object(fields) => WriteObject(fields, floats, out);
    case List(items) =>
      out.Write("[");
      WriteItems(items, floats, out);
      out.Write("]");
      AssocAround(old(out.contents), "[", EncodeItems(items, false, floats), "]");
    case Str(text) => WriteString(text, out);
    case Number(literal) => WriteNumber(literal, floats, out);
    case Bool(truth) => out.Write(if truth then "true" else "false");
    case Null => out.Write("null");
  }

  method WriteObject(fields: seq<Field>, floats: Floats, out: Buffer)
    modifies out
    ensures out.contents == old(out.contents)
        + (if fields == [] then "[]" else "{" + EncodeFields(fields, false, floats) + "}")
    decreases fields, 3
  {
    if |fields| == 0 {
      out.Write("[]");
      return;
    }
    out.Write("{");
    WriteFields(fields, floats, out);
    out.Write("}");
    AssocAround(old(out.contents), "{", EncodeFields(fields, false, floats), "}");
  }

  lemma AssocAround(before: string, open: string, text: string, close: string)
    ensures before + open + text + close == before + (open + text + close)
  {
  }

  method WriteField(field: Field, comma: bool, floats: Floats, out: Buffer)
    modifies out
    ensures out.contents == old(out.contents) + EncodeField(field, comma, floats)
    decreases field, 1
  {
    if comma {
      out.Write(",");
    }
    assert out.contents == old(out.contents) + (if comma then "," else "");
    WriteString(field.key, out);
    out.Write(":");
    WriteValue(field.value, floats, out);
    AssocField(old(out.contents), if comma then "," else "", EncodeString(field.key), Encode(field.value, floats));
  }

  method WriteFields(fields: seq<Field>, floats: Floats, out: Buffer)
    modifies out
    ensures out.contents == old(out.contents) + EncodeFields(fields, false, floats)
    decreases fields, 2
  {
    ghost var written := "";
    for index := 0 to |fields|
      invariant out.contents == old(out.contents) + written
      invariant written + EncodeFields(fields[index..], index > 0, floats) == EncodeFields(fields, false, floats)
    {
      ghost var piece := EncodeField(fields[index], index > 0, floats);
      WriteField(fields[index], index > 0, floats, out);
      assert fields[index..][1..] == fields[index + 1..];
      Assoc(written, piece, EncodeFields(fields[index + 1..], true, floats));
      Assoc(old(out.contents), written, piece);
      written := written + piece;
    }
    assert fields[|fields|..] == [];
  }

  method WriteItem(item: Value, comma: bool, floats: Floats, out: Buffer)
    modifies out
    ensures out.contents == old(out.contents) + EncodeItem(item, comma, floats)
    decreases item, 1
  {
    if comma {
      out.Write(",");
    }
    WriteValue(item, floats, out);
  }

  method WriteItems(items: seq<Value>, floats: Floats, out: Buffer)
    modifies out
    ensures out.contents == old(out.contents) + EncodeItems(items, false, floats)
    decreases items, 2
  {
    ghost var written := "";
    for index := 0 to |items|
      invariant out.contents == old(out.contents) + written
      invariant written + EncodeItems(items[index..], index > 0, floats) == EncodeItems(items, false, floats)
    {
      ghost var piece := EncodeItem(items[index], index > 0, floats);
      WriteItem(items[index], index > 0, floats, out);
      assert items[index..][1..] == items[index + 1..];
      Assoc(written, piece, EncodeItems(items[index + 1..], true, floats));
      Assoc(old(out.contents), written, piece);
      written := written + piece;
    }
    assert items[|items|..] == [];
  }
}
