/**
 `json.dumps(obj, sort_keys=True, ...)` as the repository calls it, and a decoder for
 the text it writes. Strings are escaped as in section 7 of RFC 8259, with every
 character outside the printable ASCII range written as one or two `\uXXXX` escapes.
 */
module Json {
  import opened Text
  import opened Sorting

  datatype Value =
    | Null
    | Bool(b: bool)
    | Int(n: int)
    | Str(s: string)
    | Arr(items: seq<Value>)
    | Obj(fields: seq<Field>)

  /** One entry of a dict; a dict lists its entries in insertion order. */
  datatype Field = Field(key: string, value: Value)

  /** The two separator pairs in use: `(",", ":")` and the default `(", ", ": ")`. */
  datatype Separators = Compact | Spaced

  // ---------------------------------------------------------------- key order

  predicate KeyLe(a: Field, b: Field)
  {
    StrLe(a.key, b.key)
  }

  lemma KeyLeTotal()
    ensures TotalPreorder(KeyLe)
  {
    forall x: Field, y: Field
      ensures KeyLe(x, y) || KeyLe(y, x)
    {
      StrLtTrichotomy(x.key, y.key);
    }
    forall x: Field, y: Field, z: Field | KeyLe(x, y) && KeyLe(y, z)
      ensures KeyLe(x, z)
    {
      StrLeTransitive(x.key, y.key, z.key);
    }
  }

  /** The value with every dict, at every depth, listed in key order. */
  function Normal(v: Value): Value
    decreases v, 1
  {
    match v
    case Arr(items) => Arr(NormalItems(items))
    case Obj(fields) => Obj(Sort(NormalFields(fields), KeyLe))
    case _ => v
  }

  function NormalItems(items: seq<Value>): (r: seq<Value>)
    ensures |r| == |items|
    decreases items, 0
  {
    if items == [] then [] else [Normal(items[0])] + NormalItems(items[1..])
  }

  function NormalFields(fields: seq<Field>): (r: seq<Field>)
    ensures |r| == |fields|
    decreases fields, 0
  {
    if fields == [] then []
    else [Field(fields[0].key, Normal(fields[0].value))] + NormalFields(fields[1..])
  }

  // ------------------------------------------------------------------ printing

  function HexChar(d: nat): (c: char)
    requires d < 16
    ensures IsHexDigit(c) && HexVal(c) == d
  {
    if d < 10 then ('0' as int + d) as char else ('a' as int + (d - 10)) as char
  }

  function HexVal(c: char): (d: nat)
    requires IsHexDigit(c)
    ensures d < 16
  {
    if c <= '9' then c as int - '0' as int else c as int - 'a' as int + 10
  }

  function Hex4(n: nat): (s: string)
    requires n < 0x10000
    ensures |s| == 4
  {
    [HexChar(n / 4096), HexChar(n / 256 % 16), HexChar(n / 16 % 16), HexChar(n % 16)]
  }

  function Escape(c: char): (s: string)
    ensures s != ""
  {
    if c == '\"' then "\\\""
    else if c == '\\' then "\\\\"
    else if c == '\n' then "\\n"
    else if c == '\r' then "\\r"
    else if c == '\t' then "\\t"
    else if c == '\U{0008}' then "\\b"
    else if c == '\U{000C}' then "\\f"
    else if ' ' <= c <= '~' then [c]
    else
      var n := c as int;
      if n < 0x10000 then "\\u" + Hex4(n)
      else
        "\\u" + Hex4(0xD800 + (n - 0x10000) / 0x400) +
        "\\u" + Hex4(0xDC00 + (n - 0x10000) % 0x400)
  }

  function EscapeAll(s: string): string
  {
    if s == "" then "" else Escape(s[0]) + EscapeAll(s[1..])
  }

  function Quote(s: string): string
  {
    "\"" + EscapeAll(s) + "\""
  }

  function ItemSep(sp: Separators): string
  {
    if sp.Compact? then "," else ", "
  }

  function KeySep(sp: Separators): string
  {
    if sp.Compact? then ":" else ": "
  }

  /** The text of a value, dicts in the order they are listed. */
  function Print(v: Value, sp: Separators): (s: string)
    decreases v, 1
  {
    match v
    case Null => "null"
    case Bool(b) => if b then "true" else "false"
    case Int(n) => Dec(n)
    case Str(s) => Quote(s)
    case Arr(items) => if items == [] then "[]" else "[" + PrintItems(items, sp)
    case Obj(fields) => if fields == [] then "{}" else "{" + PrintFields(fields, sp)
  }

  function PrintItems(items: seq<Value>, sp: Separators): string
    requires items != []
    decreases items, 0
  {
    Print(items[0], sp) +
    if |items| == 1 then "]" else ItemSep(sp) + PrintItems(items[1..], sp)
  }

  function PrintFields(fields: seq<Field>, sp: Separators): string
    requires fields != []
    decreases fields, 0
  {
    Quote(fields[0].key) + KeySep(sp) + Print(fields[0].value, sp) +
    if |fields| == 1 then "}" else ItemSep(sp) + PrintFields(fields[1..], sp)
  }

  /** `json.dumps(v, sort_keys=True, separators=sp)`. */
  function Dumps(v: Value, sp: Separators): string
  {
    Print(Normal(v), sp)
  }

  /** `canonical_json_bytes`; the text is ASCII, so its UTF-8 bytes are its characters. */
  function Canonical(v: Value): string
  {
    Dumps(v, Compact)
  }

  // ------------------------------------------------------------------ decoding

  datatype Parsed<T> = Fail | Ok(value: T, rest: string)

  predicate IsSpace(c: char)
  {
    c == ' ' || c == '\t' || c == '\n' || c == '\r'
  }

  function SkipSpace(s: string): (r: string)
    ensures |r| <= |s|
  {
    if s != "" && IsSpace(s[0]) then SkipSpace(s[1..]) else s
  }

  function ParseHex4(s: string): (r: Parsed<nat>)
    ensures r.Ok? ==> |s| >= 4 && r.rest == s[4..] && r.value < 0x10000
  {
    if |s| < 4 || exists i :: 0 <= i < 4 && !IsHexDigit(s[i]) then Fail
    else Ok(HexVal(s[0]) * 4096 + HexVal(s[1]) * 256 + HexVal(s[2]) * 16 + HexVal(s[3]), s[4..])
  }

  /** What follows `\u`: one escape, or the two of a surrogate pair. */
  function ParseUnicode(s: string): (r: Parsed<char>)
    ensures r.Ok? ==> |r.rest| < |s|
  {
    match ParseHex4(s)
    case Fail => Fail
    case Ok(n, rest) =>
      if n < 0xD800 || n >= 0xE000 then Ok(n as char, rest)
      else if n >= 0xDC00 || |rest| < 2 || rest[0] != '\\' || rest[1] != 'u' then Fail
      else
        match ParseHex4(rest[2..])
        case Fail => Fail
        case Ok(m, rest') =>
          if 0xDC00 <= m < 0xE000
          then Ok((0x10000 + (n - 0xD800) * 0x400 + (m - 0xDC00)) as char, rest')
          else Fail
  }

  function ParseChar(s: string): (r: Parsed<char>)
    ensures r.Ok? ==> |r.rest| < |s|
  {
    if s == "" || s[0] < ' ' || s[0] == '\"' then Fail
    else if s[0] != '\\' then Ok(s[0], s[1..])
    else if |s| == 1 then Fail
    else if s[1] == '\"' || s[1] == '\\' || s[1] == '/' then Ok(s[1], s[2..])
    else if s[1] == 'n' then Ok('\n', s[2..])
    else if s[1] == 'r' then Ok('\r', s[2..])
    else if s[1] == 't' then Ok('\t', s[2..])
    else if s[1] == 'b' then Ok('\U{0008}', s[2..])
    else if s[1] == 'f' then Ok('\U{000C}', s[2..])
    else if s[1] == 'u' then ParseUnicode(s[2..])
    else Fail
  }

  /** The characters up to the closing quote. */
  function ParseChars(s: string): (r: Parsed<string>)
    ensures r.Ok? ==> |r.rest| < |s|
    decreases |s|
  {
    if s != "" && s[0] == '\"' then Ok("", s[1..])
    else
      match ParseChar(s)
      case Fail => Fail
      case Ok(c, rest) =>
        match ParseChars(rest)
        case Fail => Fail
        case Ok(cs, rest') => Ok([c] + cs, rest')
  }

  function ParseInt(s: string): (r: Parsed<int>)
    ensures r.Ok? ==> |r.rest| < |s|
  {
    var neg := s != "" && s[0] == '-';
    var t := if neg then s[1..] else s;
    var k := DigitSpan(t);
    if k == 0 then Fail
    else
      var n: int := NatVal(t[..k]);
      Ok(if neg then -n else n, t[k..])
  }

  function ParseValue(s0: string): (r: Parsed<Value>)
    ensures r.Ok? ==> |r.rest| < |s0|
    decreases |s0|, 1
  {
    var s := SkipSpace(s0);
    if s == "" then Fail
    else if s[0] == 'n' then if "null" <= s then Ok(Null, s[4..]) else Fail
    else if s[0] == 't' then if "true" <= s then Ok(Bool(true), s[4..]) else Fail
    else if s[0] == 'f' then if "false" <= s then Ok(Bool(false), s[5..]) else Fail
    else if s[0] == '\"' then
      match ParseChars(s[1..])
      case Fail => Fail
      case Ok(t, rest) => Ok(Str(t), rest)
    else if s[0] == '[' then
      var t := SkipSpace(s[1..]);
      if t != "" && t[0] == ']' then Ok(Arr([]), t[1..])
      else
        match ParseItems(s[1..])
        case Fail => Fail
        case Ok(items, rest) => Ok(Arr(items), rest)
    else if s[0] == '{' then
      var t := SkipSpace(s[1..]);
      if t != "" && t[0] == '}' then Ok(Obj([]), t[1..])
      else
        match ParseFields(s[1..])
        case Fail => Fail
        case Ok(fields, rest) => Ok(Obj(fields), rest)
    else
      match ParseInt(s)
      case Fail => Fail
      case Ok(n, rest) => Ok(Int(n), rest)
  }

  /** A non-empty list of items up to and including the closing bracket. */
  function ParseItems(s: string): (r: Parsed<seq<Value>>)
    ensures r.Ok? ==> |r.rest| < |s|
    decreases |s|, 2
  {
    match ParseValue(s)
    case Fail => Fail
    case Ok(v, rest) =>
      var t := SkipSpace(rest);
      if t == "" then Fail
      else if t[0] == ']' then Ok([v], t[1..])
      else if t[0] != ',' then Fail
      else
        match ParseItems(t[1..])
        case Fail => Fail
        case Ok(vs, rest') => Ok([v] + vs, rest')
  }

  function ParseField(s0: string): (r: Parsed<Field>)
    ensures r.Ok? ==> |r.rest| < |s0|
    decreases |s0|, 2
  {
    var s := SkipSpace(s0);
    if s == "" || s[0] != '\"' then Fail
    else
      match ParseChars(s[1..])
      case Fail => Fail
      case Ok(key, rest) =>
        var t := SkipSpace(rest);
        if t == "" || t[0] != ':' then Fail
        else
          match ParseValue(t[1..])
          case Fail => Fail
          case Ok(v, rest') => Ok(Field(key, v), rest')
  }

  /** A non-empty list of fields up to and including the closing brace. */
  function ParseFields(s: string): (r: Parsed<seq<Field>>)
    ensures r.Ok? ==> |r.rest| < |s|
    decreases |s|, 3
  {
    match ParseField(s)
    case Fail => Fail
    case Ok(f, rest) =>
      var t := SkipSpace(rest);
      if t == "" then Fail
      else if t[0] == '}' then Ok([f], t[1..])
      else if t[0] != ',' then Fail
      else
        match ParseFields(t[1..])
        case Fail => Fail
        case Ok(fs, rest') => Ok([f] + fs, rest')
  }

  /** Decode a whole text. */
  function Loads(s: string): Parsed<Value>
  {
    match ParseValue(s)
    case Fail => Fail
    case Ok(v, rest) => if SkipSpace(rest) == "" then Ok(v, "") else Fail
  }
}
