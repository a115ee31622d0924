/**
 The decoder of module Json inverts the printer, so canonical text determines the
 value up to the order of dict entries, and nothing else.
 */
module JsonRoundTrip {
  import opened Text
  import opened Json

  /** Text after which a number ends. */
  predicate NoDigitFirst(rest: string)
  {
    rest == "" || !IsDigit(rest[0])
  }

  // ----------------------------------------------------------------- characters

  lemma Hex4Parses(n: nat, rest: string)
    requires n < 0x10000
    ensures ParseHex4(Hex4(n) + rest) == Ok(n, rest)
  {
    var s := Hex4(n) + rest;
    assert s[..4] == Hex4(n) && s[4..] == rest;
    assert forall i :: 0 <= i < 4 ==> s[i] == Hex4(n)[i];
    assert s[0] == HexChar(n / 4096) && s[1] == HexChar(n / 256 % 16);
    assert s[2] == HexChar(n / 16 % 16) && s[3] == HexChar(n % 16);
    Base16(n);
  }

  lemma Base16(n: nat)
    requires n < 0x10000
    ensures n == n / 4096 * 4096 + n / 256 % 16 * 256 + n / 16 % 16 * 16 + n % 16
  {
    assert n / 256 == n / 4096 * 16 + n / 256 % 16;
    assert n / 16 == n / 256 * 16 + n / 16 % 16;
  }

  lemma UnicodeParses(n: nat, rest: string)
    requires 0x10000 <= n < 0x110000
    ensures ParseUnicode(Hex4(0xD800 + (n - 0x10000) / 0x400) + ("\\u" + (Hex4(0xDC00 + (n - 0x10000) % 0x400) + rest)))
         == Ok(n as char, rest)
  {
    var hi, lo := 0xD800 + (n - 0x10000) / 0x400, 0xDC00 + (n - 0x10000) % 0x400;
    var tail := "\\u" + (Hex4(lo) + rest);
    Hex4Parses(hi, tail);
    Hex4Parses(lo, rest);
    assert tail[2..] == Hex4(lo) + rest;
    assert tail[0] == '\\' && tail[1] == 'u';
  }

  /** A plain or two-character escape. */
  lemma ShortCharParses(c: char, rest: string)
    requires |Escape(c)| <= 2
    ensures ParseChar(Escape(c) + rest) == Ok(c, rest)
  {
    hide Hex4, ParseUnicode;
    var s := Escape(c) + rest;
    if |Escape(c)| == 1 {
      assert s[1..] == rest;
    } else {
      assert s[0] == '\\' && s[1] == Escape(c)[1];
      assert s[2..] == rest;
    }
  }

  lemma LongCharParses(c: char, rest: string)
    requires |Escape(c)| > 2
    ensures ParseChar(Escape(c) + rest) == Ok(c, rest)
  {
    hide Hex4, ParseUnicode, ParseHex4;
    var n := c as int;
    var s := Escape(c) + rest;
    assert s[0] == '\\' && s[1] == 'u';
    if n < 0x10000 {
      assert s[2..] == Hex4(n) + rest;
      BasicParses(n, rest);
    } else {
      UnicodeParses(n, rest);
      var hi, lo := Hex4(0xD800 + (n - 0x10000) / 0x400), Hex4(0xDC00 + (n - 0x10000) % 0x400);
      assert s[2..] == hi + ("\\u" + (lo + rest));
    }
  }

  lemma BasicParses(n: nat, rest: string)
    requires n < 0xD800 || 0xE000 <= n < 0x10000
    ensures ParseUnicode(Hex4(n) + rest) == Ok(n as char, rest)
  {
    hide Hex4, ParseHex4;
    Hex4Parses(n, rest);
  }

  lemma CharParses(c: char, rest: string)
    ensures ParseChar(Escape(c) + rest) == Ok(c, rest)
  {
    hide Escape, ParseChar;
    if |Escape(c)| <= 2 {
      ShortCharParses(c, rest);
    } else {
      LongCharParses(c, rest);
    }
  }

  lemma EscapeNotQuote(c: char)
    ensures Escape(c)[0] != '\"'
  {
  }

  lemma {:induction false} CharsParse(t: string, rest: string)
    ensures ParseChars(EscapeAll(t) + "\"" + rest) == Ok(t, rest)
  {
    var s := EscapeAll(t) + "\"" + rest;
    if t == "" {
      assert s == "\"" + rest;
      assert s[1..] == rest;
    } else {
      var tail := EscapeAll(t[1..]) + "\"" + rest;
      assert s == Escape(t[0]) + tail;
      EscapeNotQuote(t[0]);
      assert s[0] == Escape(t[0])[0];
      CharParses(t[0], tail);
      CharsParse(t[1..], rest);
      assert t == [t[0]] + t[1..];
    }
  }

  lemma QuoteParses(t: string, rest: string)
    ensures Quote(t) + rest != "" && (Quote(t) + rest)[0] == '\"'
    ensures ParseChars((Quote(t) + rest)[1..]) == Ok(t, rest)
  {
    hide ParseChars, EscapeAll;
    CharsParse(t, rest);
    assert (Quote(t) + rest)[1..] == EscapeAll(t) + "\"" + rest;
  }

  // -------------------------------------------------------------------- numbers

  lemma {:induction false} DigitSpanExact(d: string, rest: string)
    requires forall i :: 0 <= i < |d| ==> IsDigit(d[i])
    requires NoDigitFirst(rest)
    ensures DigitSpan(d + rest) == |d|
  {
    if d == "" {
      assert d + rest == rest;
    } else {
      assert (d + rest)[1..] == d[1..] + rest;
      DigitSpanExact(d[1..], rest);
    }
  }

  lemma DigitsRead(d: string, rest: string)
    requires (forall i :: 0 <= i < |d| ==> IsDigit(d[i])) && NoDigitFirst(rest)
    ensures DigitSpan(d + rest) == |d| && (d + rest)[..|d|] == d && (d + rest)[|d|..] == rest
  {
    hide DigitSpan;
    DigitSpanExact(d, rest);
  }

  lemma NatParses(n: int, rest: string)
    requires n >= 0 && NoDigitFirst(rest)
    ensures ParseInt(DecNat(n) + rest) == Ok(n, rest)
    ensures ParseInt("-" + DecNat(n) + rest) == Ok(-n, rest)
  {
    hide DigitSpan, NatVal, DecNat;
    var d := DecNat(n);
    NatValDec(n);
    DigitsRead(d, rest);
    assert IsDigit(d[0]) && (d + rest)[0] == d[0];
    assert ("-" + d + rest)[1..] == d + rest;
  }

  lemma IntParses(n: int, rest: string)
    requires NoDigitFirst(rest)
    ensures ParseInt(Dec(n) + rest) == Ok(n, rest)
  {
    hide ParseInt, DecNat;
    NatParses(if n < 0 then -n else n, rest);
  }

  // --------------------------------------------------------------------- values

  /** A printed value starts with neither white space nor a closing bracket. */
  lemma PrintStart(v: Value, sp: Separators)
    ensures Print(v, sp) != ""
    ensures !IsSpace(Print(v, sp)[0]) && Print(v, sp)[0] != ']' && Print(v, sp)[0] != '}'
  {
    match v {
      case Int(n) =>
        if n >= 0 {
          assert IsDigit(DecNat(n)[0]);
        }
      case _ =>
    }
  }

  lemma SkipsNothing(s: string)
    requires s != "" && !IsSpace(s[0])
    ensures SkipSpace(s) == s
  {
  }

  lemma SkipsOne(s: string)
    requires s != "" && !IsSpace(s[0])
    ensures SkipSpace(" " + s) == s
  {
    assert (" " + s)[1..] == s;
  }

  lemma LiteralParses(v: Value, sp: Separators, rest: string)
    requires v.Null? || v.Bool?
    ensures ParseValue(Print(v, sp) + rest) == Ok(v, rest)
  {
    hide ParseFields, ParseItems, ParseChars, ParseInt;
    var s := Print(v, sp) + rest;
    SkipsNothing(s);
    if v.Bool? && !v.b {
      assert s[..5] == "false" && s[5..] == rest;
    } else {
      assert s[..4] == Print(v, sp) && s[4..] == rest;
    }
  }

  lemma NumberParses(n: int, sp: Separators, rest: string)
    requires NoDigitFirst(rest)
    ensures ParseValue(Print(Int(n), sp) + rest) == Ok(Int(n), rest)
  {
    hide ParseFields, ParseItems, ParseChars, ParseInt;
    PrintStart(Int(n), sp);
    var s := Dec(n) + rest;
    SkipsNothing(s);
    IntParses(n, rest);
    assert s[0] == '-' || IsDigit(s[0]) by {
      if n >= 0 {
        assert IsDigit(DecNat(n)[0]);
      }
    }
  }

  lemma TextParses(t: string, sp: Separators, rest: string)
    ensures ParseValue(Print(Str(t), sp) + rest) == Ok(Str(t), rest)
  {
    hide ParseFields, ParseItems, ParseChars, ParseInt, Quote;
    QuoteParses(t, rest);
    SkipsNothing(Quote(t) + rest);
  }

  lemma {:induction false} ValueParses(v: Value, sp: Separators, rest: string)
    requires NoDigitFirst(rest)
    ensures ParseValue(Print(v, sp) + rest) == Ok(v, rest)
    decreases v, 2
  {
    hide ParseValue, Print;
    match v {
      case Null => LiteralParses(v, sp, rest);
      case Bool(_) => LiteralParses(v, sp, rest);
      case Int(n) => NumberParses(n, sp, rest);
      case Str(t) => TextParses(t, sp, rest);
      case Arr(items) => ArrParses(items, sp, rest);
      case Obj(fields) => ObjParses(fields, sp, rest);
    }
  }

  lemma ReadArr(body: string, items: seq<Value>, rest: string)
    requires body != "" && !IsSpace(body[0]) && body[0] != ']' && ParseItems(body) == Ok(items, rest)
    ensures ParseValue("[" + body) == Ok(Arr(items), rest)
  {
    hide ParseFields, ParseItems, ParseChars, ParseInt;
    var s := "[" + body;
    SkipsNothing(s);
    assert s[1..] == body;
    SkipsNothing(body);
  }

  lemma {:induction false} ArrParses(items: seq<Value>, sp: Separators, rest: string)
    ensures ParseValue(Print(Arr(items), sp) + rest) == Ok(Arr(items), rest)
    decreases items, 1
  {
    hide ParseValue, ParseItems, PrintItems;
    if items == [] {
      ReadEmpty(rest);
    } else {
      ItemsText(items, sp, rest);
      PrintStart(items[0], sp);
      ItemsParse(items, sp, rest);
      ReadArr(PrintItems(items, sp) + rest, items, rest);
      Bracketed("[", PrintItems(items, sp), rest);
    }
  }

  lemma Bracketed(a: string, b: string, c: string)
    ensures (a + b) + c == a + (b + c)
  {
  }

  function ItemsTail(items: seq<Value>, sp: Separators, rest: string): string
    requires items != []
  {
    if |items| == 1 then "]" + rest else ItemSep(sp) + (PrintItems(items[1..], sp) + rest)
  }

  /** The text of an item list, bracketed the way it is read. */
  lemma ItemsText(items: seq<Value>, sp: Separators, rest: string)
    requires items != []
    ensures PrintItems(items, sp) + rest == Print(items[0], sp) + ItemsTail(items, sp, rest)
  {
  }

  lemma LastItem(s: string, v: Value, rest: string)
    requires ParseValue(s) == Ok(v, "]" + rest)
    ensures ParseItems(s) == Ok([v], rest)
  {
    hide ParseValue;
    SkipsNothing("]" + rest);
    assert ("]" + rest)[1..] == rest;
  }

  lemma NextItem(s: string, v: Value, tail: string, vs: seq<Value>, rest: string)
    requires tail != "" && tail[0] == ','
    requires ParseValue(s) == Ok(v, tail) && ParseItems(tail[1..]) == Ok(vs, rest)
    ensures ParseItems(s) == Ok([v] + vs, rest)
  {
    hide ParseValue;
    SkipsNothing(tail);
  }

  lemma {:induction false} ItemsParse(items: seq<Value>, sp: Separators, rest: string)
    requires items != []
    ensures ParseItems(PrintItems(items, sp) + rest) == Ok(items, rest)
    decreases items, 0
  {
    hide ParseValue, ParseItems, PrintItems, Print, SkipSpace;
    var s := PrintItems(items, sp) + rest;
    var tail := ItemsTail(items, sp, rest);
    ItemsText(items, sp, rest);
    ValueParses(items[0], sp, tail);
    if |items| == 1 {
      LastItem(s, items[0], rest);
      assert items == [items[0]];
    } else {
      ItemsParse(items[1..], sp, rest);
      ItemsText(items[1..], sp, rest);
      PrintStart(items[1], sp);
      SkippedItems(PrintItems(items[1..], sp) + rest, sp);
      NextItem(s, items[0], tail, items[1..], rest);
      assert items == [items[0]] + items[1..];
    }
  }

  /** Reading after a separator is reading what the separator separates. */
  lemma SkippedItems(tail: string, sp: Separators)
    requires tail != "" && !IsSpace(tail[0])
    ensures (ItemSep(sp) + tail)[0] == ','
    ensures ParseItems((ItemSep(sp) + tail)[1..]) == ParseItems(tail)
    ensures ParseFields((ItemSep(sp) + tail)[1..]) == ParseFields(tail)
  {
    if sp.Compact? {
      assert (ItemSep(sp) + tail)[1..] == tail;
    } else {
      assert (ItemSep(sp) + tail)[1..] == " " + tail;
      SpaceBefore(tail);
    }
  }

  /** One leading space changes nothing that is read. */
  lemma SpaceBefore(tail: string)
    requires tail != "" && !IsSpace(tail[0])
    ensures ParseValue(" " + tail) == ParseValue(tail)
    ensures ParseItems(" " + tail) == ParseItems(tail)
    ensures ParseFields(" " + tail) == ParseFields(tail)
  {
    SkipsNothing(tail);
    SkipsOne(tail);
    assert ParseValue(" " + tail) == ParseValue(tail) by {
      hide ParseItems, ParseFields, ParseChars, ParseInt;
    }
    assert ParseItems(" " + tail) == ParseItems(tail) by {
      hide ParseValue, ParseFields, SkipSpace;
    }
    assert ParseField(" " + tail) == ParseField(tail) by {
      hide ParseValue, ParseItems, ParseFields, ParseChars;
    }
    assert ParseFields(" " + tail) == ParseFields(tail) by {
      hide ParseValue, ParseField, ParseItems, SkipSpace;
    }
  }

  lemma SkippedValue(tail: string, sp: Separators)
    requires tail != "" && !IsSpace(tail[0])
    ensures (KeySep(sp) + tail)[0] == ':'
    ensures ParseValue((KeySep(sp) + tail)[1..]) == ParseValue(tail)
  {
    hide ParseValue;
    if sp.Compact? {
      assert (KeySep(sp) + tail)[1..] == tail;
    } else {
      assert (KeySep(sp) + tail)[1..] == " " + tail;
      SpaceBefore(tail);
    }
  }

  lemma ReadObj(body: string, fields: seq<Field>, rest: string)
    requires body != "" && body[0] == '\"' && ParseFields(body) == Ok(fields, rest)
    ensures ParseValue("{" + body) == Ok(Obj(fields), rest)
  {
    hide ParseFields, ParseItems, ParseChars, ParseInt;
    var s := "{" + body;
    SkipsNothing(s);
    assert s[1..] == body;
    SkipsNothing(body);
  }

  lemma ReadEmpty(rest: string)
    ensures ParseValue("{}" + rest) == Ok(Obj([]), rest)
    ensures ParseValue("[]" + rest) == Ok(Arr([]), rest)
  {
    hide ParseFields, ParseItems, ParseChars, ParseInt;
    SkipsNothing("{}" + rest);
    SkipsNothing("[]" + rest);
    assert ("{}" + rest)[1..] == "}" + rest && ("}" + rest)[1..] == rest;
    assert ("[]" + rest)[1..] == "]" + rest && ("]" + rest)[1..] == rest;
    SkipsNothing("}" + rest);
    SkipsNothing("]" + rest);
  }

  lemma {:induction false} ObjParses(fields: seq<Field>, sp: Separators, rest: string)
    ensures ParseValue(Print(Obj(fields), sp) + rest) == Ok(Obj(fields), rest)
    decreases fields, 3
  {
    hide ParseValue, ParseFields, PrintFields;
    if fields == [] {
      ReadEmpty(rest);
    } else {
      FieldsStart(fields, sp, rest);
      FieldsParse(fields, sp, rest);
      ReadObj(PrintFields(fields, sp) + rest, fields, rest);
      assert Print(Obj(fields), sp) + rest == "{" + (PrintFields(fields, sp) + rest);
    }
  }

  lemma {:induction false} FieldParses(f: Field, sp: Separators, rest: string)
    requires NoDigitFirst(rest)
    ensures ParseField(Quote(f.key) + (KeySep(sp) + (Print(f.value, sp) + rest))) == Ok(f, rest)
    decreases f, 3
  {
    var tail := Print(f.value, sp) + rest;
    var s := Quote(f.key) + (KeySep(sp) + tail);
    SkipsNothing(s);
    QuoteParses(f.key, KeySep(sp) + tail);
    SkipsNothing(KeySep(sp) + tail);
    PrintStart(f.value, sp);
    SkippedValue(tail, sp);
    ValueParses(f.value, sp, rest);
  }

  /** The text of a field list, bracketed the way it is read. */
  lemma FieldsText(fields: seq<Field>, sp: Separators, rest: string)
    requires fields != []
    ensures PrintFields(fields, sp) + rest ==
            Quote(fields[0].key) + (KeySep(sp) + (Print(fields[0].value, sp) + FieldsTail(fields, sp, rest)))
  {
    hide Quote, KeySep, ItemSep, Print, PrintFields, FieldsTail, FieldsRest;
    FieldsUnfold(fields, sp);
    Regrouped(Quote(fields[0].key), KeySep(sp), Print(fields[0].value, sp), FieldsRest(fields, sp), rest);
    FieldsRestIs(fields, sp, rest);
  }

  /** What follows the first field. */
  function FieldsRest(fields: seq<Field>, sp: Separators): string
    requires fields != []
  {
    if |fields| == 1 then "}" else ItemSep(sp) + PrintFields(fields[1..], sp)
  }

  lemma FieldsUnfold(fields: seq<Field>, sp: Separators)
    requires fields != []
    ensures PrintFields(fields, sp) ==
            Quote(fields[0].key) + KeySep(sp) + Print(fields[0].value, sp) + FieldsRest(fields, sp)
  {
    hide Quote, KeySep, ItemSep, Print;
  }

  lemma FieldsRestIs(fields: seq<Field>, sp: Separators, rest: string)
    requires fields != []
    ensures FieldsRest(fields, sp) + rest == FieldsTail(fields, sp, rest)
  {
    hide PrintFields, ItemSep;
    if |fields| > 1 {
      Bracketed(ItemSep(sp), PrintFields(fields[1..], sp), rest);
    }
  }

  lemma Regrouped(a: string, b: string, c: string, d: string, e: string)
    ensures (a + b + c + d) + e == a + (b + (c + (d + e)))
  {
  }

  function FieldsTail(fields: seq<Field>, sp: Separators, rest: string): string
    requires fields != []
  {
    if |fields| == 1 then "}" + rest else ItemSep(sp) + (PrintFields(fields[1..], sp) + rest)
  }

  lemma FieldsStart(fields: seq<Field>, sp: Separators, rest: string)
    requires fields != []
    ensures PrintFields(fields, sp) + rest != "" && (PrintFields(fields, sp) + rest)[0] == '\"'
  {
    FieldsText(fields, sp, rest);
  }

  lemma LastField(s: string, f: Field, rest: string)
    requires ParseField(s) == Ok(f, "}" + rest)
    ensures ParseFields(s) == Ok([f], rest)
  {
    SkipsNothing("}" + rest);
    assert ("}" + rest)[1..] == rest;
  }

  lemma NextField(s: string, f: Field, tail: string, fs: seq<Field>, rest: string)
    requires tail != "" && tail[0] == ','
    requires ParseField(s) == Ok(f, tail) && ParseFields(tail[1..]) == Ok(fs, rest)
    ensures ParseFields(s) == Ok([f] + fs, rest)
  {
    SkipsNothing(tail);
  }

  lemma {:induction false} FieldsParse(fields: seq<Field>, sp: Separators, rest: string)
    requires fields != []
    ensures ParseFields(PrintFields(fields, sp) + rest) == Ok(fields, rest)
    decreases fields, 2
  {
    hide ParseFields, ParseField, ParseValue, PrintFields, Print, Quote, SkipSpace;
    var s := PrintFields(fields, sp) + rest;
    var tail := FieldsTail(fields, sp, rest);
    FieldsText(fields, sp, rest);
    FieldParses(fields[0], sp, tail);
    if |fields| == 1 {
      LastField(s, fields[0], rest);
      assert fields == [fields[0]];
    } else {
      FieldsParse(fields[1..], sp, rest);
      FieldsStart(fields[1..], sp, rest);
      SkippedItems(PrintFields(fields[1..], sp) + rest, sp);
      NextField(s, fields[0], tail, fields[1..], rest);
      assert fields == [fields[0]] + fields[1..];
    }
  }

  /** Decoding what `json.dumps(v, sort_keys=True)` wrote gives `v` in key order. */
  lemma LoadsInvertsDumps(v: Value, sp: Separators)
    ensures Loads(Dumps(v, sp)) == Ok(Normal(v), "")
  {
    ValueParses(Normal(v), sp, "");
    assert Dumps(v, sp) + "" == Dumps(v, sp);
  }

  /** Canonical text determines the value exactly up to dict order. */
  lemma CanonicalDetermines(v: Value, w: Value)
    ensures Canonical(v) == Canonical(w) <==> Normal(v) == Normal(w)
  {
    LoadsInvertsDumps(v, Compact);
    LoadsInvertsDumps(w, Compact);
  }
}
