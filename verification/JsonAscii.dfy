/**
 What `json.dumps` writes, character by character: printable ASCII only, with the
 separators of the two pairs.
 */
module JsonAscii {
  import opened Text
  import opened Json

  /** Only the printable ASCII characters. */
  ghost predicate Printable(s: string)
  {
    forall i :: 0 <= i < |s| ==> ' ' <= s[i] <= '~'
  }

  lemma PrintableConcat(a: string, b: string)
    ensures Printable(a + b) <==> Printable(a) && Printable(b)
  {
    if Printable(a + b) {
      assert forall i :: 0 <= i < |a| ==> (a + b)[i] == a[i];
      assert forall i :: 0 <= i < |b| ==> (a + b)[|a| + i] == b[i];
    }
  }

  lemma EscapePrintable(c: char)
    ensures Printable(Escape(c))
  {
  }

  lemma {:induction false} EscapeAllPrintable(s: string)
    ensures Printable(EscapeAll(s))
  {
    hide Escape, Printable;
    if s == "" {
      NothingPrintable();
    } else {
      EscapePrintable(s[0]);
      EscapeAllPrintable(s[1..]);
      PrintableConcat(Escape(s[0]), EscapeAll(s[1..]));
    }
  }

  lemma NothingPrintable()
    ensures Printable("")
  {
  }

  lemma QuotePrintable(s: string)
    ensures Printable(Quote(s))
  {
    hide EscapeAll;
    EscapeAllPrintable(s);
  }

  lemma DecPrintable(n: int)
    ensures Printable(Dec(n))
  {
    hide DecNat;
    var s := DecNat(if n < 0 then -n else n);
    assert forall i :: 0 <= i < |s| ==> IsDigit(s[i]);
  }

  lemma PunctuationPrintable(sp: Separators)
    ensures Printable(ItemSep(sp)) && Printable(KeySep(sp))
    ensures Printable("[") && Printable("]") && Printable("{") && Printable("}") && Printable("[]") && Printable("{}")
    ensures Printable("null") && Printable("true") && Printable("false")
  {
  }

  /** What is dumped is printable ASCII, whatever the strings in it. */
  lemma {:induction false} PrintPrintable(v: Value, sp: Separators)
    ensures Printable(Print(v, sp))
    decreases v, 1
  {
    hide Printable, Quote, Dec, ItemSep, KeySep;
    PunctuationPrintable(sp);
    match v {
      case Int(n) => DecPrintable(n);
      case Str(s) => QuotePrintable(s);
      case Arr(items) =>
        if items != [] {
          ItemsPrintable(items, sp);
          PrintableConcat("[", PrintItems(items, sp));
        }
      case Obj(fields) =>
        if fields != [] {
          FieldsPrintable(fields, sp);
          PrintableConcat("{", PrintFields(fields, sp));
        }
      case _ =>
    }
  }

  lemma {:induction false} ItemsPrintable(items: seq<Value>, sp: Separators)
    requires items != []
    ensures Printable(PrintItems(items, sp))
    decreases items, 0
  {
    hide Printable, ItemSep, Print;
    PunctuationPrintable(sp);
    PrintPrintable(items[0], sp);
    var rest := if |items| == 1 then "]" else ItemSep(sp) + PrintItems(items[1..], sp);
    if |items| > 1 {
      ItemsPrintable(items[1..], sp);
      PrintableConcat(ItemSep(sp), PrintItems(items[1..], sp));
    }
    PrintableConcat(Print(items[0], sp), rest);
  }

  lemma {:induction false} FieldsPrintable(fields: seq<Field>, sp: Separators)
    requires fields != []
    ensures Printable(PrintFields(fields, sp))
    decreases fields, 0
  {
    hide Printable, ItemSep, KeySep, Print, Quote;
    PunctuationPrintable(sp);
    QuotePrintable(fields[0].key);
    PrintPrintable(fields[0].value, sp);
    var rest := if |fields| == 1 then "}" else ItemSep(sp) + PrintFields(fields[1..], sp);
    if |fields| > 1 {
      FieldsPrintable(fields[1..], sp);
      PrintableConcat(ItemSep(sp), PrintFields(fields[1..], sp));
    }
    var head := Quote(fields[0].key) + KeySep(sp);
    PrintableConcat(Quote(fields[0].key), KeySep(sp));
    PrintableConcat(head, Print(fields[0].value, sp));
    PrintableConcat(head + Print(fields[0].value, sp), rest);
  }

  /** The dumped text is ASCII, so hashing its UTF-8 bytes is hashing its characters. */
  lemma DumpsAreAscii(v: Value, sp: Separators)
    ensures Printable(Dumps(v, sp))
  {
    PrintPrintable(Normal(v), sp);
  }

  /** Two items of a list are one item separator apart, a key and its value one key separator. */
  lemma SeparatorsWritten(x: Value, y: Value, key: string, sp: Separators)
    ensures var comma := if sp == Compact then "," else ", ";
            PrintItems([x, y], sp) == Print(x, sp) + (comma + (Print(y, sp) + "]"))
    ensures var colon := if sp == Compact then ":" else ": ";
            PrintFields([Field(key, x)], sp) == Quote(key) + colon + Print(x, sp) + "}"
  {
    hide Print, Quote;
    assert [x, y][1..] == [y];
    assert PrintItems([y], sp) == Print(y, sp) + "]";
  }
}
