/**
 Python text as the repository uses it: strings are sequences of Unicode scalar
 values, compared code point by code point, and integers are written in decimal.
 */
module Text {

  /** `a < b` on Python strings. */
  predicate StrLt(a: string, b: string)
  {
    if b == "" then false
    else if a == "" then true
    else if a[0] != b[0] then a[0] < b[0]
    else StrLt(a[1..], b[1..])
  }

  /** `a <= b` on Python strings. */
  predicate StrLe(a: string, b: string)
  {
    !StrLt(b, a)
  }

  lemma {:induction false} StrLtTrichotomy(a: string, b: string)
    ensures StrLt(a, b) || a == b || StrLt(b, a)
    ensures !(StrLt(a, b) && StrLt(b, a))
    ensures StrLt(a, b) ==> a != b
  {
    if a == "" || b == "" {
    } else if a[0] == b[0] {
      StrLtTrichotomy(a[1..], b[1..]);
      assert a == [a[0]] + a[1..] && b == [b[0]] + b[1..];
    }
  }

  lemma {:induction false} StrLtTransitive(a: string, b: string, c: string)
    requires StrLt(a, b) && StrLt(b, c)
    ensures StrLt(a, c)
  {
    if a != "" && a[0] == b[0] && b[0] == c[0] {
      StrLtTransitive(a[1..], b[1..], c[1..]);
    }
  }

  lemma StrLeTransitive(a: string, b: string, c: string)
    requires StrLe(a, b) && StrLe(b, c)
    ensures StrLe(a, c)
  {
    StrLtTrichotomy(a, b);
    StrLtTrichotomy(b, c);
    StrLtTrichotomy(a, c);
    if a != b && b != c {
      StrLtTransitive(a, b, c);
    }
  }

  /** A common prefix does not influence a comparison. */
  lemma {:induction false} StrLtPrefix(p: string, a: string, b: string)
    ensures StrLt(p + a, p + b) == StrLt(a, b)
  {
    if p == "" {
      assert p + a == a && p + b == b;
    } else {
      StrLtPrefix(p[1..], a, b);
      assert (p + a)[1..] == p[1..] + a && (p + b)[1..] == p[1..] + b;
    }
  }

  predicate IsDigit(c: char)
  {
    '0' <= c <= '9'
  }

  function DigitChar(d: nat): (c: char)
    requires d < 10
    ensures IsDigit(c) && c as int - '0' as int == d
  {
    ('0' as int + d) as char
  }

  /** `str(n)` for a non-negative integer. */
  function DecNat(n: nat): (s: string)
    ensures s != "" && forall i :: 0 <= i < |s| ==> IsDigit(s[i])
  {
    if n < 10 then [DigitChar(n)] else DecNat(n / 10) + [DigitChar(n % 10)]
  }

  /** `str(n)`. */
  function Dec(n: int): (s: string)
    ensures s != ""
  {
    if n < 0 then "-" + DecNat(-n) else DecNat(n)
  }

  /** The number a run of decimal digits denotes. */
  function NatVal(s: string): nat
    requires forall i :: 0 <= i < |s| ==> IsDigit(s[i])
  {
    if s == "" then 0
    else
      assert IsDigit(s[|s| - 1]);
      NatVal(s[..|s| - 1]) * 10 + (s[|s| - 1] as int - '0' as int)
  }

  lemma {:induction false} NatValDec(n: nat)
    ensures NatVal(DecNat(n)) == n
  {
    if n >= 10 {
      NatValDec(n / 10);
      var s := DecNat(n);
      assert s[..|s| - 1] == DecNat(n / 10);
    }
  }

  lemma DecNatInjective(m: nat, n: nat)
    requires DecNat(m) == DecNat(n)
    ensures m == n
  {
    NatValDec(m);
    NatValDec(n);
  }

  /** How many digits `s` starts with. */
  function DigitSpan(s: string): (k: nat)
    ensures k <= |s|
    ensures forall i :: 0 <= i < k ==> IsDigit(s[i])
    ensures k < |s| ==> !IsDigit(s[k])
  {
    if s == "" || !IsDigit(s[0]) then 0 else 1 + DigitSpan(s[1..])
  }

  /** SHA-256 of a text's UTF-8 bytes, written as 64 lowercase hex digits. */
  type Sha = string -> string

  predicate IsHexDigit(c: char)
  {
    '0' <= c <= '9' || 'a' <= c <= 'f'
  }

  predicate IsHex64(s: string)
  {
    |s| == 64 && forall i :: 0 <= i < |s| ==> IsHexDigit(s[i])
  }

  /** What the model knows about SHA-256; injectivity is deliberately absent. */
  ghost predicate HexValued(h: Sha)
  {
    forall t :: IsHex64(h(t))
  }

  /** `x` and `y` witness that `h` is not collision free. */
  predicate Collides(h: Sha, x: string, y: string)
  {
    x != y && h(x) == h(y)
  }
}
