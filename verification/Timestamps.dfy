/**
 UTC timestamps in the fixed-width form of section 5.1 of RFC 3339, as the stress
 runner writes and reads them: their texts compare exactly as their times do.
 */
module Timestamps {
  import opened Text
  import opened JsonDict

  datatype Date = Date(year: nat, month: nat, day: nat)

  datatype Civil = Civil(date: Date, hour: nat, minute: nat, second: nat)

  const MAX_YEAR := 9999

  predicate LeapYear(y: nat)
  {
    y % 4 == 0 && (y % 100 != 0 || y % 400 == 0)
  }

  function DaysInMonth(y: nat, m: nat): (n: nat)
    ensures 28 <= n <= 31
  {
    if m == 2 then if LeapYear(y) then 29 else 28
    else if m == 4 || m == 6 || m == 9 || m == 11 then 30
    else 31
  }

  predicate ValidDate(d: Date)
  {
    d.year >= 1 && 1 <= d.month <= 12 && 1 <= d.day <= DaysInMonth(d.year, d.month)
  }

  predicate ValidCivil(c: Civil)
  {
    ValidDate(c.date) && c.date.year <= MAX_YEAR && c.hour < 24 && c.minute < 60 && c.second < 60
  }

  function NextDay(d: Date): (r: Date)
    requires ValidDate(d)
    ensures ValidDate(r)
  {
    if d.day < DaysInMonth(d.year, d.month) then Date(d.year, d.month, d.day + 1)
    else if d.month < 12 then Date(d.year, d.month + 1, 1)
    else Date(d.year + 1, 1, 1)
  }

  /** The day that comes `n` days after 2025-01-01. */
  function DayAt(n: nat): (d: Date)
    ensures ValidDate(d)
  {
    if n == 0 then Date(2025, 1, 1) else NextDay(DayAt(n - 1))
  }

  /** The time `t` seconds after 2025-01-01T00:00:00Z. */
  function TimeAt(t: nat): (c: Civil)
    ensures ValidDate(c.date) && c.hour < 24 && c.minute < 60 && c.second < 60
  {
    Civil(DayAt(t / 86400), t / 3600 % 24, t / 60 % 60, t % 60)
  }

  function DaysBeforeMonth(y: nat, m: nat): nat
  {
    if m <= 1 then 0 else DaysBeforeMonth(y, m - 1) + DaysInMonth(y, m - 1)
  }

  /** The proleptic Gregorian day number, 1 for the first of January of year 1. */
  function Ordinal(d: Date): int
  {
    var y := d.year - 1;
    365 * y + LeapDays(y) + DaysBeforeMonth(d.year, d.month) + d.day
  }

  lemma YearLength(y: nat)
    ensures DaysBeforeMonth(y, 12) + 31 == if LeapYear(y) then 366 else 365
  {
    var feb := DaysInMonth(y, 2);
    assert DaysBeforeMonth(y, 2) == 31;
    assert DaysBeforeMonth(y, 3) == 31 + feb;
    assert DaysBeforeMonth(y, 4) == 62 + feb;
    assert DaysBeforeMonth(y, 5) == 92 + feb;
    assert DaysBeforeMonth(y, 6) == 123 + feb;
    assert DaysBeforeMonth(y, 7) == 153 + feb;
    assert DaysBeforeMonth(y, 8) == 184 + feb;
    assert DaysBeforeMonth(y, 9) == 215 + feb;
    assert DaysBeforeMonth(y, 10) == 245 + feb;
    assert DaysBeforeMonth(y, 11) == 276 + feb;
    assert DaysBeforeMonth(y, 12) == 306 + feb;
  }

  lemma Quotients(y: nat)
    requires y >= 1
    ensures y / 4 == (y - 1) / 4 + if y % 4 == 0 then 1 else 0
    ensures y / 100 == (y - 1) / 100 + if y % 100 == 0 then 1 else 0
    ensures y / 400 == (y - 1) / 400 + if y % 400 == 0 then 1 else 0
  {
  }

  lemma Multiples(y: nat)
    ensures y % 400 == 0 ==> y % 100 == 0
    ensures y % 100 == 0 ==> y % 4 == 0
  {
    if y % 400 == 0 {
      assert y == 100 * (4 * (y / 400));
    }
    if y % 100 == 0 {
      assert y == 4 * (25 * (y / 100));
    }
  }

  /** Leap days up to and including the given number of years. */
  function LeapDays(years: int): int
  {
    years / 4 - years / 100 + years / 400
  }

  lemma LeapDaysStep(y: nat)
    requires y >= 1
    ensures LeapDays(y) == LeapDays(y - 1) + if LeapYear(y) then 1 else 0
  {
    Quotients(y);
    Multiples(y);
  }

  lemma NextDayIsNext(d: Date)
    requires ValidDate(d) && d.year >= 1
    ensures Ordinal(NextDay(d)) == Ordinal(d) + 1
  {
    hide LeapYear, LeapDays;
    YearLength(d.year);
    LeapDaysStep(d.year);
    assert DaysBeforeMonth(d.year + 1, 1) == 0;
  }

  /** Counting days reaches the day whose number is the start's plus the count. */
  lemma {:induction false} DayAtOrdinal(n: nat)
    ensures DayAt(n).year >= 1 && Ordinal(DayAt(n)) == Ordinal(Date(2025, 1, 1)) + n
  {
    if n > 0 {
      DayAtOrdinal(n - 1);
      NextDayIsNext(DayAt(n - 1));
    }
  }

  // ------------------------------------------------------------------------- order

  predicate DateLt(a: Date, b: Date)
  {
    a.year < b.year || (a.year == b.year && (a.month < b.month || (a.month == b.month && a.day < b.day)))
  }

  predicate CivilLt(a: Civil, b: Civil)
  {
    || DateLt(a.date, b.date)
    || (a.date == b.date &&
        (a.hour < b.hour || (a.hour == b.hour &&
          (a.minute < b.minute || (a.minute == b.minute && a.second < b.second)))))
  }

  lemma {:induction false} DaysAdvance(m: nat, n: nat)
    requires m < n
    ensures DateLt(DayAt(m), DayAt(n))
  {
    if m < n - 1 {
      DaysAdvance(m, n - 1);
    }
  }

  lemma ClockFields(t: nat)
    ensures t == t / 86400 * 86400 + t / 3600 % 24 * 3600 + t / 60 % 60 * 60 + t % 60
  {
    assert t / 60 == t / 3600 * 60 + t / 60 % 60;
    assert t / 3600 == t / 86400 * 24 + t / 3600 % 24;
  }

  /** Later means later on the calendar and the clock. */
  lemma TimeAdvances(s: nat, t: nat)
    requires s < t
    ensures CivilLt(TimeAt(s), TimeAt(t))
  {
    hide DayAt, DateLt;
    ClockFields(s);
    ClockFields(t);
    if s / 86400 < t / 86400 {
      DaysAdvance(s / 86400, t / 86400);
    }
  }

  /** Day number, hour, minute and second add up to the seconds since the start of 2025. */
  lemma TimeAtSeconds(t: nat)
    ensures var c := TimeAt(t);
            t == (Ordinal(c.date) - Ordinal(Date(2025, 1, 1))) * 86400 + c.hour * 3600 + c.minute * 60 + c.second
  {
    hide DayAt, Ordinal;
    ClockFields(t);
    DayAtOrdinal(t / 86400);
  }

  lemma CivilLtAsymmetric(a: Civil, b: Civil)
    ensures !(CivilLt(a, b) && CivilLt(b, a))
  {
  }

  /** Calendar order of two times is the order of their distances from the start. */
  lemma TimeOrder(s: nat, t: nat)
    ensures CivilLt(TimeAt(s), TimeAt(t)) <==> s < t
    ensures s <= t ==> TimeAt(s).date.year <= TimeAt(t).date.year
  {
    hide TimeAt;
    if s < t {
      TimeAdvances(s, t);
    } else if t < s {
      TimeAdvances(t, s);
      CivilLtAsymmetric(TimeAt(s), TimeAt(t));
    }
  }

  // -------------------------------------------------------------------------- text

  function Power10(w: nat): (p: nat)
    ensures p >= 1
  {
    if w == 0 then 1 else 10 * Power10(w - 1)
  }

  /** `n` in exactly `w` decimal digits. */
  function Pad(n: nat, w: nat): (s: string)
    requires n < Power10(w)
    ensures |s| == w
    ensures forall i :: 0 <= i < w ==> IsDigit(s[i])
  {
    if w == 0 then "" else Pad(n / 10, w - 1) + [DigitChar(n % 10)]
  }

  lemma {:induction false} PadValue(n: nat, w: nat)
    requires n < Power10(w)
    ensures NatVal(Pad(n, w)) == n
    decreases w
  {
    if w > 0 {
      PadValue(n / 10, w - 1);
      assert Pad(n, w)[..w - 1] == Pad(n / 10, w - 1);
    }
  }

  /** Zero-padded fields compare first by number, then by what follows them. */
  lemma {:induction false} PadCompare(x: nat, y: nat, w: nat, a: string, b: string)
    requires x < Power10(w) && y < Power10(w)
    ensures StrLt(Pad(x, w) + a, Pad(y, w) + b) <==> x < y || (x == y && StrLt(a, b))
    decreases w
  {
    if w == 0 {
      assert Pad(x, w) + a == a && Pad(y, w) + b == b;
    } else {
      var dx, dy := [DigitChar(x % 10)], [DigitChar(y % 10)];
      PadCompare(x / 10, y / 10, w - 1, dx + a, dy + b);
      assert Pad(x, w) + a == Pad(x / 10, w - 1) + (dx + a);
      assert Pad(y, w) + b == Pad(y / 10, w - 1) + (dy + b);
      assert (dx + a)[1..] == a && (dy + b)[1..] == b;
    }
  }

  lemma SmallPowers()
    ensures Power10(2) == 100 && Power10(4) == 10000
  {
    assert Power10(1) == 10;
    assert Power10(3) == 1000;
  }

  function P2(n: nat): string
    requires n < 100
  {
    SmallPowers();
    Pad(n, 2)
  }

  function P4(n: nat): string
    requires n < 10000
  {
    SmallPowers();
    Pad(n, 4)
  }

  /** `isoformat()` of a whole-second UTC time, `+00:00` replaced by `Z`. */
  function Iso(c: Civil): string
    requires ValidCivil(c)
  {
    P4(c.date.year) + ("-" + (P2(c.date.month) + ("-" + (P2(c.date.day) +
    ("T" + (P2(c.hour) + (":" + (P2(c.minute) + (":" + (P2(c.second) + "Z"))))))))))
  }

  lemma FieldCompare(x: nat, y: nat, sep: string, a: string, b: string)
    requires x < 100 && y < 100
    ensures StrLt(sep + (P2(x) + a), sep + (P2(y) + b)) <==> x < y || (x == y && StrLt(a, b))
  {
    SmallPowers();
    StrLtPrefix(sep, P2(x) + a, P2(y) + b);
    PadCompare(x, y, 2, a, b);
  }

  function ClockText(c: Civil): string
    requires ValidCivil(c)
  {
    "T" + (P2(c.hour) + (":" + (P2(c.minute) + (":" + (P2(c.second) + "Z")))))
  }

  lemma ClockCompare(a: Civil, b: Civil)
    requires ValidCivil(a) && ValidCivil(b)
    ensures StrLt(ClockText(a), ClockText(b)) <==>
            || a.hour < b.hour
            || (a.hour == b.hour && (a.minute < b.minute || (a.minute == b.minute && a.second < b.second)))
  {
    hide StrLt, P2;
    var sa, sb := ":" + (P2(a.second) + "Z"), ":" + (P2(b.second) + "Z");
    FieldCompare(a.second, b.second, ":", "Z", "Z");
    StrLtTrichotomy("Z", "Z");
    FieldCompare(a.minute, b.minute, ":", sa, sb);
    FieldCompare(a.hour, b.hour, "T", ":" + (P2(a.minute) + sa), ":" + (P2(b.minute) + sb));
  }

  /** Comparing the texts is comparing the times. */
  lemma IsoOrder(a: Civil, b: Civil)
    requires ValidCivil(a) && ValidCivil(b)
    ensures StrLt(Iso(a), Iso(b)) <==> CivilLt(a, b)
  {
    hide StrLt, P2, ClockText;
    ClockCompare(a, b);
    var da, db := "-" + (P2(a.date.day) + ClockText(a)), "-" + (P2(b.date.day) + ClockText(b));
    FieldCompare(a.date.day, b.date.day, "-", ClockText(a), ClockText(b));
    var ma, mb := "-" + (P2(a.date.month) + da), "-" + (P2(b.date.month) + db);
    FieldCompare(a.date.month, b.date.month, "-", da, db);
    IsoParts(a);
    IsoParts(b);
    SmallPowers();
    PadCompare(a.date.year, b.date.year, 4, ma, mb);
  }

  lemma IsoParts(c: Civil)
    requires ValidCivil(c)
    ensures Iso(c) == P4(c.date.year) + ("-" + (P2(c.date.month) + ("-" + (P2(c.date.day) + ClockText(c)))))
  {
  }

  // ----------------------------------------------------------------------- reading

  predicate Digits(s: string)
  {
    forall i :: 0 <= i < |s| ==> IsDigit(s[i])
  }

  predicate IsoShaped(s: string)
  {
    && |s| == 20
    && s[4] == '-' && s[7] == '-' && s[10] == 'T' && s[13] == ':' && s[16] == ':' && s[19] == 'Z'
    && Digits(s[..4]) && Digits(s[5..7]) && Digits(s[8..10])
    && Digits(s[11..13]) && Digits(s[14..16]) && Digits(s[17..19])
  }

  /** `_parse_iso` on the form that `_iso` writes; None is the exception. */
  function ParseIso(s: string): Option<Civil>
  {
    if !IsoShaped(s) then None
    else
      var c := Civil(
        Date(NatVal(s[..4]), NatVal(s[5..7]), NatVal(s[8..10])),
        NatVal(s[11..13]), NatVal(s[14..16]), NatVal(s[17..19]));
      if ValidCivil(c) then Some(c) else None
  }

  /** What is read is a time of the calendar, from the year 1 to the year 9999. */
  lemma ReadTimes(s: string)
    ensures ParseIso(s).Some? ==>
              var c := ParseIso(s).value;
              && 1 <= c.date.year <= 9999 && 1 <= c.date.month <= 12 && 1 <= c.date.day <= DaysInMonth(c.date.year, c.date.month)
              && c.hour <= 23 && c.minute <= 59 && c.second <= 59
  {
    hide NatVal, IsoShaped;
  }

  lemma IsoSlices(c: Civil)
    requires ValidCivil(c)
    ensures var s := Iso(c);
            && |s| == 20
            && s[4] == '-' && s[7] == '-' && s[10] == 'T' && s[13] == ':' && s[16] == ':' && s[19] == 'Z'
            && s[..4] == P4(c.date.year) && s[5..7] == P2(c.date.month) && s[8..10] == P2(c.date.day)
            && s[11..13] == P2(c.hour) && s[14..16] == P2(c.minute) && s[17..19] == P2(c.second)
  {
    hide Pad, NatVal;
  }

  /** Reading back what was written. */
  lemma ParseInvertsIso(c: Civil)
    requires ValidCivil(c)
    ensures ParseIso(Iso(c)) == Some(c)
  {
    hide Iso, Pad, NatVal, IsDigit;
    SmallPowers();
    IsoSlices(c);
    PadValue(c.date.year, 4);
    PadValue(c.date.month, 2);
    PadValue(c.date.day, 2);
    PadValue(c.hour, 2);
    PadValue(c.minute, 2);
    PadValue(c.second, 2);
  }
}
