/** Timestamps in the fixed 20-character UTC form, and why comparing them as text is comparing instants. */
module Timestamps {
  import opened Records
  import opened JsonText
  import opened Blocks

  /** Broken-down UTC time. */
  datatype Civil = Civil(year: nat, month: nat, day: nat, hour: nat, minute: nat, second: nat)

  predicate Leap(y: nat) {
    y % 4 == 0 && (y % 100 != 0 || y % 400 == 0)
  }

  function DaysInMonth(y: nat, m: nat): nat {
    if m == 2 then if Leap(y) then 29 else 28
    else if m == 4 || m == 6 || m == 9 || m == 11 then 30
    else 31
  }

  /** From the epoch on, with a four-digit year and no leap seconds. */
  predicate Valid(c: Civil) {
    && 1970 <= c.year <= 9999 && 1 <= c.month <= 12 && 1 <= c.day <= DaysInMonth(c.year, c.month)
    && c.hour < 24 && c.minute < 60 && c.second < 60
  }

  /** Days of the Gregorian calendar before this year. */
  function DaysBeforeYear(y: nat): nat
    requires y >= 1
  {
    365 * (y - 1) + (y - 1) / 4 - (y - 1) / 100 + (y - 1) / 400
  }

  function DaysBeforeMonth(y: nat, m: nat): nat
    requires 1 <= m <= 13
  {
    if m == 1 then 0 else DaysBeforeMonth(y, m - 1) + DaysInMonth(y, m - 1)
  }

  function Day(c: Civil): nat
    requires Valid(c)
  {
    DaysBeforeYear(c.year) + DaysBeforeMonth(c.year, c.month) + c.day - 1
  }

  /** Seconds since the beginning of year 1. */
  function Seconds(c: Civil): nat
    requires Valid(c)
  {
    Day(c) * 86400 + c.hour * 3600 + c.minute * 60 + c.second
  }

  // ----- the text -------------------------------------------------------------------------------------

  function Power10(w: nat): (p: nat)
    ensures p >= 1
  {
    if w == 0 then 1 else 10 * Power10(w - 1)
  }

  /** The last w decimal digits. */
  function Pad(n: nat, w: nat): (t: string)
    ensures |t| == w
  {
    if w == 0 then "" else Pad(n / 10, w - 1) + [DigitChar(n % 10)]
  }

  /** "%Y-%m-%dT%H:%M:%SZ" */
  function Text(c: Civil): string {
    Pad(c.year, 4) + ("-" + (Pad(c.month, 2) + ("-" + (Pad(c.day, 2) + ("T" +
    (Pad(c.hour, 2) + (":" + (Pad(c.minute, 2) + (":" + (Pad(c.second, 2) + "Z"))))))))))
  }

  /** Texts of the same length are compared by their first parts, then by their second. */
  lemma {:induction false} BeforeConcat(a: string, b: string, a': string, b': string)
    requires |a| == |a'|
    ensures Before(a + b, a' + b') <==> Before(a, a') || (a == a' && Before(b, b'))
  {
    if a == "" {
      assert a + b == b && a' + b' == b';
    } else {
      assert (a + b)[1..] == a[1..] + b && (a' + b')[1..] == a'[1..] + b';
      BeforeConcat(a[1..], b, a'[1..], b');
      assert a == [a[0]] + a[1..] && a' == [a'[0]] + a'[1..];
    }
  }

  lemma {:induction false} PadOrder(n: nat, n': nat, w: nat)
    requires n < Power10(w) && n' < Power10(w)
    ensures (Before(Pad(n, w), Pad(n', w)) <==> n < n') && (Pad(n, w) == Pad(n', w) <==> n == n')
  {
    if w > 0 {
      PadOrder(n / 10, n' / 10, w - 1);
      var d, d' := [DigitChar(n % 10)], [DigitChar(n' % 10)];
      BeforeConcat(Pad(n / 10, w - 1), d, Pad(n' / 10, w - 1), d');
      DigitOrder(n % 10, n' % 10);
      assert Pad(n, w)[..w - 1] == Pad(n / 10, w - 1) && Pad(n, w)[w - 1..] == d;
      assert Pad(n', w)[..w - 1] == Pad(n' / 10, w - 1) && Pad(n', w)[w - 1..] == d';
    }
  }

  lemma DigitOrder(d: nat, d': nat)
    requires d < 10 && d' < 10
    ensures Before([DigitChar(d)], [DigitChar(d')]) <==> d < d'
    ensures [DigitChar(d)] == [DigitChar(d')] <==> d == d'
  {
    assert [DigitChar(d)][1..] == "" && [DigitChar(d')][1..] == "";
  }

  /** A number field in front of a longer text. */
  lemma FieldOrder(n: nat, n': nat, w: nat, b: string, b': string)
    requires n < Power10(w) && n' < Power10(w)
    ensures Before(Pad(n, w) + b, Pad(n', w) + b') <==> n < n' || (n == n' && Before(b, b'))
    ensures Pad(n, w) + b == Pad(n', w) + b' <==> n == n' && b == b'
  {
    PadOrder(n, n', w);
    BeforeConcat(Pad(n, w), b, Pad(n', w), b');
    assert (Pad(n, w) + b)[..w] == Pad(n, w) && (Pad(n', w) + b')[..w] == Pad(n', w);
    assert (Pad(n, w) + b)[w..] == b && (Pad(n', w) + b')[w..] == b';
  }

  lemma MarkOrder(mark: char, b: string, b': string)
    ensures Before([mark] + b, [mark] + b') <==> Before(b, b')
    ensures [mark] + b == [mark] + b' <==> b == b'
  {
    assert ([mark] + b)[1..] == b && ([mark] + b')[1..] == b';
  }

  // ----- the calendar ------------------------------------------------------------------------------------

  ghost predicate EarlierDate(c: Civil, d: Civil) {
    c.year < d.year || (c.year == d.year && (c.month < d.month || (c.month == d.month && c.day < d.day)))
  }

  ghost predicate Earlier(c: Civil, d: Civil) {
    EarlierDate(c, d)
    || (c.year == d.year && c.month == d.month && c.day == d.day
        && (c.hour < d.hour
            || (c.hour == d.hour && (c.minute < d.minute || (c.minute == d.minute && c.second < d.second)))))
  }

  /** As texts, timestamps compare field by field. */
  lemma TextOrder(c: Civil, d: Civil)
    requires Valid(c) && Valid(d)
    ensures (Before(Text(c), Text(d)) <==> Earlier(c, d)) && (Text(c) == Text(d) <==> c == d)
  {
    hide Pad, Before;
    assert Power10(4) == 10000 && Power10(2) == 100 by { Powers(); }
    var s5, t5 := Pad(c.second, 2) + "Z", Pad(d.second, 2) + "Z";
    FieldOrder(c.second, d.second, 2, "Z", "Z");
    BeforeIrreflexive("Z");
    MarkOrder(':', s5, t5);
    var s4, t4 := Pad(c.minute, 2) + (":" + s5), Pad(d.minute, 2) + (":" + t5);
    FieldOrder(c.minute, d.minute, 2, ":" + s5, ":" + t5);
    MarkOrder(':', s4, t4);
    var s3, t3 := Pad(c.hour, 2) + (":" + s4), Pad(d.hour, 2) + (":" + t4);
    FieldOrder(c.hour, d.hour, 2, ":" + s4, ":" + t4);
    MarkOrder('T', s3, t3);
    var s2, t2 := Pad(c.day, 2) + ("T" + s3), Pad(d.day, 2) + ("T" + t3);
    FieldOrder(c.day, d.day, 2, "T" + s3, "T" + t3);
    MarkOrder('-', s2, t2);
    var s1, t1 := Pad(c.month, 2) + ("-" + s2), Pad(d.month, 2) + ("-" + t2);
    FieldOrder(c.month, d.month, 2, "-" + s2, "-" + t2);
    MarkOrder('-', s1, t1);
    FieldOrder(c.year, d.year, 4, "-" + s1, "-" + t1);
  }

  lemma Powers()
    ensures Power10(4) == 10000 && Power10(2) == 100
  {
    assert Power10(1) == 10 && Power10(3) == 1000;
  }

  lemma Quotients(y: nat)
    requires y >= 1
    ensures y / 4 == (y - 1) / 4 + if y % 4 == 0 then 1 else 0
    ensures y / 100 == (y - 1) / 100 + if y % 100 == 0 then 1 else 0
    ensures y / 400 == (y - 1) / 400 + if y % 400 == 0 then 1 else 0
  {
  }

  lemma CenturiesAreFourths(y: nat)
    ensures y % 100 == 0 ==> y % 4 == 0
    ensures y % 400 == 0 ==> y % 100 == 0
  {
    if y % 100 == 0 { assert y == 4 * (25 * (y / 100)); }
    if y % 400 == 0 { assert y == 100 * (4 * (y / 400)); }
  }

  lemma YearLength(y: nat)
    requires y >= 1
    ensures DaysBeforeYear(y + 1) == DaysBeforeYear(y) + DaysBeforeMonth(y, 13)
  {
    hide DaysBeforeMonth;
    MonthTable(y);
    Quotients(y);
    CenturiesAreFourths(y);
  }

  lemma MonthTable(y: nat)
    ensures DaysBeforeMonth(y, 13) == if Leap(y) then 366 else 365
  {
    hide Leap;
    assert DaysBeforeMonth(y, 2) == 31;
    var feb := DaysInMonth(y, 2);
    assert DaysBeforeMonth(y, 3) == 31 + feb;
    assert DaysBeforeMonth(y, 4) == 62 + feb;
    assert DaysBeforeMonth(y, 5) == 92 + feb;
    assert DaysBeforeMonth(y, 6) == 123 + feb;
    assert DaysBeforeMonth(y, 7) == 153 + feb;
    assert DaysBeforeMonth(y, 8) == 184 + feb;
    assert DaysBeforeMonth(y, 9) == 215 + feb;
    assert DaysBeforeMonth(y, 10) == 245 + feb;
    assert DaysBeforeMonth(y, 11) == 276 + feb;
    assert DaysBeforeMonth(y, 12) == 306 + feb;
  }

  lemma {:induction false} YearsGrow(y: nat, y': nat)
    requires 1 <= y < y'
    ensures DaysBeforeYear(y) + DaysBeforeMonth(y, 13) <= DaysBeforeYear(y')
    decreases y'
  {
    hide DaysBeforeYear, DaysBeforeMonth;
    if y + 1 < y' {
      YearsGrow(y, y' - 1);
      YearLength(y' - 1);
    } else {
      YearLength(y);
    }
  }

  lemma {:induction false} MonthsGrow(y: nat, m: nat, m': nat)
    requires 1 <= m < m' <= 13
    ensures DaysBeforeMonth(y, m) + DaysInMonth(y, m) <= DaysBeforeMonth(y, m')
    decreases m'
  {
    if m + 1 < m' { MonthsGrow(y, m, m' - 1); }
  }

  lemma EarlierDay(c: Civil, d: Civil)
    requires Valid(c) && Valid(d)
    requires EarlierDate(c, d)
    ensures Day(c) < Day(d)
  {
    hide DaysBeforeYear, DaysBeforeMonth, DaysInMonth;
    if c.year < d.year {
      YearsGrow(c.year, d.year);
      if c.month < 13 { MonthsGrow(c.year, c.month, 13); }
    } else if c.month < d.month {
      MonthsGrow(c.year, c.month, d.month);
    }
  }

  lemma EarlierIsBefore(c: Civil, d: Civil)
    requires Valid(c) && Valid(d) && Earlier(c, d)
    ensures Seconds(c) < Seconds(d)
  {
    hide Day;
    if EarlierDate(c, d) {
      EarlierDay(c, d);
    } else {
      assert Day(c) == Day(d) by { SameDay(c, d); }
    }
  }

  lemma SameDay(c: Civil, d: Civil)
    requires Valid(c) && Valid(d) && c.year == d.year && c.month == d.month && c.day == d.day
    ensures Day(c) == Day(d)
  {
  }

  /** Section 5.1 of RFC 3339: in this form, lexicographic order is chronological order, and two texts are
      the same exactly when the instants are. */
  lemma TextOrderIsTimeOrder(c: Civil, d: Civil)
    requires Valid(c) && Valid(d)
    ensures Before(Text(c), Text(d)) <==> Seconds(c) < Seconds(d)
    ensures Text(c) == Text(d) <==> Seconds(c) == Seconds(d)
  {
    hide Text, Seconds, Valid;
    TextOrder(c, d);
    if Earlier(c, d) {
      EarlierIsBefore(c, d);
    } else if Earlier(d, c) {
      EarlierIsBefore(d, c);
    }
  }

  // ----- reading it back -----------------------------------------------------------------------------------

  /** The instant a text in the fixed form stands for. */
  function ReadStamp(t: string): Option<int> {
    if |t| != 20 || t[4] != '-' || t[7] != '-' || t[10] != 'T' || t[13] != ':' || t[16] != ':' || t[19] != 'Z' then None
    else
      var c := Civil(DecimalValue(t[0..4]), DecimalValue(t[5..7]), DecimalValue(t[8..10]),
                     DecimalValue(t[11..13]), DecimalValue(t[14..16]), DecimalValue(t[17..19]));
      if Valid(c) && Text(c) == t then Some(Seconds(c)) else None
  }

  lemma {:induction false} PadValue(n: nat, w: nat)
    requires n < Power10(w)
    ensures DecimalValue(Pad(n, w)) == n
  {
    if w > 0 {
      PadValue(n / 10, w - 1);
      assert Pad(n, w)[..w - 1] == Pad(n / 10, w - 1) && Last(Pad(n, w)) == DigitChar(n % 10);
    }
  }

  lemma TextParts(y: string, m: string, d: string, h: string, n: string, s: string)
    requires |y| == 4 && |m| == |d| == |h| == |n| == |s| == 2
    ensures var t := y + ("-" + (m + ("-" + (d + ("T" + (h + (":" + (n + (":" + (s + "Z"))))))))));
      && |t| == 20 && t[4] == t[7] == '-' && t[10] == 'T' && t[13] == t[16] == ':' && t[19] == 'Z'
      && t[0..4] == y && t[5..7] == m && t[8..10] == d && t[11..13] == h && t[14..16] == n && t[17..19] == s
  {
    var t6 := s + "Z";
    var t5 := n + (":" + t6);
    var t4 := h + (":" + t5);
    var t3 := d + ("T" + t4);
    var t2 := m + ("-" + t3);
    var t := y + ("-" + t2);
    OnePart(y, '-', t2, t, 0);
    OnePart(m, '-', t3, t, 5);
    OnePart(d, 'T', t4, t, 8);
    OnePart(h, ':', t5, t, 11);
    OnePart(n, ':', t6, t, 14);
    OnePart(s, 'Z', "", t, 17);
  }

  lemma OnePart(part: string, sep: char, rest: string, t: string, at: nat)
    requires at <= |t| && t[at..] == part + ([sep] + rest)
    ensures |t| == at + |part| + 1 + |rest| && t[at..at + |part|] == part && t[at + |part|] == sep
    ensures t[at + |part| + 1..] == rest
  {
    assert t[at..][..|part|] == part && t[at..][|part|] == sep;
    assert t[at..][|part| + 1..] == rest;
  }

  lemma StampRoundTrip(c: Civil)
    requires Valid(c)
    ensures |Text(c)| == 20 && ReadStamp(Text(c)) == Some(Seconds(c))
  {
    hide Pad, DecimalValue, Seconds;
    Powers();
    TextParts(Pad(c.year, 4), Pad(c.month, 2), Pad(c.day, 2), Pad(c.hour, 2), Pad(c.minute, 2), Pad(c.second, 2));
    PadValue(c.year, 4);
    PadValue(c.month, 2);
    PadValue(c.day, 2);
    PadValue(c.hour, 2);
    PadValue(c.minute, 2);
    PadValue(c.second, 2);
  }
}
