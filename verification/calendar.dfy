/** The instants that timestamps stand for, told from the calendar: they start on the first of January 1970
    and go up by one with every tick of the clock. */
module Calendar {
  import opened Records
  import opened GetBlocks
  import opened Timestamps

  predicate HasLeapDay(year: nat) {
    year % 400 == 0 || (year % 4 == 0 && year % 100 != 0)
  }

  /** The days of the month, by name. */
  function MonthLength(year: nat, month: nat): nat
    requires 1 <= month <= 12
  {
    [31, if HasLeapDay(year) then 29 else 28, 31, 30, 31, 30, 31, 31, 30, 31, 30, 31][month - 1]
  }

  /** A date that exists, and a time of day without leap seconds. */
  predicate Exists(c: Civil) {
    && 1970 <= c.year <= 9999 && 1 <= c.month <= 12 && 1 <= c.day <= MonthLength(c.year, c.month)
    && c.hour <= 23 && c.minute <= 59 && c.second <= 59
  }

  function NextDay(c: Civil): Civil
    requires Exists(c)
  {
    if c.day < MonthLength(c.year, c.month) then Civil(c.year, c.month, c.day + 1, 0, 0, 0)
    else if c.month < 12 then Civil(c.year, c.month + 1, 1, 0, 0, 0)
    else Civil(c.year + 1, 1, 1, 0, 0, 0)
  }

  /** What the clock shows a second later. */
  function Tick(c: Civil): Civil
    requires Exists(c)
  {
    if c.second < 59 then c.(second := c.second + 1)
    else if c.minute < 59 then c.(minute := c.minute + 1, second := 0)
    else if c.hour < 23 then c.(hour := c.hour + 1, minute := 0, second := 0)
    else NextDay(c)
  }

  lemma SameMonths(year: nat, month: nat)
    requires 1 <= month <= 12
    ensures DaysInMonth(year, month) == MonthLength(year, month)
  {
    CenturiesAreFourths(year);
  }

  /** The dates that count as valid are those that exist. */
  lemma ValidIsExisting(c: Civil)
    ensures Valid(c) <==> Exists(c)
  {
    hide MonthLength, DaysInMonth;
    if 1 <= c.month <= 12 { SameMonths(c.year, c.month); }
  }

  lemma NextDayIsADayLater(c: Civil)
    requires Exists(c) && Exists(NextDay(c)) && Valid(c) && Valid(NextDay(c))
    ensures Day(NextDay(c)) == Day(c) + 1
  {
    hide MonthLength, DaysInMonth, DaysBeforeYear, Leap, HasLeapDay;
    SameMonths(c.year, c.month);
    if c.day < MonthLength(c.year, c.month) {
    } else if c.month == 12 {
      YearLength(c.year);
      assert DaysBeforeMonth(c.year, 13) == DaysBeforeMonth(c.year, 12) + DaysInMonth(c.year, 12);
      assert DaysBeforeMonth(c.year + 1, 1) == 0;
    }
  }

  /** Every tick is one second, across minutes, days, leap days and years. */
  lemma TickIsOneSecond(c: Civil)
    requires Exists(c) && c != Civil(9999, 12, 31, 23, 59, 59)
    ensures Exists(Tick(c)) && Valid(c) && Valid(Tick(c)) && Seconds(Tick(c)) == Seconds(c) + 1
  {
    hide Day;
    assert Exists(Tick(c)) by { TickExists(c); }
    ValidIsExisting(c);
    ValidIsExisting(Tick(c));
    if c.second == 59 && c.minute == 59 && c.hour == 23 {
      NextDayIsADayLater(c);
    } else {
      assert Day(Tick(c)) == Day(c) by { SameDateSameDay(c, Tick(c)); }
    }
  }

  lemma TickExists(c: Civil)
    requires Exists(c) && c != Civil(9999, 12, 31, 23, 59, 59)
    ensures Exists(Tick(c))
  {
  }

  lemma SameDateSameDay(c: Civil, d: Civil)
    requires Valid(c) && Valid(d) && c.year == d.year && c.month == d.month && c.day == d.day
    ensures Day(c) == Day(d)
  {
  }

  /** Counted from the first of January of the year 1; the Unix epoch lies 719162 days behind it. */
  lemma EpochIsAtItsPlace()
    ensures Exists(Civil(1970, 1, 1, 0, 0, 0)) && Valid(Civil(1970, 1, 1, 0, 0, 0))
    ensures Seconds(Civil(1970, 1, 1, 0, 0, 0)) == 719162 * 86400
  {
    assert DaysBeforeMonth(1970, 1) == 0;
  }

  lemma {:induction false} PadSays(n: nat, w: nat)
    requires n < Power10(w)
    ensures InDigits(Pad(n, w)) && Positional(Pad(n, w)) == n
    decreases w
  {
    if w > 0 {
      var t := Pad(n, w);
      PadSays(n / 10, w - 1);
      assert t[..w - 1] == Pad(n / 10, w - 1) && Last(t) == Blocks.DigitChar(n % 10);
      DigitSays(n % 10);
      forall i | 0 <= i < |t| ensures '0' <= t[i] <= '9' {
        if i < w - 1 { assert t[i] == t[..w - 1][i]; }
      }
      PositionalSnoc(t);
    }
  }

  lemma DigitSays(d: nat)
    requires d < 10
    ensures '0' <= Blocks.DigitChar(d) <= '9' && Blocks.DigitChar(d) as nat - '0' as nat == d
  {
  }

  /** A written timestamp names year, month, day, hour, minute and second in digits of fixed width, and ends
      in Z. */
  lemma StampSays(c: Civil)
    requires Valid(c)
    ensures var t := Text(c);
      && |t| == 20 && t[4] == t[7] == '-' && t[10] == 'T' && t[13] == t[16] == ':' && t[19] == 'Z'
      && InDigits(t[0..4]) && Positional(t[0..4]) == c.year && InDigits(t[5..7]) && Positional(t[5..7]) == c.month
      && InDigits(t[8..10]) && Positional(t[8..10]) == c.day && InDigits(t[11..13]) && Positional(t[11..13]) == c.hour
      && InDigits(t[14..16]) && Positional(t[14..16]) == c.minute
      && InDigits(t[17..19]) && Positional(t[17..19]) == c.second
  {
    hide Pad, Positional, InDigits;
    Powers();
    TextParts(Pad(c.year, 4), Pad(c.month, 2), Pad(c.day, 2), Pad(c.hour, 2), Pad(c.minute, 2), Pad(c.second, 2));
    PadSays(c.year, 4);
    PadSays(c.month, 2);
    PadSays(c.day, 2);
    PadSays(c.hour, 2);
    PadSays(c.minute, 2);
    PadSays(c.second, 2);
  }
}
