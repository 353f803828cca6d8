/** Calendar days as JavaScript's `Date` getters give them (`getFullYear()`,
    `getMonth()` counting January as 0, `getDate()`), stepping back one day at a
    time in the Gregorian calendar, and the `YYYY-MM-DD` key the charts and the
    date inputs use. */
module Calendar {
  import opened Common
  import opened Text

  datatype CalendarDate = CalendarDate(year: int, month: int, day: int)

  predicate IsLeapYear(y: int)
  {
    (y % 4 == 0 && y % 100 != 0) || y % 400 == 0
  }

  /** Days in a month counted from 0 for January. */
  function DaysInMonth(y: int, m: int): (n: int)
    requires 0 <= m < 12
    ensures 28 <= n <= 31
  {
    if m == 1 then (if IsLeapYear(y) then 29 else 28)
    else if m == 3 || m == 5 || m == 8 || m == 10 then 30
    else 31
  }

  predicate ValidDate(d: CalendarDate)
  {
    0 <= d.month < 12 && 1 <= d.day <= DaysInMonth(d.year, d.month)
  }

  /** Strictly earlier in calendar order. */
  predicate Before(a: CalendarDate, b: CalendarDate)
  {
    a.year < b.year || (a.year == b.year && (a.month < b.month || (a.month == b.month && a.day < b.day)))
  }

  /** The day before: `setDate(getDate() - 1)`. */
  function PrevDay(d: CalendarDate): (p: CalendarDate)
    requires ValidDate(d)
    ensures ValidDate(p) && Before(p, d)
    ensures d.day > 1 ==> p == d.(day := d.day - 1)
    ensures d.month == 0 && d.day == 1 ==> p == CalendarDate(d.year - 1, 11, 31)
  {
    if d.day > 1 then d.(day := d.day - 1)
    else if d.month > 0 then CalendarDate(d.year, d.month - 1, DaysInMonth(d.year, d.month - 1))
    else CalendarDate(d.year - 1, 11, 31)
  }

  /** The day i days before d: i - 1 days before the day before d. */
  function DaysBack(d: CalendarDate, i: nat): (p: CalendarDate)
    requires ValidDate(d)
    ensures ValidDate(p)
    ensures i > 0 ==> Before(p, d)
    decreases i
  {
    if i == 0 then d else DaysBack(PrevDay(d), i - 1)
  }

  lemma BeforeTransitive(a: CalendarDate, b: CalendarDate, c: CalendarDate)
    requires Before(a, b) && Before(b, c)
    ensures Before(a, c)
  {
  }

  /** Going further back gives a strictly earlier day. */
  lemma {:induction false} DaysBackDecreasing(d: CalendarDate, i: nat, j: nat)
    requires ValidDate(d) && i < j
    ensures Before(DaysBack(d, j), DaysBack(d, i))
    decreases i
  {
    if i > 0 {
      var i1: nat, j1: nat := i - 1, j - 1;
      DaysBackDecreasing(PrevDay(d), i1, j1);
    }
  }

  // ---------------------------------------------------------------------------
  // YYYY-MM-DD keys

  /** A number below 100 as two decimal digits. */
  function Pad2(n: nat): (s: string)
    requires n < 100
    ensures |s| == 2 && AllDigitsIn(s, 10)
    ensures DigitValue(s[0]) == n / 10 && DigitValue(s[1]) == n % 10
  {
    [DigitChar(n / 10), DigitChar(n % 10)]
  }

  /** Pad2 is `String(n).padStart(2, '0')`. */
  lemma Pad2IsPadStart(n: nat)
    requires n < 100
    ensures Pad2(n) == PadZero(NatToString(n), 2)
  {
    if n >= 10 {
      assert NatToString(n) == NatToString(n / 10) + [DigitChar(n % 10)];
    }
  }

  lemma Pad2Injective(a: nat, b: nat)
    requires a < 100 && b < 100 && Pad2(a) == Pad2(b)
    ensures a == b
  {
  }

  /** A month and a day of the month that print as two digits each; every valid
      date is in this range. */
  predicate KeyRange(d: CalendarDate)
  {
    0 <= d.month < 12 && 1 <= d.day <= 31
  }

  /** Every valid date is in the key range. */
  lemma ValidDateInKeyRange(d: CalendarDate)
    requires ValidDate(d)
    ensures KeyRange(d)
  {
    assert DaysInMonth(d.year, d.month) <= 31;
  }

  /** The `-MM-DD` part of a key. */
  function MonthDayTail(d: CalendarDate): (tail: string)
    requires KeyRange(d)
    ensures |tail| == 6 && tail[0] == '-'
  {
    "-" + Pad2(d.month + 1) + "-" + Pad2(d.day)
  }

  /** Two `-xx-yy` texts with two-character parts agree part by part. */
  lemma DashedPairsEqual(m1: string, d1: string, m2: string, d2: string)
    requires |m1| == 2 && |d1| == 2 && |m2| == 2 && |d2| == 2
    requires "-" + m1 + "-" + d1 == "-" + m2 + "-" + d2
    ensures m1 == m2 && d1 == d2
  {
    var t1, t2 := "-" + m1 + "-" + d1, "-" + m2 + "-" + d2;
    assert m1 == t1[1..3] && m2 == t2[1..3];
    assert d1 == t1[4..6] && d2 == t2[4..6];
  }

  /** Equal tails come from the same month and day. */
  lemma MonthDayTailInjective(a: CalendarDate, b: CalendarDate)
    requires KeyRange(a) && KeyRange(b) && MonthDayTail(a) == MonthDayTail(b)
    ensures a.month == b.month && a.day == b.day
  {
    DashedPairsEqual(Pad2(a.month + 1), Pad2(a.day), Pad2(b.month + 1), Pad2(b.day));
    Pad2Injective(a.month + 1, b.month + 1);
    Pad2Injective(a.day, b.day);
  }

  /** The key of a day: the year, the month counted from 1 and the day of the month,
      the last two zero-padded to two digits and joined by '-'. */
  function DateKey(d: CalendarDate): (key: string)
    requires KeyRange(d)
    ensures |key| == |IntToString(d.year)| + 6
  {
    IntToString(d.year) + MonthDayTail(d)
  }

  /** The key of the day i days before d. */
  function KeyDaysBack(d: CalendarDate, i: nat): (key: string)
    requires ValidDate(d)
    decreases i
  {
    if i == 0 then ValidDateInKeyRange(d); DateKey(d) else KeyDaysBack(PrevDay(d), i - 1)
  }

  /** That key is the `YYYY-MM-DD` key of `DaysBack(d, i)`. */
  lemma {:induction false} KeyDaysBackIsDateKey(d: CalendarDate, i: nat)
    requires ValidDate(d)
    ensures KeyRange(DaysBack(d, i)) && KeyDaysBack(d, i) == DateKey(DaysBack(d, i))
    decreases i
  {
    if i == 0 {
      ValidDateInKeyRange(d);
    } else {
      var i1: nat := i - 1;
      KeyDaysBackIsDateKey(PrevDay(d), i1);
    }
  }

  /** Different distances back give different keys. */
  lemma KeyDaysBackInjective(d: CalendarDate, i: nat, j: nat)
    requires ValidDate(d) && i < j
    ensures KeyDaysBack(d, i) != KeyDaysBack(d, j)
  {
    var a, b := DaysBack(d, i), DaysBack(d, j);
    DaysBackDecreasing(d, i, j);
    KeyDaysBackIsDateKey(d, i);
    KeyDaysBackIsDateKey(d, j);
    if DateKey(a) == DateKey(b) {
      DateKeyInjective(a, b);
    }
  }

  /** Two concatenations with equally long second parts split the same way. */
  lemma SplitEqual(x1: string, t1: string, x2: string, t2: string)
    requires x1 + t1 == x2 + t2 && |t1| == |t2|
    ensures x1 == x2 && t1 == t2
  {
    assert x1 == (x1 + t1)[..|x1|];
    assert x2 == (x2 + t2)[..|x2|];
    assert t1 == (x1 + t1)[|x1|..];
    assert t2 == (x2 + t2)[|x2|..];
  }

  /** Different days have different keys. */
  lemma DateKeyInjective(a: CalendarDate, b: CalendarDate)
    requires KeyRange(a) && KeyRange(b) && DateKey(a) == DateKey(b)
    ensures a == b
  {
    SplitEqual(IntToString(a.year), MonthDayTail(a), IntToString(b.year), MonthDayTail(b));
    IntToStringInjective(a.year, b.year);
    MonthDayTailInjective(a, b);
  }

  /** The value of two decimal digits. */
  lemma Pad2Value(n: nat)
    requires n < 100
    ensures DigitsValue(Pad2(n), 10) == n
  {
    var s := Pad2(n);
    var head := s[..1];
    assert head[..0] == [] && head[0] == s[0];
    assert DigitsValue(head, 10) == DigitValue(s[0]);
    assert s[..|s| - 1] == head;
    assert DigitsValue(s, 10) == DigitsValue(head, 10) * 10 + DigitValue(s[1]);
  }

  // ---------------------------------------------------------------------------
  // Reading a date input's text

  /** How `new Date(text)` reads the text of a date input, `YYYY-MM-DD`: the day it
      names, taken as midnight UTC of that day. Nothing (an Invalid Date) for text
      of another form or for a day the calendar does not have. */
  function DayOfDateText(text: string): (d: Option<CalendarDate>)
    ensures d.Some? ==> ValidDate(d.value) && |text| == 10 && 0 <= d.value.year <= 9999
  {
    if |text| == 10 && text[4] == '-' && text[7] == '-' &&
       AllDigitsIn(text[..4], 10) && AllDigitsIn(text[5..7], 10) && AllDigitsIn(text[8..], 10) then
      FourDigitsBound(text[..4]);
      var c := CalendarDate(DigitsValue(text[..4], 10), DigitsValue(text[5..7], 10) - 1, DigitsValue(text[8..], 10));
      if ValidDate(c) then Some(c) else None
    else None
  }

  lemma FourDigitsBound(s: string)
    requires |s| == 4 && AllDigitsIn(s, 10)
    ensures DigitsValue(s, 10) <= 9999
  {
    DigitsValueBelowPow10(s);
    assert Pow10(4) == 10000;
  }

  /** The key of a day with a four-digit year is read back as that day. */
  lemma DayOfDateTextOfKey(d: CalendarDate)
    requires ValidDate(d) && 1000 <= d.year <= 9999
    ensures KeyRange(d) && DayOfDateText(DateKey(d)) == Some(d)
  {
    ValidDateInKeyRange(d);
    var y := NatToString(d.year);
    assert Pow10(3) == 1000;
    NatToStringLength(d.year, 3);
    var mm, dd := Pad2(d.month + 1), Pad2(d.day);
    var key := DateKey(d);
    assert key == y + "-" + mm + "-" + dd;
    assert key[..4] == y && key[4] == '-' && key[5..7] == mm && key[7] == '-' && key[8..] == dd;
    Pad2Value(d.month + 1);
    Pad2Value(d.day);
  }

  /** The local day on which midnight UTC of d falls, for a local time
      `offsetMinutes` ahead of UTC (negative west of Greenwich): west of UTC that
      instant is still the evening of the day before. */
  function LocalDayOfUtcMidnight(d: CalendarDate, offsetMinutes: int): (local: CalendarDate)
    requires ValidDate(d) && -1440 < offsetMinutes < 1440
    ensures ValidDate(local)
    ensures offsetMinutes >= 0 ==> local == d
    ensures offsetMinutes < 0 ==> local == PrevDay(d)
  {
    if offsetMinutes < 0 then PrevDay(d) else d
  }

  /** `parseInt` of digits followed by a '-' reads the digits. */
  lemma ParseIntOfDigitsThenDash(digits: string, m: nat, rest: string)
    requires digits != [] && AllDigitsIn(digits, 10) && DigitsValue(digits, 10) == m
    requires rest != [] && rest[0] == '-'
    ensures ParseInt(digits + rest) == Finite(m as real)
  {
    var t := digits + rest;
    assert t[0] == digits[0] && IsDigitIn(t[0], 10);
    TrimStartOfDigits(t);
    assert |t| >= 2;
    assert |digits| >= 2 ==> t[1] == digits[1] && IsDigitIn(digits[1], 10);
    assert |digits| == 1 ==> t[1] == '-';
    LeadingDigitsUpTo(digits, rest, 10);
  }

  /** `parseInt` of a key reads its year back. */
  lemma ParseIntOfDateKey(d: CalendarDate)
    requires KeyRange(d) && d.year >= 0
    ensures ParseInt(DateKey(d)) == Finite(d.year as real)
  {
    assert IntToString(d.year) == NatToString(d.year);
    ParseIntOfDigitsThenDash(NatToString(d.year), d.year, MonthDayTail(d));
  }
}
