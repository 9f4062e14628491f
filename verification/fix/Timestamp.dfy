// UTC timestamps YYYYMMDD-HH:MM:SS.fff as nanoseconds since the epoch.
module Timestamp {
  // The conversion of the last date seen is kept in a cache.

  import opened Decimal

  const TWO64: int := 0x1_0000_0000_0000_0000
  const SECOND: int := 1_000_000_000
  const MINUTE: int := 60_000_000_000
  const HOUR: int := 3_600_000_000_000
  const DAY: int := 86_400_000_000_000

  // --- the calendar -------------------------------------------------------

  predicate IsLeap(y: int) {
    y % 4 == 0 && (y % 100 != 0 || y % 400 == 0)
  }

  function YearLength(y: int): int {
    if IsLeap(y) then 366 else 365
  }

  function MonthLength(y: int, m: nat): nat {
    if m == 2 then (if IsLeap(y) then 29 else 28)
    else if m in {4, 6, 9, 11} then 30 else 31
  }

  // Days from the epoch to the first day of a year.
  function YearStart(y: int): int {
    365 * (y - 1970) + (y - 1) / 4 - (y - 1) / 100 + (y - 1) / 400 - 477
  }

  // Days from the first day of a year to the first day of a month.
  function MonthStart(y: int, m: nat): nat {
    if m <= 1 then 0 else MonthStart(y, m - 1) + MonthLength(y, m - 1)
  }

  // What timegm counts, in days. Like timegm it takes months outside 1 to 12 to
  // be months of a year before or after, and any number of days.
  function DaysSinceEpoch(y: int, m: nat, d: nat): int {
    var months := m as int - 1;
    var year := y + months / 12;
    YearStart(year) + MonthStart(year, months % 12 + 1) + d - 1
  }

  lemma CalendarMonth(y: int, m: nat, d: nat)
    requires 1 <= m <= 12
    ensures DaysSinceEpoch(y, m, d) == YearStart(y) + MonthStart(y, m) + d - 1
  {
    WithinAYear(m);
  }

  lemma WithinAYear(m: int)
    requires 1 <= m <= 12
    ensures (m - 1) / 12 == 0 && (m - 1) % 12 + 1 == m
  {
  }

  lemma YearStartSteps(y: int)
    ensures YearStart(1970) == 0 && YearStart(y + 1) == YearStart(y) + YearLength(y)
  {
    var n := y - 1;
    assert (n + 1) / 4 == n / 4 + (if y % 4 == 0 then 1 else 0);
    assert (n + 1) / 100 == n / 100 + (if y % 100 == 0 then 1 else 0);
    assert (n + 1) / 400 == n / 400 + (if y % 400 == 0 then 1 else 0);
  }

  lemma {:induction false} YearsGrow(y: int, z: int)
    requires y < z
    ensures YearStart(y) + YearLength(y) <= YearStart(z)
    decreases z - y
  {
    YearStartSteps(z - 1);
    if y < z - 1 {
      YearsGrow(y, z - 1);
    }
  }

  lemma {:induction false} MonthsGrow(y: int, m: nat, n: nat)
    requires 1 <= m < n
    ensures MonthStart(y, m) + MonthLength(y, m) <= MonthStart(y, n)
  {
    if m < n - 1 {
      MonthsGrow(y, m, n - 1);
    }
  }

  lemma MonthAdds(y: int, m: nat)
    requires m > 1
    ensures MonthStart(y, m) == MonthStart(y, m - 1) + MonthLength(y, m - 1) && MonthStart(y, 1) == 0
  {
  }

  lemma YearHoldsItsMonths(y: int, m: nat)
    requires 1 <= m <= 12
    ensures MonthStart(y, m) + MonthLength(y, m) <= YearLength(y)
  {
    MonthsGrow(y, m, 13);
    MonthAdds(y, 2);
    MonthAdds(y, 3);
    MonthAdds(y, 4);
    MonthAdds(y, 5);
    MonthAdds(y, 6);
    MonthAdds(y, 7);
    MonthAdds(y, 8);
    MonthAdds(y, 9);
    MonthAdds(y, 10);
    MonthAdds(y, 11);
    MonthAdds(y, 12);
    MonthAdds(y, 13);
  }

  // --- timestamps ---------------------------------------------------------

  predicate DigitsAt(ts: string, i: nat, n: nat) {
    i + n <= |ts| && AllDigits(ts[i..i + n])
  }

  predicate IsDate(ts: string) {
    DigitsAt(ts, 0, 4) && DigitsAt(ts, 4, 2) && DigitsAt(ts, 6, 2)
  }

  // Digits where the format has digits; the separators are never looked at.
  predicate WellFormed(ts: string) {
    && |ts| >= 17
    && IsDate(ts) && DigitsAt(ts, 9, 2) && DigitsAt(ts, 12, 2) && DigitsAt(ts, 15, 2)
    && (|ts| > 18 ==> AllDigits(ts[18..]))
  }

  datatype Instant = Instant(year: nat, month: nat, day: nat, hour: nat, minute: nat, second: nat, nanos: nat)

  // A fraction of more than nine digits counts as none.
  function FractionOf(ts: string): nat
    requires WellFormed(ts)
  {
    if 18 < |ts| <= 27 then Val(ts[18..]) * Pow10(27 - |ts|) else 0
  }

  function InstantOf(ts: string): Instant
    requires WellFormed(ts)
  {
    Instant(ValAt(ts, 0, 4), ValAt(ts, 4, 2), ValAt(ts, 6, 2),
            ValAt(ts, 9, 2), ValAt(ts, 12, 2), ValAt(ts, 15, 2), FractionOf(ts))
  }

  function ValAt(ts: string, i: nat, n: nat): nat
    requires DigitsAt(ts, i, n)
  {
    Val(ts[i..i + n])
  }

  predicate OnCalendar(t: Instant) {
    && 1 <= t.month <= 12 && 1 <= t.day <= MonthLength(t.year, t.month)
    && t.hour <= 23 && t.minute <= 59 && t.second <= 59 && t.nanos < SECOND
  }

  function TimeOfDay(t: Instant): nat {
    t.hour * HOUR + t.minute * MINUTE + t.second * SECOND + t.nanos
  }

  function Midnight(year: nat, month: nat, day: nat): int {
    DaysSinceEpoch(year, month, day) * DAY
  }

  // Nanoseconds since the epoch, before any wrap-around.
  function NanosOf(t: Instant): int {
    Midnight(t.year, t.month, t.day) + TimeOfDay(t)
  }

  // Earlier, field by field.
  predicate LexLess(a: seq<int>, b: seq<int>)
    requires |a| == |b|
  {
    a != [] && (a[0] < b[0] || (a[0] == b[0] && LexLess(a[1..], b[1..])))
  }

  predicate Earlier(s: Instant, t: Instant) {
    LexLess([s.year, s.month, s.day, s.hour, s.minute, s.second, s.nanos],
            [t.year, t.month, t.day, t.hour, t.minute, t.second, t.nanos])
  }

  predicate EarlierDate(s: Instant, t: Instant) {
    s.year < t.year || (s.year == t.year && (s.month < t.month || (s.month == t.month && s.day < t.day)))
  }

  predicate EarlierTime(s: Instant, t: Instant) {
    || s.hour < t.hour
    || (s.hour == t.hour &&
        (s.minute < t.minute || (s.minute == t.minute &&
         (s.second < t.second || (s.second == t.second && s.nanos < t.nanos)))))
  }

  lemma LexStep(x: int, a: seq<int>, y: int, b: seq<int>)
    requires |a| == |b|
    ensures LexLess([x] + a, [y] + b) <==> x < y || (x == y && LexLess(a, b))
  {
    assert ([x] + a)[1..] == a && ([y] + b)[1..] == b;
  }

  lemma EarlierTimeSpelledOut(s: Instant, t: Instant)
    ensures LexLess([s.hour, s.minute, s.second, s.nanos], [t.hour, t.minute, t.second, t.nanos]) <==> EarlierTime(s, t)
  {
    LexStep(s.nanos, [], t.nanos, []);
    assert [s.nanos] + [] == [s.nanos] && [t.nanos] + [] == [t.nanos];
    LexStep(s.second, [s.nanos], t.second, [t.nanos]);
    assert [s.second] + [s.nanos] == [s.second, s.nanos] && [t.second] + [t.nanos] == [t.second, t.nanos];
    LexStep(s.minute, [s.second, s.nanos], t.minute, [t.second, t.nanos]);
    assert [s.minute] + [s.second, s.nanos] == [s.minute, s.second, s.nanos];
    assert [t.minute] + [t.second, t.nanos] == [t.minute, t.second, t.nanos];
    LexStep(s.hour, [s.minute, s.second, s.nanos], t.hour, [t.minute, t.second, t.nanos]);
    assert [s.hour] + [s.minute, s.second, s.nanos] == [s.hour, s.minute, s.second, s.nanos];
    assert [t.hour] + [t.minute, t.second, t.nanos] == [t.hour, t.minute, t.second, t.nanos];
  }

  lemma EarlierSpelledOut(s: Instant, t: Instant)
    ensures Earlier(s, t) <==>
              EarlierDate(s, t) || (s.year == t.year && s.month == t.month && s.day == t.day && EarlierTime(s, t))
  {
    EarlierTimeSpelledOut(s, t);
    var a, b := [s.hour, s.minute, s.second, s.nanos], [t.hour, t.minute, t.second, t.nanos];
    LexStep(s.day, a, t.day, b);
    LexStep(s.month, [s.day] + a, t.month, [t.day] + b);
    LexStep(s.year, [s.month] + ([s.day] + a), t.year, [t.month] + ([t.day] + b));
    assert [s.year] + ([s.month] + ([s.day] + a)) == [s.year, s.month, s.day, s.hour, s.minute, s.second, s.nanos];
    assert [t.year] + ([t.month] + ([t.day] + b)) == [t.year, t.month, t.day, t.hour, t.minute, t.second, t.nanos];
  }

  lemma LaterDate(s: Instant, t: Instant)
    requires OnCalendar(s) && OnCalendar(t) && EarlierDate(s, t)
    ensures DaysSinceEpoch(s.year, s.month, s.day) < DaysSinceEpoch(t.year, t.month, t.day)
  {
    CalendarMonth(s.year, s.month, s.day);
    CalendarMonth(t.year, t.month, t.day);
    if s.year < t.year {
      YearHoldsItsMonths(s.year, s.month);
      YearsGrow(s.year, t.year);
    } else if s.month < t.month {
      MonthsGrow(s.year, s.month, t.month);
    }
  }

  lemma WithinADay(t: Instant)
    requires OnCalendar(t)
    ensures 0 <= TimeOfDay(t) < DAY
  {
  }

  lemma LaterOneWay(s: Instant, t: Instant)
    requires OnCalendar(s) && OnCalendar(t) && Earlier(s, t)
    ensures NanosOf(s) < NanosOf(t)
  {
    EarlierSpelledOut(s, t);
    WithinADay(s);
    WithinADay(t);
    if EarlierDate(s, t) {
      LaterDate(s, t);
    }
  }

  // --- leap seconds -------------------------------------------------------

  // The last second of a day may be its second 60.
  predicate IsLeapSecond(t: Instant) {
    t.second == 60 && t.hour == 23 && t.minute == 59 && OnCalendar(t.(second := 59))
  }

  predicate IsUtc(t: Instant) {
    OnCalendar(t) || IsLeapSecond(t)
  }

  function MidnightOf(t: Instant): int {
    Midnight(t.year, t.month, t.day)
  }

  // A leap second, and an instant of the day after within its first second that
  // is no further into that second.
  predicate Overlaps(s: Instant, t: Instant) {
    s.second == 60 && MidnightOf(t) == MidnightOf(s) + DAY && TimeOfDay(t) <= s.nanos
  }

  lemma WithinAUtcDay(t: Instant)
    requires IsUtc(t)
    ensures if t.second == 60 then TimeOfDay(t) == DAY + t.nanos < DAY + SECOND else 0 <= TimeOfDay(t) < DAY
  {
    if OnCalendar(t) {
      WithinADay(t);
    }
  }

  function DayOf(t: Instant): int {
    DaysSinceEpoch(t.year, t.month, t.day)
  }

  lemma LaterUtcDate(s: Instant, t: Instant)
    requires IsUtc(s) && IsUtc(t) && EarlierDate(s, t)
    ensures DayOf(s) < DayOf(t)
  {
    LaterDate(s.(second := 0), t.(second := 0));
  }

  lemma LaterUtcTime(s: Instant, t: Instant)
    requires IsUtc(s) && IsUtc(t) && EarlierTime(s, t)
    ensures TimeOfDay(s) < TimeOfDay(t)
  {
  }

  lemma AcrossDays(a: int, b: int, x: nat, y: nat)
    requires a < b && x < DAY + SECOND
    ensures a * DAY + x < b * DAY + y <==> !(x >= DAY && b * DAY == a * DAY + DAY && y <= x - DAY)
  {
  }

  // The exact condition: a later instant has a larger count, unless the earlier
  // one is a leap second that it overlaps with.
  lemma LaterUnlessOverlapping(s: Instant, t: Instant)
    requires IsUtc(s) && IsUtc(t) && Earlier(s, t)
    ensures NanosOf(s) < NanosOf(t) <==> !Overlaps(s, t)
  {
    EarlierSpelledOut(s, t);
    WithinAUtcDay(s);
    if EarlierDate(s, t) {
      LaterUtcDate(s, t);
      AcrossDays(DayOf(s), DayOf(t), TimeOfDay(s), TimeOfDay(t));
    } else {
      LaterUtcTime(s, t);
    }
  }

  // The order of any two counts, leap seconds included.
  lemma LaterIsLarger(s: Instant, t: Instant)
    requires IsUtc(s) && IsUtc(t)
    ensures NanosOf(s) < NanosOf(t) <==>
              (Earlier(s, t) && !Overlaps(s, t)) || (Overlaps(t, s) && TimeOfDay(s) < t.nanos)
    ensures OnCalendar(s) && OnCalendar(t) ==> (NanosOf(s) < NanosOf(t) <==> Earlier(s, t))
  {
    EarlierSpelledOut(s, t);
    EarlierSpelledOut(t, s);
    if Overlaps(t, s) {
      OverlapIsLater(t, s);
      assert NanosOf(t) - NanosOf(s) == t.nanos - TimeOfDay(s);
    } else if Earlier(s, t) {
      LaterUnlessOverlapping(s, t);
    } else if Earlier(t, s) {
      LaterUnlessOverlapping(t, s);
    } else {
      assert s == t;
    }
  }

  lemma OverlapIsLater(s: Instant, t: Instant)
    requires IsUtc(s) && IsUtc(t) && Overlaps(s, t)
    ensures Earlier(s, t) && !Earlier(t, s) && TimeOfDay(s) == DAY + s.nanos
  {
    EarlierSpelledOut(s, t);
    EarlierSpelledOut(t, s);
    WithinAUtcDay(s);
    if EarlierDate(t, s) {
      LaterUtcDate(t, s);
    }
  }

  // The first instant of the next calendar day.
  function NextDay(t: Instant): Instant {
    if t.day < MonthLength(t.year, t.month) then Instant(t.year, t.month, t.day + 1, 0, 0, 0, 0)
    else if t.month < 12 then Instant(t.year, t.month + 1, 1, 0, 0, 0, 0)
    else Instant(t.year + 1, 1, 1, 0, 0, 0, 0)
  }

  lemma NextDayOnCalendar(t: Instant)
    requires IsUtc(t)
    ensures OnCalendar(NextDay(t))
  {
  }

  lemma NextDayFollows(t: Instant)
    requires IsUtc(t)
    ensures OnCalendar(NextDay(t)) && DayOf(NextDay(t)) == DayOf(t) + 1
  {
    NextDayOnCalendar(t);
    NextDayCounts(t.year, t.month, t.day);
  }

  // The day after, a month after, a year after.
  lemma NextDayCounts(y: int, m: nat, d: nat)
    requires 1 <= m <= 12
    ensures DaysSinceEpoch(y, m, d + 1) == DaysSinceEpoch(y, m, d) + 1
    ensures m < 12 && d == MonthLength(y, m) ==> DaysSinceEpoch(y, m + 1, 1) == DaysSinceEpoch(y, m, d) + 1
    ensures m == 12 && d == MonthLength(y, m) ==> DaysSinceEpoch(y + 1, 1, 1) == DaysSinceEpoch(y, m, d) + 1
  {
    if m < 12 {
      FirstOfNextMonth(y, m);
    } else {
      FirstOfNextYear(y);
    }
  }

  lemma FirstOfNextMonth(y: int, m: nat)
    requires 1 <= m < 12
    ensures DaysSinceEpoch(y, m + 1, 1) == DaysSinceEpoch(y, m, MonthLength(y, m)) + 1
  {
    CalendarMonth(y, m, MonthLength(y, m));
    CalendarMonth(y, m + 1, 1);
    MonthAdds(y, m + 1);
  }

  lemma FirstOfNextYear(y: int)
    ensures DaysSinceEpoch(y + 1, 1, 1) == DaysSinceEpoch(y, 12, 31) + 1
  {
    CalendarMonth(y, 12, 31);
    CalendarMonth(y + 1, 1, 1);
    YearStartSteps(y);
    WholeYear(y);
  }

  lemma WholeYear(y: int)
    ensures MonthStart(y, 12) + 31 == YearLength(y)
  {
    MonthAdds(y, 2);
    MonthAdds(y, 3);
    MonthAdds(y, 4);
    MonthAdds(y, 5);
    MonthAdds(y, 6);
    MonthAdds(y, 7);
    MonthAdds(y, 8);
    MonthAdds(y, 9);
    MonthAdds(y, 10);
    MonthAdds(y, 11);
    MonthAdds(y, 12);
  }

  // Every leap second counts the same as the first second of the next day, an
  // instant of the calendar that is later.
  lemma LeapSecondCollides(t: Instant)
    requires IsLeapSecond(t)
    ensures var n := NextDay(t).(nanos := t.nanos); OnCalendar(n) && Earlier(t, n) && NanosOf(t) == NanosOf(n)
  {
    var n := NextDay(t).(nanos := t.nanos);
    NextDayFollows(t);
    WithinAUtcDay(t);
    OverlapIsLater(t, n);
  }

  // The one at the end of 2016.
  lemma LeapSecondOf2016()
    ensures var s, t := Instant(2016, 12, 31, 23, 59, 60, 0), Instant(2017, 1, 1, 0, 0, 0, 0);
            IsLeapSecond(s) && OnCalendar(t) && Earlier(s, t) && NanosOf(s) == NanosOf(t)
  {
    var s := Instant(2016, 12, 31, 23, 59, 60, 0);
    assert IsLeapSecond(s) && NextDay(s) == Instant(2017, 1, 1, 0, 0, 0, 0);
    LeapSecondCollides(s);
  }

  // Nothing wraps from 1970 to 2553: the count is a 64-bit one.
  lemma NoWrap(t: Instant)
    requires IsUtc(t) && 1970 <= t.year <= 2553
    ensures 0 <= NanosOf(t) < TWO64
  {
    WithinAUtcDay(t);
    CalendarMonth(t.year, t.month, t.day);
    YearHoldsItsMonths(t.year, t.month);
    YearsGrow(t.year, 2554);
    YearStartSteps(1970);
    if t.year > 1970 {
      YearsGrow(1970, t.year);
    }
    assert YearStart(2554) == 213302;
  }

  // --- what is parsed -----------------------------------------------------

  // What the parser answers: the instant's count in a 64-bit counter.
  function Parsed(ts: string): int
    requires WellFormed(ts)
  {
    NanosOf(InstantOf(ts)) % TWO64
  }

  // Two timestamps from 1970 to 2553, as parsed: the order of the answers is
  // the order of the instants, but for a leap second and what it overlaps with.
  lemma ParsedInOrder(ts: string, us: string)
    requires WellFormed(ts) && IsUtc(InstantOf(ts)) && 1970 <= InstantOf(ts).year <= 2553
    requires WellFormed(us) && IsUtc(InstantOf(us)) && 1970 <= InstantOf(us).year <= 2553
    ensures var s, t := InstantOf(ts), InstantOf(us);
            && (Parsed(ts) < Parsed(us) <==>
                  (Earlier(s, t) && !Overlaps(s, t)) || (Overlaps(t, s) && TimeOfDay(s) < t.nanos))
            && (OnCalendar(s) && OnCalendar(t) ==> (Parsed(ts) < Parsed(us) <==> Earlier(s, t)))
  {
    ParsedIsCount(ts);
    ParsedIsCount(us);
    LaterIsLarger(InstantOf(ts), InstantOf(us));
  }

  lemma ParsedIsCount(ts: string)
    requires WellFormed(ts) && IsUtc(InstantOf(ts)) && 1970 <= InstantOf(ts).year <= 2553
    ensures Parsed(ts) == NanosOf(InstantOf(ts))
  {
    NoWrap(InstantOf(ts));
    SmallRemainder(NanosOf(InstantOf(ts)));
  }

  lemma SmallRemainder(n: int)
    requires 0 <= n < TWO64
    ensures n % TWO64 == n
  {
  }

  // --- what the text says -------------------------------------------------

  // An instant, with `k` digits of a fraction that has no more than that.
  predicate FitsDigits(t: Instant, k: nat) {
    IsUtc(t) && t.year <= 9999 && k <= 9 && t.nanos % Pow10(9 - k) == 0
  }

  lemma Hundreds()
    ensures Pow10(2) == 100 && Pow10(4) == 10_000
  {
    assert Pow10(4) == 10 * Pow10(3) && Pow10(3) == 10 * Pow10(2) && Pow10(2) == 10 * Pow10(1);
  }

  lemma SmallPowers()
    ensures Pow10(9) == SECOND
  {
    Hundreds();
    Pow10Add(4, 4);
    Pow10Add(8, 1);
  }

  lemma {:induction false} FractionIsShort(nanos: nat, k: nat)
    requires nanos < SECOND && k <= 9 && nanos % Pow10(9 - k) == 0
    ensures nanos / Pow10(9 - k) < Pow10(k) && nanos / Pow10(9 - k) * Pow10(9 - k) == nanos
  {
    SmallPowers();
    Pow10Add(k, 9 - k);
    var a, b := Pow10(k), Pow10(9 - k);
    var q := nanos / b;
    assert q * b == nanos;
    if q >= a {
      if q > a {
        MulNext(a, q, b);
      }
    }
  }

  lemma ValOfTwo(s: string)
    requires |s| == 2 && AllDigits(s)
    ensures Val(s) == 10 * DigitValue(s[0]) + DigitValue(s[1])
  {
    var tens := s[..1];
    assert tens[..0] == [];
    assert Val(tens[..0]) == 0;
    assert Val(tens) == DigitValue(s[0]);
  }

  lemma ValOfFour(s: string)
    requires |s| == 4 && AllDigits(s)
    ensures Val(s) == 1000 * DigitValue(s[0]) + 100 * DigitValue(s[1]) + 10 * DigitValue(s[2]) + DigitValue(s[3])
  {
    ValOfTwo(s[..2]);
    assert s[..3][..2] == s[..2];
  }

  function TwoText(n: nat): (s: string)
    requires n < 100
    ensures |s| == 2 && AllDigits(s) && Val(s) == n
  {
    var s := [DigitChar(n / 10), DigitChar(n % 10)];
    ValOfTwo(s);
    s
  }

  lemma TwiceTwo(x: string, y: string)
    requires |x| == |y| == 2 && AllDigits(x) && AllDigits(y)
    ensures AllDigits(x + y) && Val(x + y) == 100 * Val(x) + Val(y)
  {
    ValOfTwo(x);
    ValOfTwo(y);
    ValOfFour(x + y);
  }

  function FourText(n: nat): (s: string)
    requires n < 10_000
    ensures |s| == 4 && AllDigits(s) && Val(s) == n
  {
    TwiceTwo(TwoText(n / 100), TwoText(n % 100));
    TwoText(n / 100) + TwoText(n % 100)
  }

  // The three parts of the standard's UTCTimestamp.

  function DateText(t: Instant): (s: string)
    requires IsUtc(t) && t.year <= 9999
    ensures |s| == 8
  {
    FourText(t.year) + TwoText(t.month) + TwoText(t.day)
  }

  function ClockText(t: Instant): (s: string)
    requires IsUtc(t)
    ensures |s| == 8
  {
    TwoText(t.hour) + ":" + TwoText(t.minute) + ":" + TwoText(t.second)
  }

  function FractionText(t: Instant, k: nat): (s: string)
    requires FitsDigits(t, k)
    ensures |s| == if k == 0 then 0 else k + 1
  {
    FractionIsShort(t.nanos, k);
    if k == 0 then "" else "." + Padded(t.nanos / Pow10(9 - k), k)
  }

  function PrintInstant(t: Instant, k: nat): (s: string)
    requires FitsDigits(t, k)
    ensures |s| == if k == 0 then 17 else 18 + k
  {
    DateText(t) + "-" + ClockText(t) + FractionText(t, k)
  }

  // The piece stands at position `i` of the text.
  ghost predicate Stands(ts: string, i: nat, piece: string) {
    i + |piece| <= |ts| && forall k :: 0 <= k < |piece| ==> ts[i + k] == piece[k]
  }

  lemma StandsIs(ts: string, i: nat, piece: string)
    requires Stands(ts, i, piece) && AllDigits(piece)
    ensures DigitsAt(ts, i, |piece|) && ValAt(ts, i, |piece|) == Val(piece)
  {
    assert ts[i..i + |piece|] == piece;
  }

  lemma StandsIn(before: string, part: string, after: string, i: nat, piece: string)
    requires Stands(part, i, piece)
    ensures Stands(before + part + after, |before| + i, piece)
  {
    forall k | 0 <= k < |piece| ensures (before + part + after)[|before| + i + k] == piece[k] {
      assert (before + part + after)[|before| + (i + k)] == part[i + k];
    }
  }

  lemma DateShape(y: string, m: string, d: string)
    ensures Stands(y + m + d, 0, y) && Stands(y + m + d, |y|, m) && Stands(y + m + d, |y| + |m|, d)
  {
  }

  lemma ClockShape(h: string, m: string, s: string)
    requires |h| == |m| == |s| == 2
    ensures var text := h + ":" + m + ":" + s; Stands(text, 0, h) && Stands(text, 3, m) && Stands(text, 6, s)
  {
  }

  // The numbers of a date, of a time of day, are read at position `n`.
  predicate DateAt(ts: string, n: nat, year: nat, month: nat, day: nat) {
    && DigitsAt(ts, n, 4) && DigitsAt(ts, n + 4, 2) && DigitsAt(ts, n + 6, 2)
    && ValAt(ts, n, 4) == year && ValAt(ts, n + 4, 2) == month && ValAt(ts, n + 6, 2) == day
  }

  predicate ClockAt(ts: string, n: nat, hour: nat, minute: nat, second: nat) {
    && DigitsAt(ts, n, 2) && DigitsAt(ts, n + 3, 2) && DigitsAt(ts, n + 6, 2)
    && ValAt(ts, n, 2) == hour && ValAt(ts, n + 3, 2) == minute && ValAt(ts, n + 6, 2) == second
  }

  lemma PieceReadsBack(before: string, part: string, after: string, i: nat, piece: string)
    requires Stands(part, i, piece) && AllDigits(piece)
    ensures DigitsAt(before + part + after, |before| + i, |piece|)
    ensures ValAt(before + part + after, |before| + i, |piece|) == Val(piece)
  {
    StandsIn(before, part, after, i, piece);
    StandsIs(before + part + after, |before| + i, piece);
  }

  lemma DatePieces(before: string, part: string, y: string, m: string, d: string, after: string)
    requires |y| == 4 && |m| == |d| == 2 && AllDigits(y) && AllDigits(m) && AllDigits(d)
    requires Stands(part, 0, y) && Stands(part, 4, m) && Stands(part, 6, d)
    ensures DateAt(before + part + after, |before|, Val(y), Val(m), Val(d))
  {
    PieceReadsBack(before, part, after, 0, y);
    PieceReadsBack(before, part, after, 4, m);
    PieceReadsBack(before, part, after, 6, d);
  }

  lemma ClockPieces(before: string, part: string, h: string, m: string, s: string, after: string)
    requires |h| == |m| == |s| == 2 && AllDigits(h) && AllDigits(m) && AllDigits(s)
    requires Stands(part, 0, h) && Stands(part, 3, m) && Stands(part, 6, s)
    ensures ClockAt(before + part + after, |before|, Val(h), Val(m), Val(s))
  {
    PieceReadsBack(before, part, after, 0, h);
    PieceReadsBack(before, part, after, 3, m);
    PieceReadsBack(before, part, after, 6, s);
  }

  lemma PrintedDate(t: Instant, before: string, after: string)
    requires IsUtc(t) && t.year <= 9999
    ensures DateAt(before + DateText(t) + after, |before|, t.year, t.month, t.day)
  {
    DateShape(FourText(t.year), TwoText(t.month), TwoText(t.day));
    DatePieces(before, DateText(t), FourText(t.year), TwoText(t.month), TwoText(t.day), after);
  }

  lemma PrintedClock(t: Instant, before: string, after: string)
    requires IsUtc(t)
    ensures ClockAt(before + ClockText(t) + after, |before|, t.hour, t.minute, t.second)
  {
    ClockShape(TwoText(t.hour), TwoText(t.minute), TwoText(t.second));
    ClockPieces(before, ClockText(t), TwoText(t.hour), TwoText(t.minute), TwoText(t.second), after);
  }

  lemma TextShape(date: string, clock: string, fraction: string)
    requires |date| == |clock| == 8
    ensures var ts := date + "-" + clock + fraction;
            && ts == "" + date + ("-" + clock + fraction) && ts == (date + "-") + clock + fraction
            && |date + "-"| == 9 && ts[17..] == fraction && |ts| == 17 + |fraction|
  {
  }

  lemma FractionDigits(ts: string, digits: string)
    requires 17 <= |ts| && ts[17..] == "." + digits
    ensures ts[18..] == digits && |ts| == 18 + |digits|
  {
    assert ts[18..] == ts[17..][1..];
  }

  lemma FractionValue(ts: string, digits: string, n: nat)
    requires WellFormed(ts) && 18 <= |ts| && ts[18..] == digits && |ts| == 18 + n && 1 <= n <= 9 && AllDigits(digits)
    ensures FractionOf(ts) == Val(digits) * Pow10(9 - n)
  {
    assert 27 - |ts| == 9 - n;
  }

  lemma FractionReadsBack(t: Instant, k: nat, ts: string)
    requires FitsDigits(t, k) && WellFormed(ts) && ts[17..] == FractionText(t, k)
    ensures FractionOf(ts) == t.nanos
  {
    FractionIsShort(t.nanos, k);
    if k > 0 {
      FractionDigits(ts, Padded(t.nanos / Pow10(9 - k), k));
      FractionValue(ts, Padded(t.nanos / Pow10(9 - k), k), k);
    } else {
      NoFraction(ts, t);
    }
  }

  lemma NoFraction(ts: string, t: Instant)
    requires FitsDigits(t, 0) && WellFormed(ts) && ts[17..] == ""
    ensures FractionOf(ts) == t.nanos == 0
  {
    SmallPowers();
    assert t.nanos % SECOND == 0;
  }

  // Reading a printed instant gives it back, whatever number of fraction digits
  // it was printed with.
  lemma PrintedInstantReadsBack(t: Instant, k: nat)
    requires FitsDigits(t, k)
    ensures WellFormed(PrintInstant(t, k)) && InstantOf(PrintInstant(t, k)) == t
  {
    TextShape(DateText(t), ClockText(t), FractionText(t, k));
    PrintedDate(t, "", "-" + ClockText(t) + FractionText(t, k));
    PrintedClock(t, DateText(t) + "-", FractionText(t, k));
    PartsReadBack(t, k, PrintInstant(t, k));
  }

  lemma PartsReadBack(t: Instant, k: nat, ts: string)
    requires FitsDigits(t, k)
    requires DateAt(ts, 0, t.year, t.month, t.day) && ClockAt(ts, 9, t.hour, t.minute, t.second)
    requires |ts| == (if k == 0 then 17 else 18 + k) && ts[17..] == FractionText(t, k)
    ensures WellFormed(ts) && InstantOf(ts) == t
  {
    FractionOfDigits(t, k, ts);
    FractionReadsBack(t, k, ts);
  }

  lemma FractionOfDigits(t: Instant, k: nat, ts: string)
    requires FitsDigits(t, k) && 17 <= |ts| && ts[17..] == FractionText(t, k)
    ensures |ts| > 18 ==> AllDigits(ts[18..])
  {
    FractionIsShort(t.nanos, k);
    if k > 0 {
      FractionDigits(ts, Padded(t.nanos / Pow10(9 - k), k));
    }
  }

  // The digits after the point are a fraction of a second.
  lemma FractionScales(ts: string)
    requires WellFormed(ts)
    ensures var k := |ts| - 18;
            if 1 <= k <= 9 then InstantOf(ts).nanos * Pow10(k) == Val(ts[18..]) * SECOND else InstantOf(ts).nanos == 0
  {
    if 18 < |ts| <= 27 {
      var k: nat := |ts| - 18;
      SmallPowers();
      Pow10Add(k, 9 - k);
      Regrouped(Val(ts[18..]), Pow10(9 - k), Pow10(k));
    }
  }

  lemma Regrouped(v: nat, a: nat, b: nat)
    ensures v * a * b == v * (b * a)
  {
  }

  // --- the calendar, counted otherwise ------------------------------------

  // Days from the epoch by whole cycles of 400 years that start with March, so
  // that the leap day comes last.
  function DaysByCycles(y: int, m: nat, d: nat): int
    requires 1 <= m <= 12
  {
    var year := if m <= 2 then y - 1 else y;
    var cycle, yearOfCycle := year / 400, year % 400;
    var month := if m > 2 then m - 3 else m + 9;
    var dayOfYear := (153 * month + 2) / 5 + d - 1;
    cycle * 146_097 + yearOfCycle * 365 + yearOfCycle / 4 - yearOfCycle / 100 + dayOfYear - 719_468
  }

  lemma MonthStarts(y: int)
    ensures MonthStart(y, 1) == 0 && MonthStart(y, 2) == 31
    ensures var l := if IsLeap(y) then 1 else 0;
            && MonthStart(y, 3) == 59 + l && MonthStart(y, 4) == 90 + l && MonthStart(y, 5) == 120 + l
            && MonthStart(y, 6) == 151 + l && MonthStart(y, 7) == 181 + l && MonthStart(y, 8) == 212 + l
            && MonthStart(y, 9) == 243 + l && MonthStart(y, 10) == 273 + l && MonthStart(y, 11) == 304 + l
            && MonthStart(y, 12) == 334 + l
  {
    MonthAdds(y, 2);
    MonthAdds(y, 3);
    MonthAdds(y, 4);
    MonthAdds(y, 5);
    MonthAdds(y, 6);
    MonthAdds(y, 7);
    MonthAdds(y, 8);
    MonthAdds(y, 9);
    MonthAdds(y, 10);
    MonthAdds(y, 11);
    MonthAdds(y, 12);
  }

  // The day count is the one of the Gregorian calendar.
  lemma CalendarByCycles(y: int, m: nat, d: nat)
    requires 1 <= m <= 12
    ensures DaysSinceEpoch(y, m, d) == DaysByCycles(y, m, d)
  {
    CalendarMonth(y, m, d);
    MonthStarts(y);
    if m <= 2 {
      CyclesOfYears(y - 1);
    } else {
      CyclesOfYears(y);
      LeapDays(y);
    }
  }

  lemma CountIs(t: Instant)
    requires 1 <= t.month <= 12
    ensures NanosOf(t) ==
            (((DaysByCycles(t.year, t.month, t.day) * 24 + t.hour) * 60 + t.minute) * 60 + t.second) * 1_000_000_000
            + t.nanos
  {
    CalendarByCycles(t.year, t.month, t.day);
  }

  lemma ParsedIs(ts: string, t: Instant)
    requires WellFormed(ts) && InstantOf(ts) == t && 1 <= t.month <= 12
    ensures var days := DaysByCycles(t.year, t.month, t.day);
            Parsed(ts) ==
            ((((days * 24 + t.hour) * 60 + t.minute) * 60 + t.second) * 1_000_000_000 + t.nanos)
            % 0x1_0000_0000_0000_0000
  {
    CountIs(t);
  }

  // What is parsed from a printed instant are the nanoseconds since 1970.
  lemma PrintedInstantCounts(t: Instant, k: nat)
    requires FitsDigits(t, k)
    ensures var ts, days := PrintInstant(t, k), DaysByCycles(t.year, t.month, t.day);
            WellFormed(ts) && Parsed(ts) ==
            ((((days * 24 + t.hour) * 60 + t.minute) * 60 + t.second) * 1_000_000_000 + t.nanos)
            % 0x1_0000_0000_0000_0000
  {
    PrintedInstantReadsBack(t, k);
    ParsedIs(PrintInstant(t, k), t);
  }

  lemma CyclesOfYears(y: int)
    ensures y / 400 * 146_097 + y % 400 * 365 + y % 400 / 4 - y % 400 / 100 == 365 * y + y / 4 - y / 100 + y / 400
  {
    var c, r := y / 400, y % 400;
    assert y == 400 * c + r;
    assert y / 4 == 100 * c + r / 4;
    assert y / 100 == 4 * c + r / 100;
  }

  lemma LeapDays(y: int)
    ensures y / 4 - y / 100 + y / 400 == (y - 1) / 4 - (y - 1) / 100 + (y - 1) / 400 + (if IsLeap(y) then 1 else 0)
  {
    YearStartSteps(y);
  }

  // --- the parser ---------------------------------------------------------

  class TimestampParser {
    var cachedDateBytes: string
    var cachedMidnightNanos: int

    // The cached midnight belongs to the cached date, unless the cache still
    // holds the eight zero bytes it starts with.
    ghost predicate Valid()
      reads this
    {
      && |cachedDateBytes| == 8
      && (IsDate(cachedDateBytes) ==> cachedMidnightNanos == CacheFree(cachedDateBytes))
    }

    ghost function CacheFree(date: string): int
      requires IsDate(date)
    {
      Midnight(ValAt(date, 0, 4), ValAt(date, 4, 2), ValAt(date, 6, 2)) % TWO64
    }

    constructor ()
      ensures Valid()
    {
      cachedDateBytes := seq(8, _ => 0 as char);
      cachedMidnightNanos := 0;
      new;
      assert !IsDigit(cachedDateBytes[0..4][0]);
    }

    static function TwoDigits(ts: string, i: nat): int
      requires i + 2 <= |ts|
    {
      (ts[i] as int - '0' as int) * 10 + (ts[i + 1] as int - '0' as int)
    }

    static method Fraction(ts: string) returns (frac: int)
      requires WellFormed(ts) && |ts| > 18
      ensures |ts| <= 27 ==> frac == Val(ts[18..]) < Pow10(|ts| - 18)
    {
      frac := 0;
      var i := 18;
      while i < |ts|
        invariant 18 <= i <= |ts|
        invariant i <= 27 ==> frac == Val(ts[18..][..i - 18])
      {
        if i < 27 {
          assert ts[18..][..i + 1 - 18][..i - 18] == ts[18..][..i - 18];
          ValBound(ts[18..][..i - 18]);
          Pow10UpTo(i - 18);
        }
        frac := (frac * 10 + (ts[i] as int - '0' as int)) % TWO64;
        i := i + 1;
      }
      assert ts[18..][..i - 18] == ts[18..];
      ValBound(ts[18..]);
    }

    // Whatever was parsed before, the answer is the instant's count, modulo
    // the width of the counter.
    method ParseNanos(ts: string) returns (nanos: int)
      requires Valid() && WellFormed(ts)
      modifies this
      ensures Valid() && nanos == Parsed(ts)
    {
      if ts[..8] != cachedDateBytes {
        RefreshCache(ts);
      }
      SameDate(ts);
      ClockFields(ts);
      nanos := cachedMidnightNanos;
      ghost var t := InstantOf(ts);
      ghost var total := Midnight(t.year, t.month, t.day);
      nanos, total := PlusMod(nanos, TwoDigits(ts, 9) * HOUR, total);
      nanos, total := PlusMod(nanos, TwoDigits(ts, 12) * MINUTE, total);
      nanos, total := PlusMod(nanos, TwoDigits(ts, 15) * SECOND, total);
      if |ts| > 18 {
        var frac := Fraction(ts);
        if |ts| - 18 <= 9 {
          nanos, total := PlusMod(nanos, frac * Scale(|ts| - 18), total);
        }
      }
    }

    // One unsigned 64-bit addition, beside the sum it stands for.
    static method PlusMod(sum: int, b: int, ghost total: int) returns (r: int, ghost newTotal: int)
      requires sum == total % TWO64
      ensures newTotal == total + b && r == newTotal % TWO64
    {
      r := (sum + b) % TWO64;
      newTotal := total + b;
    }

    method RefreshCache(ts: string)
      requires WellFormed(ts)
      modifies this
      ensures Valid() && cachedDateBytes == ts[..8]
    {
      var year := (ts[0] as int - '0' as int) * 1000 + (ts[1] as int - '0' as int) * 100 + TwoDigits(ts, 2);
      DateFields(ts);
      SameDate(ts);
      var midnight := Midnight(year, TwoDigits(ts, 4), TwoDigits(ts, 6));
      cachedMidnightNanos := midnight % TWO64;
      cachedDateBytes := ts[..8];
    }

    static function Scale(digits: nat): int
      requires digits <= 9
    {
      Pow10(9 - digits)
    }
  }

  lemma {:induction false} Pow10UpTo(n: nat)
    requires n <= 9
    ensures Pow10(n) <= 1_000_000_000
    decreases 9 - n
  {
    if n < 9 {
      Pow10UpTo(n + 1);
    }
  }

  lemma ClockFields(ts: string)
    requires WellFormed(ts)
    ensures TimestampParser.TwoDigits(ts, 9) == ValAt(ts, 9, 2)
    ensures TimestampParser.TwoDigits(ts, 12) == ValAt(ts, 12, 2)
    ensures TimestampParser.TwoDigits(ts, 15) == ValAt(ts, 15, 2)
  {
    ValOfTwo(ts[9..11]);
    ValOfTwo(ts[12..14]);
    ValOfTwo(ts[15..17]);
  }

  lemma SameDate(ts: string)
    requires WellFormed(ts)
    ensures IsDate(ts[..8])
    ensures ValAt(ts[..8], 0, 4) == ValAt(ts, 0, 4) && ValAt(ts[..8], 4, 2) == ValAt(ts, 4, 2)
            && ValAt(ts[..8], 6, 2) == ValAt(ts, 6, 2)
  {
    var date := ts[..8];
    assert date[0..4] == ts[0..4] && date[4..6] == ts[4..6] && date[6..8] == ts[6..8];
  }

  lemma DateFields(ts: string)
    requires WellFormed(ts)
    ensures (ts[0] as int - '0' as int) * 1000 + (ts[1] as int - '0' as int) * 100 + TimestampParser.TwoDigits(ts, 2)
            == ValAt(ts, 0, 4)
    ensures TimestampParser.TwoDigits(ts, 4) == ValAt(ts, 4, 2)
    ensures TimestampParser.TwoDigits(ts, 6) == ValAt(ts, 6, 2)
  {
    ValOfFour(ts[0..4]);
    ValOfTwo(ts[4..6]);
    ValOfTwo(ts[6..8]);
  }
}
