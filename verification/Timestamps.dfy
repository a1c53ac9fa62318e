/** The time stamps that the validator accepts (models.cpp:14-49) are exactly the written forms of real
    points in time. */
module Timestamps {
  import opened Prelude
  import opened FrequencyAxis

  // --- The calendar ---

  predicate Leap(year: int) {
    year % 400 == 0 || (year % 4 == 0 && year % 100 != 0)
  }

  const MONTH_LENGTHS := [31, 28, 31, 30, 31, 30, 31, 31, 30, 31, 30, 31]

  /** A day of a month: one of the ordinary ones, or the 29th of February in a leap year. */
  predicate CalendarDay(year: int, month: int, day: int) {
    1 <= month <= 12 && 1 <= day && (day <= MONTH_LENGTHS[month - 1] || (month == 2 && day == 29 && Leap(year)))
  }

  lemma ValidDateIff(year: nat, month: nat, day: nat)
    ensures ValidDate(year, month, day) <==> year >= 1970 && CalendarDay(year, month, day)
  {
  }

  function DaysBefore(year: nat, month: nat): nat {
    if month <= 1 then 0 else DaysBefore(year, month - 1) + DaysIn(year, month - 1)
  }

  /** The months of a year add up to its length. */
  lemma MonthsMakeAYear(year: nat)
    ensures DaysBefore(year, 13) == if Leap(year) then 366 else 365
  {
    var february := DaysIn(year, 2);
    assert DaysBefore(year, 1) == 0 && DaysBefore(year, 2) == 31;
    assert DaysBefore(year, 3) == 31 + february;
    assert DaysBefore(year, 4) == 62 + february && DaysBefore(year, 5) == 92 + february;
    assert DaysBefore(year, 6) == 123 + february;
    assert DaysBefore(year, 7) == 153 + february && DaysBefore(year, 8) == 184 + february;
    assert DaysBefore(year, 9) == 215 + february;
    assert DaysBefore(year, 10) == 245 + february && DaysBefore(year, 11) == 276 + february;
    assert DaysBefore(year, 12) == 306 + february;
  }

  // --- Writing ---

  datatype Zone = Utc | Offset(ahead: bool, hours: nat, minutes: nat)

  datatype Stamp = Stamp(
    year: nat, month: nat, day: nat, hour: nat, minute: nat, second: nat, fraction: string, zone: Zone)

  predicate AllDigits(s: string) {
    forall i :: 0 <= i < |s| ==> '0' <= s[i] <= '9'
  }

  /** A point in time between 1970 and 9999, to at most nine decimal places; a leap second is allowed. */
  predicate Real(t: Stamp) {
    && 1970 <= t.year <= 9999 && CalendarDay(t.year, t.month, t.day)
    && t.hour < 24 && t.minute < 60 && t.second <= 60
    && |t.fraction| <= 9 && AllDigits(t.fraction)
    && (t.zone.Offset? ==> t.zone.hours < 24 && t.zone.minutes < 60)
  }

  function Digit(n: nat): char {
    ('0' as int + n % 10) as char
  }

  function DateTime(t: Stamp): (s: string)
    ensures |s| == 19
  {
    [Digit(t.year / 1000), Digit(t.year / 100), Digit(t.year / 10), Digit(t.year), '-',
     Digit(t.month / 10), Digit(t.month), '-', Digit(t.day / 10), Digit(t.day), 'T',
     Digit(t.hour / 10), Digit(t.hour), ':', Digit(t.minute / 10), Digit(t.minute), ':',
     Digit(t.second / 10), Digit(t.second)]
  }

  function ZoneText(z: Zone): string {
    match z
    case Utc => ['Z']
    case Offset(ahead, hours, minutes) =>
      [if ahead then '+' else '-', Digit(hours / 10), Digit(hours), ':', Digit(minutes / 10), Digit(minutes)]
  }

  function FractionText(fraction: string): string {
    if fraction == [] then [] else ['.'] + fraction
  }

  function Written(t: Stamp): string {
    DateTime(t) + (FractionText(t.fraction) + ZoneText(t.zone))
  }

  // --- Numbers ---

  function ValueOf(c: char): int {
    c as int - '0' as int
  }

  lemma TwoDigits(s: string, at: nat)
    requires Digits(s, at, 2)
    ensures Number(s, at, 2) == 10 * ValueOf(s[at]) + ValueOf(s[at + 1])
    ensures Number(s, at, 2) <= 99
    ensures s[at] == Digit(Number(s, at, 2) / 10) && s[at + 1] == Digit(Number(s, at, 2))
  {
    assert Number(s, at, 0) == 0 && Number(s, at, 1) == ValueOf(s[at]);
    Ten(ValueOf(s[at]), ValueOf(s[at + 1]));
  }

  lemma Ten(a: nat, b: nat)
    requires b < 10
    ensures (10 * a + b) / 10 == a && (10 * a + b) % 10 == b
  {
  }

  lemma TenAgain(n: nat)
    ensures n / 100 == n / 10 / 10 && n / 1000 == n / 10 / 10 / 10
  {
  }

  /** The number written with the digits a, b, c and d. */
  lemma Thousand(a: nat, b: nat, c: nat, d: nat)
    requires a < 10 && b < 10 && c < 10 && d < 10
    ensures var n := 10 * (10 * (10 * a + b) + c) + d;
            n / 1000 == a && n / 100 % 10 == b && n / 10 % 10 == c && n % 10 == d
  {
    Ten(a, b);
    Ten(10 * a + b, c);
    Ten(10 * (10 * a + b) + c, d);
    TenAgain(10 * (10 * (10 * a + b) + c) + d);
  }

  lemma FourDigits(s: string)
    requires Digits(s, 0, 4)
    ensures Number(s, 0, 4) == 10 * (10 * (10 * ValueOf(s[0]) + ValueOf(s[1])) + ValueOf(s[2])) + ValueOf(s[3])
    ensures Number(s, 0, 4) <= 9999
  {
    assert Number(s, 0, 0) == 0 && Number(s, 0, 1) == ValueOf(s[0]);
    assert Number(s, 0, 2) == 10 * Number(s, 0, 1) + ValueOf(s[1]);
    assert Number(s, 0, 3) == 10 * Number(s, 0, 2) + ValueOf(s[2]);
    assert Number(s, 0, 4) == 10 * Number(s, 0, 3) + ValueOf(s[3]);
  }

  lemma FourDigitsWritten(s: string)
    requires Digits(s, 0, 4)
    ensures var n := Number(s, 0, 4);
            s[0] == Digit(n / 1000) && s[1] == Digit(n / 100) && s[2] == Digit(n / 10) && s[3] == Digit(n)
  {
    FourDigits(s);
    Thousand(ValueOf(s[0]), ValueOf(s[1]), ValueOf(s[2]), ValueOf(s[3]));
  }

  lemma WrittenTwo(s: string, at: nat, n: nat)
    requires n <= 99 && at + 2 <= |s| && s[at] == Digit(n / 10) && s[at + 1] == Digit(n)
    ensures Digits(s, at, 2) && Number(s, at, 2) == n
  {
    TwoDigits(s, at);
  }

  lemma WrittenFour(s: string, n: nat)
    requires n <= 9999 && 4 <= |s|
    requires s[0] == Digit(n / 1000) && s[1] == Digit(n / 100) && s[2] == Digit(n / 10) && s[3] == Digit(n)
    ensures Digits(s, 0, 4) && Number(s, 0, 4) == n
  {
    TenAgain(n);
    FourDigits(s);
    var h, t := n / 10 / 10, n / 10;
    assert n == 10 * t + n % 10 && t == 10 * h + t % 10 && h == 10 * (h / 10) + h % 10 && h / 10 < 10;
  }

  // --- The zone and the fraction ---

  lemma ZoneIsValid(z: Zone)
    requires z.Offset? ==> z.hours < 24 && z.minutes < 60
    ensures ValidZone(ZoneText(z)) && ZoneText(z) != [] && !('0' <= ZoneText(z)[0] <= '9') && ZoneText(z)[0] != '.'
  {
    if z.Offset? {
      WrittenTwo(ZoneText(z), 1, z.hours);
      WrittenTwo(ZoneText(z), 4, z.minutes);
    }
  }

  lemma ZoneOf(s: string) returns (z: Zone)
    requires ValidZone(s)
    ensures (z.Offset? ==> z.hours < 24 && z.minutes < 60) && ZoneText(z) == s
  {
    if s == "Z" {
      z := Utc;
    } else {
      TwoDigits(s, 1);
      TwoDigits(s, 4);
      z := Offset(s[0] == '+', Number(s, 1, 2), Number(s, 4, 2));
    }
  }

  lemma {:induction false} DigitsRun(s: string, at: nat, n: nat)
    requires at + n <= |s| && (forall k :: at <= k < at + n ==> '0' <= s[k] <= '9')
    requires at + n < |s| ==> !('0' <= s[at + n] <= '9')
    ensures DigitsFrom(s, at) == n
    decreases n
  {
    if n > 0 {
      DigitsRun(s, at + 1, n - 1);
    }
  }

  lemma {:induction false} DigitsFromAre(s: string, at: nat)
    requires at <= |s|
    ensures forall k :: at <= k < at + DigitsFrom(s, at) ==> '0' <= s[k] <= '9'
    decreases |s| - at
  {
    if at < |s| && '0' <= s[at] <= '9' {
      DigitsFromAre(s, at + 1);
    }
  }

  // --- Both directions ---

  /** The characters of a date and time. */
  predicate Dated(t: Stamp, s: string)
    requires |s| >= 19
  {
    && s[0] == Digit(t.year / 1000) && s[1] == Digit(t.year / 100)
    && s[2] == Digit(t.year / 10) && s[3] == Digit(t.year)
    && s[4] == '-' && s[5] == Digit(t.month / 10) && s[6] == Digit(t.month)
    && s[7] == '-' && s[8] == Digit(t.day / 10) && s[9] == Digit(t.day)
  }

  predicate Timed(t: Stamp, s: string)
    requires |s| >= 19
  {
    && s[10] == 'T' && s[11] == Digit(t.hour / 10) && s[12] == Digit(t.hour)
    && s[13] == ':' && s[14] == Digit(t.minute / 10) && s[15] == Digit(t.minute)
    && s[16] == ':' && s[17] == Digit(t.second / 10) && s[18] == Digit(t.second)
  }

  lemma DateTimeIff(t: Stamp, s: string)
    requires |s| >= 19
    ensures s[..19] == DateTime(t) <==> Dated(t, s) && Timed(t, s)
  {
    var d := DateTime(t);
    if s[..19] == d {
      assert forall i :: 0 <= i < 19 ==> s[i] == d[i];
    }
  }

  lemma DateIsValid(t: Stamp, s: string)
    requires Real(t) && |s| >= 20 && Dated(t, s)
    ensures Digits(s, 0, 4) && s[4] == '-' && Digits(s, 5, 2) && s[7] == '-' && Digits(s, 8, 2)
    ensures Number(s, 0, 4) == t.year && Number(s, 5, 2) == t.month && Number(s, 8, 2) == t.day
  {
    WrittenFour(s, t.year);
    WrittenTwo(s, 5, t.month);
    WrittenTwo(s, 8, t.day);
  }

  lemma TimeIsValid(t: Stamp, s: string)
    requires Real(t) && |s| >= 20 && Timed(t, s)
    ensures s[10] == 'T' && Digits(s, 11, 2) && s[13] == ':' && Digits(s, 14, 2) && s[16] == ':' && Digits(s, 17, 2)
    ensures Number(s, 11, 2) == t.hour && Number(s, 14, 2) == t.minute && Number(s, 17, 2) == t.second
  {
    WrittenTwo(s, 11, t.hour);
    WrittenTwo(s, 14, t.minute);
    WrittenTwo(s, 17, t.second);
  }

  /** What follows the seconds. */
  predicate ValidTail(s: string)
    requires |s| >= 20
  {
    if s[19] == '.' then
      var fraction := DigitsFrom(s, 20);
      1 <= fraction <= 9 && ValidZone(s[20 + fraction..])
    else ValidZone(s[19..])
  }

  lemma TailIsValid(head: string, fraction: string, zone: Zone)
    requires |head| == 19 && |fraction| <= 9 && AllDigits(fraction)
    requires zone.Offset? ==> zone.hours < 24 && zone.minutes < 60
    ensures var s := head + (FractionText(fraction) + ZoneText(zone));
            |s| >= 20 && ValidTail(s)
  {
    var n, text := |fraction|, ZoneText(zone);
    var s := head + (FractionText(fraction) + text);
    ZoneIsValid(zone);
    if n == 0 {
      assert s[19..] == text && s[19] == text[0];
    } else {
      assert s[19] == '.' && s[20 + n..] == text && s[20 + n] == text[0];
      assert forall k :: 20 <= k < 20 + n ==> s[k] == fraction[k - 20];
      DigitsRun(s, 20, n);
    }
  }

  lemma WrittenIsValid(t: Stamp)
    requires Real(t)
    ensures ValidTimestamp(Written(t))
  {
    var s := Written(t);
    TailIsValid(DateTime(t), t.fraction, t.zone);
    assert s[..19] == DateTime(t);
    DateTimeIff(t, s);
    DateIsValid(t, s);
    TimeIsValid(t, s);
    ValidDateIff(t.year, t.month, t.day);
  }

  lemma FirstPart(s: string, fraction: string, zone: Zone) returns (t: Stamp)
    requires ValidTimestamp(s)
    ensures t.fraction == fraction && t.zone == zone && s[..19] == DateTime(t)
    ensures 1970 <= t.year <= 9999 && CalendarDay(t.year, t.month, t.day)
    ensures t.hour < 24 && t.minute < 60 && t.second <= 60
  {
    FourDigits(s);
    FourDigitsWritten(s);
    TwoDigits(s, 5);
    TwoDigits(s, 8);
    TwoDigits(s, 11);
    TwoDigits(s, 14);
    TwoDigits(s, 17);
    t := Stamp(Number(s, 0, 4), Number(s, 5, 2), Number(s, 8, 2), Number(s, 11, 2), Number(s, 14, 2),
               Number(s, 17, 2), fraction, zone);
    ValidDateIff(t.year, t.month, t.day);
    DateTimeIff(t, s);
  }

  /** What stands before the date's end and after it. */
  lemma TailOf(s: string) returns (fraction: string, zone: Zone)
    requires |s| >= 20 && ValidTail(s)
    ensures |fraction| <= 9 && AllDigits(fraction) && (zone.Offset? ==> zone.hours < 24 && zone.minutes < 60)
    ensures FractionText(fraction) + ZoneText(zone) == s[19..]
  {
    if s[19] == '.' {
      var n := DigitsFrom(s, 20);
      DigitsFromAre(s, 20);
      fraction := s[20..20 + n];
      zone := ZoneOf(s[20 + n..]);
      assert s[19..] == ['.'] + fraction + s[20 + n..];
    } else {
      fraction := [];
      zone := ZoneOf(s[19..]);
      assert FractionText(fraction) + ZoneText(zone) == s[19..];
    }
  }

  lemma ValidIsWritten(s: string) returns (t: Stamp)
    requires ValidTimestamp(s)
    ensures Real(t) && Written(t) == s
  {
    var fraction, zone := TailOf(s);
    t := FirstPart(s, fraction, zone);
    assert s == s[..19] + s[19..];
  }

  /** The validator accepts exactly the written forms of real points in time. */
  lemma ValidTimestampIff(s: string)
    ensures ValidTimestamp(s) <==> exists t :: Real(t) && Written(t) == s
  {
    if ValidTimestamp(s) {
      var t := ValidIsWritten(s);
    } else if exists t :: Real(t) && Written(t) == s {
      var t :| Real(t) && Written(t) == s;
      WrittenIsValid(t);
    }
  }
}
