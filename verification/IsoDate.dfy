/**
  The text a date turns into, and the date-time texts the audit schema admits.
  The first uses six signed digits for years beyond four; the second has no
  place for them.
*/
module IsoDate {
  // A UTC instant as the calendar shows it.
  datatype Instant = Instant(year: int, month: int, day: int, hour: int, minute: int, second: int, millisecond: int)

  predicate IsLeap(year: int) {
    year % 4 == 0 && (year % 100 != 0 || year % 400 == 0)
  }

  function DaysIn(year: int, month: int): int {
    if month == 2 then (if IsLeap(year) then 29 else 28)
    else if month == 4 || month == 6 || month == 9 || month == 11 then 30
    else 31
  }

  // The years a JavaScript date can hold.
  predicate IsInstant(t: Instant) {
    -271821 <= t.year <= 275760 && 1 <= t.month <= 12 && 1 <= t.day <= DaysIn(t.year, t.month) &&
    0 <= t.hour < 24 && 0 <= t.minute < 60 && 0 <= t.second < 60 && 0 <= t.millisecond < 1000
  }

  // The Gregorian calendar by its months, from the first year a JavaScript date can hold to the last.
  ghost predicate IsOnCalendar(t: Instant) {
    var leaps := t.year % 4 == 0 && (t.year % 100 == 0 ==> t.year % 400 == 0);
    var lengths := [31, if leaps then 29 else 28, 31, 30, 31, 30, 31, 31, 30, 31, 30, 31];
    -271821 <= t.year <= 275760 && 0 < t.month <= |lengths| && 0 < t.day <= lengths[t.month - 1] &&
    0 <= t.hour <= 23 && 0 <= t.minute <= 59 && 0 <= t.second <= 59 && 0 <= t.millisecond <= 999
  }

  lemma InstantsAreOnTheCalendar(t: Instant)
    ensures IsInstant(t) <==> IsOnCalendar(t)
  {
  }

  predicate HasFourDigitYear(t: Instant) {
    0 <= t.year <= 9999
  }

  // ---------- writing ----------

  function Digit(d: int): char
    requires 0 <= d <= 9
  {
    ('0' as int + d) as char
  }

  function TwoDigits(n: int): string
    requires 0 <= n < 100
  {
    [Digit(n / 10), Digit(n % 10)]
  }

  function YearText(year: int): string
    requires -271821 <= year <= 275760
  {
    if 0 <= year <= 9999 then TwoDigits(year / 100) + TwoDigits(year % 100)
    else
      var size := if year < 0 then -year else year;
      [if year < 0 then '-' else '+'] + TwoDigits(size / 10000) + TwoDigits(size / 100 % 100) + TwoDigits(size % 100)
  }

  function ToISOString(t: Instant): string
    requires IsInstant(t)
  {
    YearText(t.year) + "-" + TwoDigits(t.month) + "-" + TwoDigits(t.day) + "T" + TwoDigits(t.hour) + ":" +
    TwoDigits(t.minute) + ":" + TwoDigits(t.second) + "." + [Digit(t.millisecond / 100)] +
    TwoDigits(t.millisecond % 100) + "Z"
  }

  // ---------- the schema's grammar ----------

  predicate IsDigit(c: char) { '0' <= c <= '9' }

  function DigitValue(c: char): int { c as int - '0' as int }

  predicate IsPair(s: string, at: nat) {
    at + 2 <= |s| && IsDigit(s[at]) && IsDigit(s[at + 1])
  }

  function PairValue(s: string, at: nat): int
    requires at + 2 <= |s|
  {
    10 * DigitValue(s[at]) + DigitValue(s[at + 1])
  }

  predicate PairWithin(s: string, at: nat, low: int, high: int) {
    IsPair(s, at) && low <= PairValue(s, at) <= high
  }

  // The leap years by their two pairs of digits: the second pair decides unless it is zero.
  predicate LeapPairs(century: int, rest: int) {
    if rest == 0 then century % 4 == 0 else rest % 4 == 0
  }

  predicate IsDate(s: string) {
    |s| == 10 && IsPair(s, 0) && IsPair(s, 2) && s[4] == '-' && PairWithin(s, 5, 1, 12) && s[7] == '-' &&
    (PairWithin(s, 8, 1, 28) ||
     (PairValue(s, 5) != 2 && PairWithin(s, 8, 29, 30)) ||
     (PairValue(s, 5) in {1, 3, 5, 7, 8, 10, 12} && PairWithin(s, 8, 31, 31)) ||
     (PairValue(s, 5) == 2 && PairWithin(s, 8, 29, 29) && LeapPairs(PairValue(s, 0), PairValue(s, 2))))
  }

  predicate IsZone(s: string) {
    s == "Z" ||
    (|s| == 6 && (s[0] == '+' || s[0] == '-') && PairWithin(s, 1, 0, 23) && s[3] == ':' && PairWithin(s, 4, 0, 59))
  }

  // One or more digits and the zone.
  predicate IsFraction(s: string) {
    |s| > 1 && IsDigit(s[0]) && (IsZone(s[1..]) || IsFraction(s[1..]))
  }

  predicate IsTime(s: string) {
    PairWithin(s, 0, 0, 23) && |s| > 5 && s[2] == ':' && PairWithin(s, 3, 0, 59) &&
    (IsZone(s[5..]) ||
     (s[5] == ':' && PairWithin(s, 6, 0, 59) &&
      (IsZone(s[8..]) || (|s| > 9 && s[8] == '.' && IsFraction(s[9..])))))
  }

  predicate IsDateTime(s: string) {
    |s| > 11 && IsDate(s[..10]) && s[10] == 'T' && IsTime(s[11..])
  }

  // ---------- which dates pass ----------

  lemma LeapPairsAreLeapYears(year: int)
    requires 0 <= year <= 9999
    ensures LeapPairs(year / 100, year % 100) <==> IsLeap(year)
  {
    var century, rest := year / 100, year % 100;
    assert year == 100 * century + rest;
    assert year % 4 == rest % 4;
    if rest == 0 {
      assert year % 400 == 100 * (century % 4);
    }
  }

  lemma PairReads(s: string, at: nat, n: int)
    requires 0 <= n < 100 && at + 2 <= |s| && s[at..at + 2] == TwoDigits(n)
    ensures IsPair(s, at) && PairValue(s, at) == n
  {
    assert s[at] == s[at..at + 2][0] && s[at + 1] == s[at..at + 2][1];
  }

  lemma {:induction false} DatePasses(t: Instant)
    requires IsInstant(t) && HasFourDigitYear(t)
    ensures IsDate(YearText(t.year) + "-" + TwoDigits(t.month) + "-" + TwoDigits(t.day))
  {
    var s := YearText(t.year) + "-" + TwoDigits(t.month) + "-" + TwoDigits(t.day);
    PairReads(s, 0, t.year / 100);
    PairReads(s, 2, t.year % 100);
    PairReads(s, 5, t.month);
    PairReads(s, 8, t.day);
    LeapPairsAreLeapYears(t.year);
  }

  lemma FractionPasses(millisecond: int)
    requires 0 <= millisecond < 1000
    ensures IsFraction([Digit(millisecond / 100)] + TwoDigits(millisecond % 100) + "Z")
  {
    var s := [Digit(millisecond / 100)] + TwoDigits(millisecond % 100) + "Z";
    assert s[1..][1..][1..] == "Z";
    assert IsFraction(s[1..][1..]);
    assert IsFraction(s[1..]);
  }

  lemma TimePasses(t: Instant)
    requires IsInstant(t)
    ensures IsTime(TwoDigits(t.hour) + ":" + TwoDigits(t.minute) + ":" + TwoDigits(t.second) + "." +
                   [Digit(t.millisecond / 100)] + TwoDigits(t.millisecond % 100) + "Z")
  {
    var fraction := [Digit(t.millisecond / 100)] + TwoDigits(t.millisecond % 100) + "Z";
    var s := TwoDigits(t.hour) + ":" + TwoDigits(t.minute) + ":" + TwoDigits(t.second) + "." + fraction;
    PairReads(s, 0, t.hour);
    PairReads(s, 3, t.minute);
    PairReads(s, 6, t.second);
    FractionPasses(t.millisecond);
    assert s[9..] == fraction;
    assert s == TwoDigits(t.hour) + ":" + TwoDigits(t.minute) + ":" + TwoDigits(t.second) + "." +
                [Digit(t.millisecond / 100)] + TwoDigits(t.millisecond % 100) + "Z";
  }

  // The schema admits the text of a date exactly when its year has four digits.
  lemma {:induction false} TextPassesIff(t: Instant)
    requires IsInstant(t)
    ensures IsDateTime(ToISOString(t)) <==> HasFourDigitYear(t)
  {
    var s := ToISOString(t);
    if HasFourDigitYear(t) {
      var date := YearText(t.year) + "-" + TwoDigits(t.month) + "-" + TwoDigits(t.day);
      var time := TwoDigits(t.hour) + ":" + TwoDigits(t.minute) + ":" + TwoDigits(t.second) + "." +
                  [Digit(t.millisecond / 100)] + TwoDigits(t.millisecond % 100) + "Z";
      DatePasses(t);
      TimePasses(t);
      assert s == date + "T" + time;
      assert s[..10] == date && s[11..] == time;
    } else {
      assert s[..10][0] == YearText(t.year)[0];
    }
  }

  // ---------- reading the text back ----------

  // The number that n digits from a position on spell.
  ghost function NumberAt(s: string, at: nat, n: nat): int
    requires at + n <= |s|
  {
    if n == 0 then 0 else 10 * NumberAt(s, at, n - 1) + (s[at + n - 1] as int - '0' as int)
  }

  // Section 15.9.1.15 of ECMA-262, edition 5.1: four digits of the year, or a sign and six, and fixed places.
  ghost predicate HasPlaces(s: string, yearSize: nat) {
    |s| == yearSize + 20 && s[yearSize] == '-' && s[yearSize + 3] == '-' && s[yearSize + 6] == 'T' &&
    s[yearSize + 9] == ':' && s[yearSize + 12] == ':' && s[yearSize + 15] == '.' && s[yearSize + 19] == 'Z'
  }

  ghost function YearRead(s: string): int
    requires |s| == 24 || |s| == 27
  {
    if |s| == 24 then NumberAt(s, 0, 4) else if s[0] == '-' then -NumberAt(s, 1, 6) else NumberAt(s, 1, 6)
  }

  ghost function ReadBack(s: string): Instant
    requires |s| == 24 || |s| == 27
  {
    var n := |s| - 20;
    Instant(YearRead(s), NumberAt(s, n + 1, 2), NumberAt(s, n + 4, 2), NumberAt(s, n + 7, 2), NumberAt(s, n + 10, 2),
            NumberAt(s, n + 13, 2), NumberAt(s, n + 16, 3))
  }

  // The two digits of n are at this position.
  ghost predicate Shows(s: string, at: nat, n: int) {
    0 <= n < 100 && at + 2 <= |s| && s[at] == Digit(n / 10) && s[at + 1] == Digit(n % 10)
  }

  lemma PairAppends(s: string, at: nat, k: nat, n: int)
    requires Shows(s, at + k, n)
    ensures NumberAt(s, at, k + 2) == 100 * NumberAt(s, at, k) + n
  {
    assert NumberAt(s, at, k + 1) == 10 * NumberAt(s, at, k) + n / 10;
    assert NumberAt(s, at, k + 2) == 10 * NumberAt(s, at, k + 1) + n % 10;
  }

  lemma ShortYearReads(s: string, year: int)
    requires |s| == 24 && 0 <= year <= 9999 && Shows(s, 0, year / 100) && Shows(s, 2, year % 100)
    ensures YearRead(s) == year
  {
    PairAppends(s, 0, 0, year / 100);
    PairAppends(s, 0, 2, year % 100);
  }

  lemma LongYearReads(s: string, year: int, size: int)
    requires |s| == 27 && size == (if year < 0 then -year else year) && size < 1000000
    requires s[0] == (if year < 0 then '-' else '+') && Shows(s, 1, size / 10000)
    requires Shows(s, 3, size / 100 % 100) && Shows(s, 5, size % 100)
    ensures YearRead(s) == year
  {
    PairAppends(s, 1, 0, size / 10000);
    PairAppends(s, 1, 2, size / 100 % 100);
    PairAppends(s, 1, 4, size % 100);
    SplitSix(size);
  }

  lemma SplitSix(size: int)
    requires 0 <= size < 1000000
    ensures 100 * (100 * (size / 10000) + size / 100 % 100) + size % 100 == size
  {
    assert size / 100 / 100 == size / 10000;
  }

  lemma YearReads(s: string, year: int)
    requires -271821 <= year <= 275760 && |s| == if 0 <= year <= 9999 then 24 else 27
    requires s[..|s| - 20] == YearText(year)
    ensures YearRead(s) == year
    ensures |s| == 27 ==> s[0] == if year < 0 then '-' else '+'
  {
    var text := s[..|s| - 20];
    assert forall k | 0 <= k < |text| :: s[k] == text[k];
    if |s| == 24 {
      ShortYearReads(s, year);
    } else {
      LongYearReads(s, year, if year < 0 then -year else year);
    }
  }

  // Where the parts of the text are.
  ghost predicate HasParts(s: string, t: Instant)
    requires IsInstant(t)
  {
    var n := if HasFourDigitYear(t) then 4 else 7;
    HasPlaces(s, n) && s[..n] == YearText(t.year) && Shows(s, n + 1, t.month) && Shows(s, n + 4, t.day) &&
    Shows(s, n + 7, t.hour) && Shows(s, n + 10, t.minute) && Shows(s, n + 13, t.second) &&
    s[n + 16] == Digit(t.millisecond / 100) && Shows(s, n + 17, t.millisecond % 100)
  }

  lemma DateHasParts(t: Instant)
    requires IsInstant(t)
    ensures var date, n := YearText(t.year) + "-" + TwoDigits(t.month) + "-" + TwoDigits(t.day), |YearText(t.year)|;
            && |date| == n + 6 && date[..n] == YearText(t.year) && date[n] == '-' && date[n + 3] == '-'
            && Shows(date, n + 1, t.month) && Shows(date, n + 4, t.day)
  {
  }

  lemma TimeHasParts(t: Instant)
    requires IsInstant(t)
    ensures var time := TwoDigits(t.hour) + ":" + TwoDigits(t.minute) + ":" + TwoDigits(t.second) + "." +
                        [Digit(t.millisecond / 100)] + TwoDigits(t.millisecond % 100) + "Z";
            && |time| == 13 && time[2] == ':' && time[5] == ':' && time[8] == '.' && time[12] == 'Z'
            && Shows(time, 0, t.hour) && Shows(time, 3, t.minute) && Shows(time, 6, t.second)
            && time[9] == Digit(t.millisecond / 100) && Shows(time, 10, t.millisecond % 100)
  {
  }

  lemma TextHasParts(t: Instant)
    requires IsInstant(t)
    ensures HasParts(ToISOString(t), t)
  {
    var date := YearText(t.year) + "-" + TwoDigits(t.month) + "-" + TwoDigits(t.day);
    var time := TwoDigits(t.hour) + ":" + TwoDigits(t.minute) + ":" + TwoDigits(t.second) + "." +
                [Digit(t.millisecond / 100)] + TwoDigits(t.millisecond % 100) + "Z";
    assert ToISOString(t) == date + "T" + time;
    DateHasParts(t);
    TimeHasParts(t);
    JoinHasParts(date, time, t);
  }

  lemma JoinHasParts(date: string, time: string, t: Instant)
    requires IsInstant(t)
    requires var n := |YearText(t.year)|;
             && |date| == n + 6 && date[..n] == YearText(t.year) && date[n] == '-' && date[n + 3] == '-'
             && Shows(date, n + 1, t.month) && Shows(date, n + 4, t.day)
    requires && |time| == 13 && time[2] == ':' && time[5] == ':' && time[8] == '.' && time[12] == 'Z'
             && Shows(time, 0, t.hour) && Shows(time, 3, t.minute) && Shows(time, 6, t.second)
             && time[9] == Digit(t.millisecond / 100) && Shows(time, 10, t.millisecond % 100)
    ensures HasParts(date + "T" + time, t)
  {
    var s, n := date + "T" + time, |YearText(t.year)|;
    assert forall k | 0 <= k < |date| :: s[k] == date[k];
    assert forall k | 0 <= k < |time| :: s[n + 7 + k] == time[k];
    assert s[..n] == date[..n];
  }

  // The text of a date has the standard's places, and reading it gives back the date.
  lemma {:induction false} ReadBackIsTheDate(t: Instant)
    requires IsInstant(t)
    ensures var s := ToISOString(t);
            && |s| == (if HasFourDigitYear(t) then 24 else 27)
            && HasPlaces(s, |s| - 20) && ReadBack(s) == t
            && (|s| == 27 ==> s[0] == if t.year < 0 then '-' else '+')
  {
    TextHasParts(t);
    ReadsParts(ToISOString(t), t);
  }

  lemma ReadsParts(s: string, t: Instant)
    requires IsInstant(t) && HasParts(s, t)
    ensures ReadBack(s) == t && (|s| == 27 ==> s[0] == if t.year < 0 then '-' else '+')
  {
    var n := |s| - 20;
    YearReads(s, t.year);
    PairAppends(s, n + 1, 0, t.month);
    PairAppends(s, n + 4, 0, t.day);
    PairAppends(s, n + 7, 0, t.hour);
    PairAppends(s, n + 10, 0, t.minute);
    PairAppends(s, n + 13, 0, t.second);
    assert NumberAt(s, n + 16, 1) == t.millisecond / 100;
    PairAppends(s, n + 16, 1, t.millisecond % 100);
  }

  // ---------- what else the grammar admits ----------

  ghost predicate AreDigits(s: string, at: nat, n: nat)
    requires at + n <= |s|
  {
    forall k | at <= k < at + n :: '0' <= s[k] <= '9'
  }

  lemma PairIsNumber(s: string, at: nat)
    requires at + 2 <= |s|
    ensures IsPair(s, at) <==> AreDigits(s, at, 2)
    ensures PairValue(s, at) == NumberAt(s, at, 2)
    ensures AreDigits(s, at, 2) ==> 0 <= NumberAt(s, at, 2) <= 99
  {
    assert NumberAt(s, at, 1) == DigitValue(s[at]);
    assert IsPair(s, at) <== AreDigits(s, at, 2);
  }

  // The grammar of dates is the calendar: any text of ten characters passes exactly when it has digits and
  // dashes in their places and names a day that exists.
  lemma {:induction false} DatesPassIff(s: string)
    ensures IsDate(s) <==>
            |s| == 10 && AreDigits(s, 0, 4) && s[4] == '-' && AreDigits(s, 5, 2) && s[7] == '-' && AreDigits(s, 8, 2) &&
            IsOnCalendar(Instant(NumberAt(s, 0, 4), NumberAt(s, 5, 2), NumberAt(s, 8, 2), 0, 0, 0, 0))
  {
    if |s| == 10 {
      PairIsNumber(s, 0);
      PairIsNumber(s, 2);
      PairIsNumber(s, 5);
      PairIsNumber(s, 8);
      assert AreDigits(s, 0, 4) <==> AreDigits(s, 0, 2) && AreDigits(s, 2, 2);
      FourDigits(s);
      if AreDigits(s, 0, 4) {
        LeapPairsAreLeapYears(NumberAt(s, 0, 4));
        InstantsAreOnTheCalendar(Instant(NumberAt(s, 0, 4), NumberAt(s, 5, 2), NumberAt(s, 8, 2), 0, 0, 0, 0));
      }
    }
  }

  lemma FourDigits(s: string)
    requires |s| >= 4
    ensures NumberAt(s, 0, 4) == 100 * NumberAt(s, 0, 2) + NumberAt(s, 2, 2)
  {
    assert NumberAt(s, 0, 3) == 10 * NumberAt(s, 0, 2) + (s[2] as int - '0' as int);
    assert NumberAt(s, 2, 1) == s[2] as int - '0' as int;
  }

  // An offset passes exactly when it is less than a day, with a sign of its own.
  lemma {:induction false} OffsetsPassIff(sign: char, hours: int, minutes: int)
    requires 0 <= hours < 100 && 0 <= minutes < 100
    ensures IsZone([sign] + TwoDigits(hours) + ":" + TwoDigits(minutes)) <==>
            (sign == '+' || sign == '-') && hours <= 23 && minutes <= 59
  {
    var s := [sign] + TwoDigits(hours) + ":" + TwoDigits(minutes);
    assert s[1..3] == TwoDigits(hours) && s[4..6] == TwoDigits(minutes);
    PairReads(s, 1, hours);
    PairReads(s, 4, minutes);
  }

  // A time passes with or without seconds exactly when it exists.
  lemma {:induction false} TimesPassIff(hour: int, minute: int, second: int)
    requires 0 <= hour < 100 && 0 <= minute < 100 && 0 <= second < 100
    ensures IsTime(TwoDigits(hour) + ":" + TwoDigits(minute) + "Z") <==> hour <= 23 && minute <= 59
    ensures IsTime(TwoDigits(hour) + ":" + TwoDigits(minute) + ":" + TwoDigits(second) + "Z") <==>
            hour <= 23 && minute <= 59 && second <= 59
  {
    var s := TwoDigits(hour) + ":" + TwoDigits(minute) + "Z";
    PairReads(s, 0, hour);
    PairReads(s, 3, minute);
    assert s[5..] == "Z";
    var t := TwoDigits(hour) + ":" + TwoDigits(minute) + ":" + TwoDigits(second) + "Z";
    PairReads(t, 0, hour);
    PairReads(t, 3, minute);
    PairReads(t, 6, second);
    assert t[8..] == "Z" && t[5..][0] == ':';
  }
}
