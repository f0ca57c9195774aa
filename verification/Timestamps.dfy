/**
 UTC timestamps in the format of section 5.6 of RFC 3339 with up to nine fractional digits, as
 time.RFC3339Nano writes and reads them.
 */
module Timestamps {
  import opened Wrappers
  import opened Text

  datatype Stamp = Stamp(year: nat, month: nat, day: nat, hour: nat, minute: nat, second: nat, nanos: nat)

  predicate Leap(year: int) { year % 4 == 0 && (year % 100 != 0 || year % 400 == 0) }

  function DaysIn(month: int, year: int): int {
    if month == 2 then (if Leap(year) then 29 else 28)
    else if month in {4, 6, 9, 11} then 30
    else 31
  }

  predicate Valid(t: Stamp) {
    && t.year <= 9999 && 1 <= t.month <= 12 && 1 <= t.day <= DaysIn(t.month, t.year)
    && t.hour <= 23 && t.minute <= 59 && t.second <= 59 && t.nanos < 1_000_000_000
  }

  function DaysBeforeMonth(month: nat, year: int): int {
    if month <= 1 then 0 else DaysBeforeMonth(month - 1, year) + DaysIn(month - 1, year)
  }

  /** Days from 1 January of year 0 to the date. */
  function Days(t: Stamp): int {
    365 * t.year + (t.year + 3) / 4 - (t.year + 99) / 100 + (t.year + 399) / 400 +
    DaysBeforeMonth(t.month, t.year) + t.day - 1
  }

  /** Nanoseconds since the start of year 0. */
  function Instant(t: Stamp): int {
    (((Days(t) * 24 + t.hour) * 60 + t.minute) * 60 + t.second) * 1_000_000_000 + t.nanos
  }

  /** What the calendar says about single days: the turn of the month, of the year and of a leap February. */
  lemma DayAfter(t: Stamp)
    requires Valid(t)
    ensures t.day < DaysIn(t.month, t.year) ==> Days(t.(day := t.day + 1)) == Days(t) + 1
    ensures t.day == DaysIn(t.month, t.year) && t.month < 12 ==> Days(t.(month := t.month + 1, day := 1)) == Days(t) + 1
    ensures t.day == 31 && t.month == 12 ==> Days(t.(year := t.year + 1, month := 1, day := 1)) == Days(t) + 1
  {
    if t.day == 31 && t.month == 12 {
      YearEnds(t.year);
      LeapDays(t.year);
    }
  }

  lemma YearEnds(year: nat)
    ensures DaysBeforeMonth(12, year) + 31 == if Leap(year) then 366 else 365
  {
    assert DaysBeforeMonth(6, year) == DaysBeforeMonth(5, year) + 31 == DaysBeforeMonth(4, year) + 61;
    assert DaysBeforeMonth(4, year) == DaysBeforeMonth(3, year) + 31 == DaysBeforeMonth(2, year) + DaysIn(2, year) + 31;
    assert DaysBeforeMonth(2, year) == 31;
    assert DaysBeforeMonth(9, year) == DaysBeforeMonth(8, year) + 31 == DaysBeforeMonth(7, year) + 62;
    assert DaysBeforeMonth(7, year) == DaysBeforeMonth(6, year) + 30;
    assert DaysBeforeMonth(12, year) == DaysBeforeMonth(11, year) + 30 == DaysBeforeMonth(10, year) + 61;
    assert DaysBeforeMonth(10, year) == DaysBeforeMonth(9, year) + 30;
  }

  lemma LeapDays(year: nat)
    ensures (year + 4) / 4 - (year + 100) / 100 + (year + 400) / 400 ==
            (year + 3) / 4 - (year + 99) / 100 + (year + 399) / 400 + if Leap(year) then 1 else 0
  {
    Fourths(year);
    Hundredths(year);
    FourHundredths(year);
    if year % 100 == 0 {
      IsFour(year, 25 * (year / 100));
    }
    if year % 400 == 0 {
      IsHundred(year, 4 * (year / 400));
    }
  }

  lemma Fourths(year: nat)
    ensures (year + 4) / 4 == (year + 3) / 4 + if year % 4 == 0 then 1 else 0
  {
  }

  lemma Hundredths(year: nat)
    ensures (year + 100) / 100 == (year + 99) / 100 + if year % 100 == 0 then 1 else 0
  {
  }

  lemma FourHundredths(year: nat)
    ensures (year + 400) / 400 == (year + 399) / 400 + if year % 400 == 0 then 1 else 0
  {
  }

  lemma IsFour(year: nat, n: nat)
    requires year == 4 * n
    ensures year % 4 == 0
  {
  }

  lemma IsHundred(year: nat, n: nat)
    requires year == 100 * n
    ensures year % 100 == 0
  {
  }

  /** Every fourth year is a leap year, but no full century except every fourth one. */
  lemma LeapYears()
    ensures DaysIn(2, 2023) == 28 && DaysIn(2, 2024) == 29 && DaysIn(2, 1900) == 28 && DaysIn(2, 2000) == 29
    ensures DaysIn(1, 2024) == DaysIn(3, 2024) == DaysIn(5, 2024) == DaysIn(7, 2024) == DaysIn(8, 2024) == 31
    ensures DaysIn(10, 2024) == DaysIn(12, 2024) == 31
    ensures DaysIn(4, 2024) == DaysIn(6, 2024) == DaysIn(9, 2024) == DaysIn(11, 2024) == 30
  {
  }

  /** Later fields of the day add up to nanoseconds. */
  lemma InstantOfDay(t: Stamp)
    ensures Instant(t) == Days(t) * 86_400_000_000_000 + t.hour * 3_600_000_000_000 + t.minute * 60_000_000_000 +
                          t.second * 1_000_000_000 + t.nanos
  {
  }

  // ---------------------------------------------------------------- decimal digits

  predicate IsDigit(c: char) { '0' <= c <= '9' }
  predicate IsZero(c: char) { c == '0' }

  predicate AllDigits(s: string) { forall i :: 0 <= i < |s| ==> IsDigit(s[i]) }

  function DigitChar(d: int): (c: char)
    requires 0 <= d < 10
    ensures IsDigit(c) && DigitValue(c) == d
  {
    ('0' as int + d) as char
  }

  function DigitValue(c: char): int { c as int - '0' as int }

  function Pow10(n: nat): (r: int)
    ensures r > 0
  {
    if n == 0 then 1 else 10 * Pow10(n - 1)
  }

  /** `n` in `width` decimal digits. */
  function Digits(n: nat, width: nat): (s: string)
    ensures |s| == width && AllDigits(s)
    decreases width
  {
    if width == 0 then "" else Digits(n / 10, width - 1) + [DigitChar(n % 10)]
  }

  function Number(s: string): int {
    if s == "" then 0 else 10 * Number(s[..|s| - 1]) + DigitValue(s[|s| - 1])
  }

  lemma {:induction false} NumberOfDigits(n: nat, width: nat)
    requires n < Pow10(width)
    ensures Number(Digits(n, width)) == n
    decreases width
  {
    if width > 0 {
      NumberOfDigits(n / 10, width - 1);
      var s := Digits(n, width);
      assert s[..|s| - 1] == Digits(n / 10, width - 1);
    }
  }

  // ---------------------------------------------------------------- fractions of a second

  /** The fractional digits read as nanoseconds; digits past the ninth are dropped. */
  function FractionNanos(digits: string): int {
    if |digits| > 9 then Number(digits[..9]) else Number(digits) * Pow10(9 - |digits|)
  }

  function FractionDigits(nanos: nat): string { TrimRight(Digits(nanos, 9), IsZero) }

  lemma {:induction false} TrailingZerosDoNotCount(s: string)
    requires |s| <= 9
    ensures FractionNanos(TrimRight(s, IsZero)) == FractionNanos(s)
  {
    if s != "" && IsZero(s[|s| - 1]) {
      var t := s[..|s| - 1];
      TrailingZerosDoNotCount(t);
      ShiftDigit(Number(t), Number(s), Pow10(9 - |s|), Pow10(9 - |t|));
      assert TrimRight(s, IsZero) == TrimRight(t, IsZero);
    }
  }

  lemma ShiftDigit(a: int, b: int, p: int, q: int)
    requires b == 10 * a && q == 10 * p
    ensures b * p == a * q
  {
  }

  lemma FractionRoundTrip(nanos: nat)
    requires nanos < 1_000_000_000
    ensures FractionNanos(FractionDigits(nanos)) == nanos
    ensures AllDigits(FractionDigits(nanos)) && (nanos > 0 ==> FractionDigits(nanos) != "")
  {
    assert Pow10(9) == 1_000_000_000 by {
      assert Pow10(3) == 1000;
      assert Pow10(6) == 1_000_000;
    }
    NumberOfDigits(nanos, 9);
    TrailingZerosDoNotCount(Digits(nanos, 9));
    TrimRightShape(Digits(nanos, 9), IsZero);
  }

  // ---------------------------------------------------------------- format and parse

  function Head(t: Stamp): string {
    Digits(t.year, 4) + "-" + Digits(t.month, 2) + "-" + Digits(t.day, 2) + "T" +
    Digits(t.hour, 2) + ":" + Digits(t.minute, 2) + ":" + Digits(t.second, 2)
  }

  function Tail(t: Stamp): string {
    (if t.nanos == 0 then "" else "." + FractionDigits(t.nanos)) + "Z"
  }

  function Format(t: Stamp): string { Head(t) + Tail(t) }

  /** Number of digits at the start. */
  function DigitRun(s: string): (n: nat)
    ensures n <= |s| && AllDigits(s[..n]) && (n < |s| ==> !IsDigit(s[n]))
  {
    if s == "" || !IsDigit(s[0]) then 0
    else
      var n := DigitRun(s[1..]);
      assert forall i :: 1 <= i <= n ==> s[i] == s[1..][i - 1];
      n + 1
  }

  /** Offset from UTC in minutes: `Z`, or a sign, two digits, a colon and two digits. */
  function ParseZone(s: string): Option<int> {
    if s == "Z" then Some(0)
    else if |s| != 6 || s[3] != ':' then None
    else ZoneOf(s[0], s[1..3], s[4..6])
  }

  function ZoneOf(sign: char, h: string, m: string): Option<int> {
    if (sign != '+' && sign != '-') || !AllDigits(h) || !AllDigits(m) then None
    else Offset(sign, Number(h), Number(m))
  }

  function Offset(sign: char, hours: int, minutes: int): Option<int> {
    if hours > 23 || minutes > 59 then None
    else Some(if sign == '-' then -(hours * 60 + minutes) else hours * 60 + minutes)
  }

  /** An optional fraction, then the zone. */
  function ParseTail(s: string): Option<(int, int)> {
    var n := if |s| >= 1 && s[0] == '.' then DigitRun(s[1..]) else 0;
    var nanos := if n == 0 then 0 else FractionNanos(s[1..n + 1]);
    var zone := ParseZone(if n == 0 then s else s[n + 1..]);
    if zone.None? then None else Some((nanos, zone.value))
  }

  predicate HeadShaped(s: string) {
    && |s| >= 19
    && s[4] == '-' && s[7] == '-' && s[10] == 'T' && s[13] == ':' && s[16] == ':'
    && AllDigits(s[0..4]) && AllDigits(s[5..7]) && AllDigits(s[8..10])
    && AllDigits(s[11..13]) && AllDigits(s[14..16]) && AllDigits(s[17..19])
  }

  lemma {:induction false} NumberIsNat(s: string)
    requires AllDigits(s)
    ensures Number(s) >= 0
  {
    if s != "" {
      NumberIsNat(s[..|s| - 1]);
    }
  }

  function NatOf(s: string): nat
    requires AllDigits(s)
  {
    NumberIsNat(s);
    Number(s)
  }

  function HeadStamp(s: string): Stamp
    requires HeadShaped(s)
  {
    Stamp(NatOf(s[0..4]), NatOf(s[5..7]), NatOf(s[8..10]), NatOf(s[11..13]), NatOf(s[14..16]), NatOf(s[17..19]), 0)
  }

  /** The instant a timestamp text denotes. */
  function Parse(s: string): Option<int> {
    if !HeadShaped(s) || !Valid(HeadStamp(s)) then None
    else
      match ParseTail(s[19..])
      case None => None
      case Some((nanos, zone)) => Some(Instant(HeadStamp(s)) + nanos - zone * 60 * 1_000_000_000)
  }

  lemma HeadLayout(t: Stamp, tail: string)
    ensures |Head(t)| == 19
    ensures HeadShaped(Head(t) + tail) && (Head(t) + tail)[19..] == tail
    ensures var s := Head(t) + tail;
            && s[0..4] == Digits(t.year, 4) && s[5..7] == Digits(t.month, 2) && s[8..10] == Digits(t.day, 2)
            && s[11..13] == Digits(t.hour, 2) && s[14..16] == Digits(t.minute, 2) && s[17..19] == Digits(t.second, 2)
  {
    HeadSlices(Digits(t.year, 4), Digits(t.month, 2), Digits(t.day, 2), Digits(t.hour, 2), Digits(t.minute, 2),
               Digits(t.second, 2), tail);
  }

  lemma HeadSlices(y: string, mo: string, d: string, h: string, mi: string, sec: string, tail: string)
    requires |y| == 4 && |mo| == 2 && |d| == 2 && |h| == 2 && |mi| == 2 && |sec| == 2
    ensures var s := y + "-" + mo + "-" + d + "T" + h + ":" + mi + ":" + sec + tail;
            && |s| == 19 + |tail| && s[19..] == tail
            && s[4] == '-' && s[7] == '-' && s[10] == 'T' && s[13] == ':' && s[16] == ':'
            && s[0..4] == y && s[5..7] == mo && s[8..10] == d && s[11..13] == h && s[14..16] == mi && s[17..19] == sec
  {
    var date, time := y + "-" + mo + "-" + d, h + ":" + mi + ":" + sec;
    var s := y + "-" + mo + "-" + d + "T" + h + ":" + mi + ":" + sec + tail;
    DateSlices(y, mo, d);
    TimeSlices(h, mi, sec);
    assert s == date + ("T" + (time + tail));
    SameSlices(s, date, time, tail);
  }

  lemma DateSlices(y: string, mo: string, d: string)
    requires |y| == 4 && |mo| == 2 && |d| == 2
    ensures var s := y + "-" + mo + "-" + d;
            |s| == 10 && s[4] == '-' && s[7] == '-' && s[0..4] == y && s[5..7] == mo && s[8..10] == d
  {
  }

  lemma TimeSlices(h: string, mi: string, sec: string)
    requires |h| == 2 && |mi| == 2 && |sec| == 2
    ensures var s := h + ":" + mi + ":" + sec;
            |s| == 8 && s[2] == ':' && s[5] == ':' && s[0..2] == h && s[3..5] == mi && s[6..8] == sec
  {
  }

  /** Where the parts of a head lie in the whole. */
  lemma SameSlices(s: string, date: string, time: string, tail: string)
    requires |date| == 10 && |time| == 8 && |s| == 19 + |tail| && s == date + ("T" + (time + tail))
    ensures s[10] == 'T' && s[19..] == tail
    ensures s[4] == date[4] && s[7] == date[7] && s[13] == time[2] && s[16] == time[5]
    ensures s[0..4] == date[0..4] && s[5..7] == date[5..7] && s[8..10] == date[8..10]
    ensures s[11..13] == time[0..2] && s[14..16] == time[3..5] && s[17..19] == time[6..8]
  {
    assert forall i :: 0 <= i < 10 ==> s[i] == date[i];
    assert forall i :: 0 <= i < 8 ==> s[11 + i] == time[i];
  }

  lemma HeadRoundTrip(t: Stamp, tail: string)
    requires Valid(t)
    ensures HeadShaped(Head(t) + tail) && HeadStamp(Head(t) + tail) == t.(nanos := 0)
    ensures (Head(t) + tail)[19..] == tail
  {
    HeadLayout(t, tail);
    assert Pow10(2) == 100 && Pow10(4) == 10000 by {
      assert Pow10(1) == 10 && Pow10(3) == 1000;
    }
    NumberOfDigits(t.year, 4);
    NumberOfDigits(t.month, 2);
    NumberOfDigits(t.day, 2);
    NumberOfDigits(t.hour, 2);
    NumberOfDigits(t.minute, 2);
    NumberOfDigits(t.second, 2);
  }

  lemma {:induction false} DigitRunStops(digits: string, rest: string)
    requires AllDigits(digits) && rest != "" && !IsDigit(rest[0])
    ensures DigitRun(digits + rest) == |digits|
  {
    if digits == "" {
      assert digits + rest == rest;
    } else {
      assert (digits + rest)[1..] == digits[1..] + rest;
      DigitRunStops(digits[1..], rest);
    }
  }

  lemma TailRoundTrip(t: Stamp)
    requires Valid(t)
    ensures ParseTail(Tail(t)) == Some((t.nanos as int, 0))
  {
    if t.nanos > 0 {
      var ds := FractionDigits(t.nanos);
      FractionRoundTrip(t.nanos);
      DigitRunStops(ds, "Z");
      var s := Tail(t);
      assert s == "." + (ds + "Z") && s[1..] == ds + "Z";
      assert s[1..|ds| + 1] == ds && s[|ds| + 1..] == "Z";
    } else {
      assert Tail(t) == "Z";
    }
  }

  /** Reading back a written timestamp gives the same instant. */
  lemma ParseFormat(t: Stamp)
    requires Valid(t)
    ensures Parse(Format(t)) == Some(Instant(t))
  {
    HeadRoundTrip(t, Tail(t));
    TailRoundTrip(t);
    InstantSplits(t);
    ParseParts(Format(t), t.(nanos := 0), t.nanos, 0, Instant(t));
  }

  lemma InstantSplits(t: Stamp)
    ensures Instant(t) == Instant(t.(nanos := 0)) + t.nanos
  {
    assert Days(t.(nanos := 0)) == Days(t);
  }

  lemma ParseParts(s: string, t: Stamp, nanos: int, zone: int, instant: int)
    requires HeadShaped(s) && HeadStamp(s) == t && Valid(t)
    requires ParseTail(s[19..]) == Some((nanos, zone)) && instant == Instant(t) + nanos - zone * 60_000_000_000
    ensures Parse(s) == Some(instant)
  {
  }

  /** No `|` in a timestamp. */
  lemma FormatHasNoBar(t: Stamp)
    ensures '|' !in Format(t)
  {
    var tail := Tail(t);
    TrimRightShape(Digits(t.nanos, 9), IsZero);
    assert '|' !in tail;
    HeadHasNoBar(t);
  }

  lemma HeadHasNoBar(t: Stamp)
    ensures '|' !in Head(t)
  {
    assert forall n: nat, w: nat :: '|' !in Digits(n, w);
  }

  function Zone(sign: char, hours: nat, minutes: nat): (zone: string)
    ensures |zone| == 6 && zone[0] == sign
  {
    [sign] + Digits(hours, 2) + ":" + Digits(minutes, 2)
  }

  /** A text denotes its date and time with the fraction added and the offset from UTC taken away. */
  lemma ParseShifted(t: Stamp, tail: string, nanos: int, zone: int, instant: int)
    requires Valid(t) && ParseTail(tail) == Some((nanos, zone))
    requires instant == Instant(t.(nanos := 0)) + nanos - zone * 60_000_000_000
    ensures Parse(Head(t) + tail) == Some(instant)
  {
    HeadRoundTrip(t, tail);
    ParseParts(Head(t) + tail, t.(nanos := 0), nanos, zone, instant);
  }

  /** An offset is read as its minutes, east of Greenwich positive and west of it negative. */
  lemma ZoneReads(sign: char, hours: nat, minutes: nat)
    requires sign in {'+', '-'} && hours <= 23 && minutes <= 59
    ensures ParseTail(Zone(sign, hours, minutes)) ==
            Some((0, if sign == '+' then hours * 60 + minutes else -(hours * 60 + minutes)))
  {
    ZoneSlices(sign, Digits(hours, 2), Digits(minutes, 2));
    NumberOfTwo(hours);
    NumberOfTwo(minutes);
    TailIsZone(Zone(sign, hours, minutes), Offset(sign, hours, minutes).value);
  }

  lemma TailIsZone(zone: string, minutes: int)
    requires zone != "" && zone[0] != '.' && ParseZone(zone) == Some(minutes)
    ensures ParseTail(zone) == Some((0, minutes))
  {
  }

  lemma NumberOfTwo(n: nat)
    requires n < 100
    ensures Number(Digits(n, 2)) == n
  {
    assert Pow10(2) == 100 by {
      assert Pow10(1) == 10;
    }
    NumberOfDigits(n, 2);
  }

  lemma ZoneSlices(sign: char, h: string, m: string)
    requires |h| == |m| == 2
    ensures var s := [sign] + h + ":" + m;
            |s| == 6 && s != "Z" && s[0] == sign && s[3] == ':' && s[1..3] == h && s[4..6] == m
  {
  }

  // ---------------------------------------------------------------- examples

  lemma OneDigit(n: nat)
    requires n < 10
    ensures Digits(n, 1) == [DigitChar(n)]
  {
    assert n % 10 == n;
  }

  lemma TwoDigits(n: nat)
    requires n < 100
    ensures Digits(n, 2) == [DigitChar(n / 10), DigitChar(n % 10)]
  {
    OneDigit(n / 10);
    assert Digits(n, 2) == Digits(n / 10, 1) + [DigitChar(n % 10)];
  }

  /** How a date and an hour are written. */
  lemma WrittenDigits()
    ensures Digits(2024, 4) == "2024" && Digits(5, 2) == "05" && Digits(1, 2) == "01" && Digits(13, 2) == "13"
  {
    TwoDigits(5);
    TwoDigits(1);
    TwoDigits(13);
    TwoDigits(20);
    assert Digits(202, 3) == Digits(20, 2) + [DigitChar(2)];
    assert Digits(2024, 4) == Digits(202, 3) + [DigitChar(4)];
  }

  /** A time as it stands in a cursor. */
  lemma WrittenStamp()
    ensures Format(Stamp(2024, 5, 1, 13, 1, 5, 0)) == "2024-05-01T13:01:05Z"
  {
    WrittenDigits();
  }
}
