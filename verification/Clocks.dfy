/** Times of day in whole minutes, calendar dates, and their texts. */
module Clocks {
  import opened Wrappers
  import opened Texts

  const MINUTES_PER_HOUR := 60
  const MINUTES_PER_DAY := 24 * MINUTES_PER_HOUR
  const CLOCK_LAYOUT_LENGTH := 5

  /** Minutes since midnight, or no time at all. */
  datatype Clock = Clock(minutes: int, set_: bool)

  const NO_TIME := Clock(0, false)

  /** What the domain stores: a minute of the day, or no time at all. */
  predicate ValidClock(clock: Clock) {
    if clock.set_ then 0 <= clock.minutes < MINUTES_PER_DAY else clock == NO_TIME
  }

  function NewClock(minutes: int): Option<Clock> {
    if minutes < 0 || minutes >= MINUTES_PER_DAY then None else Some(Clock(minutes, true))
  }

  // Digits.

  function Digit(n: nat): (c: char)
    requires n < 10
    ensures '0' <= c <= '9'
  {
    '0' + n as char
  }

  predicate IsDigit(c: char) { '0' <= c <= '9' }

  /** Decimal digits of n, padded with zeros to at least the width. */
  function Padded(n: nat, width: nat): (text: string)
    ensures |text| >= width && |text| >= 1 && forall i :: 0 <= i < |text| ==> IsDigit(text[i])
    decreases n + width
  {
    if n < 10 && width <= 1 then [Digit(n)]
    else Padded(n / 10, if width == 0 then 0 else width - 1) + [Digit(n % 10)]
  }

  predicate AllDigits(text: string) { forall i :: 0 <= i < |text| ==> IsDigit(text[i]) }

  function ReadDigits(text: string): nat
    requires AllDigits(text)
  {
    if text == [] then 0 else ReadDigits(text[..|text| - 1]) * 10 + (text[|text| - 1] - '0') as nat
  }

  function Power10(n: nat): nat { if n == 0 then 1 else 10 * Power10(n - 1) }

  /** Padded digits read back as the number, and take exactly the width when it fits. */
  lemma {:induction false} PaddedReads(n: nat, width: nat)
    ensures ReadDigits(Padded(n, width)) == n
    ensures width > 0 ==> (|Padded(n, width)| == width <==> n < Power10(width))
    decreases n + width
  {
    var text := Padded(n, width);
    if n < 10 && width <= 1 {
      assert text[..0] == [];
    } else {
      var front := Padded(n / 10, if width == 0 then 0 else width - 1);
      PaddedReads(n / 10, if width == 0 then 0 else width - 1);
      assert text[..|text| - 1] == front;
      if width > 1 {
        assert n / 10 < Power10(width - 1) <==> n < 10 * Power10(width - 1);
      } else if width == 1 {
        assert Power10(1) == 10 * Power10(0);
      }
    }
  }

  /** Numbers padded to one width come one before another as their texts do. */
  lemma {:induction false} PaddedSooner(n: nat, m: nat, width: nat)
    requires 0 < width && n < Power10(width) && m < Power10(width)
    ensures |Padded(n, width)| == |Padded(m, width)| == width
    ensures Sooner(Padded(n, width), Padded(m, width)) <==> n < m
    ensures Padded(n, width) == Padded(m, width) <==> n == m
  {
    PaddedReads(n, width);
    PaddedReads(m, width);
    if width == 1 {
      assert Power10(1) == 10 * Power10(0);
      SoonerDigits(n, m);
    } else {
      PaddedSooner(n / 10, m / 10, width - 1);
      SoonerJoined(Padded(n / 10, width - 1), Padded(m / 10, width - 1), [Digit(n % 10)], [Digit(m % 10)]);
      SoonerDigits(n % 10, m % 10);
    }
  }

  lemma SoonerDigits(n: nat, m: nat)
    requires n < 10 && m < 10
    ensures Sooner([Digit(n)], [Digit(m)]) <==> n < m
    ensures Digit(n) == Digit(m) <==> n == m
  {
    assert [Digit(n)][1..] == "" && [Digit(m)][1..] == "";
  }

  const MIN_INT64 := -0x8000_0000_0000_0000
  const MAX_INT64 := 0x7fff_ffff_ffff_ffff

  /** The number a decimal text spells, with or without a sign, when an int64 holds them. */
  function ParseInt64(text: string): Option<int> {
    var signed := text != "" && (text[0] == '-' || text[0] == '+');
    var digits := if signed then text[1..] else text;
    if digits == "" || !AllDigits(digits) then None
    else
      var value := if text[0] == '-' then -(ReadDigits(digits) as int) else ReadDigits(digits) as int;
      if MIN_INT64 <= value <= MAX_INT64 then Some(value) else None
  }

  /** A number written plainly is read back. */
  lemma NumberReadsBack(n: nat)
    requires n <= MAX_INT64
    ensures ParseInt64(Padded(n, 1)) == Some(n)
  {
    PaddedReads(n, 1);
    assert IsDigit(Padded(n, 1)[0]);
  }

  // Times of day.

  /** Read as a decimal number when both characters are digits. */
  function TwoDigits(pair: string): Option<nat>
    requires |pair| == 2
  {
    if IsDigit(pair[0]) && IsDigit(pair[1]) then Some((pair[0] - '0') as nat * 10 + (pair[1] - '0') as nat) else None
  }

  function SplitClock(text: string): Option<(nat, nat)> {
    if |text| != CLOCK_LAYOUT_LENGTH || text[2] != ':' then None
    else
      var hours, minutes := TwoDigits(text[..2]), TwoDigits(text[3..]);
      if hours.Some? && minutes.Some? then Some((hours.value, minutes.value)) else None
  }

  function ParseClock(text: string): Option<Clock> {
    var split := SplitClock(text);
    if split.None? || split.value.1 >= MINUTES_PER_HOUR then None
    else NewClock(split.value.0 * MINUTES_PER_HOUR + split.value.1)
  }

  function ClockText(clock: Clock): string
    requires ValidClock(clock)
  {
    if !clock.set_ then ""
    else Padded(clock.minutes / MINUTES_PER_HOUR, 2) + ":" + Padded(clock.minutes % MINUTES_PER_HOUR, 2)
  }

  lemma TwoDigitsPadded(n: nat)
    requires n < 100
    ensures |Padded(n, 2)| == 2 && TwoDigits(Padded(n, 2)) == Some(n)
  {
    assert Padded(n / 10, 1) == [Digit(n / 10)];
    assert Padded(n, 2) == [Digit(n / 10), Digit(n % 10)];
  }

  /** A time of day printed reads back as itself. */
  lemma ClockReadsBack(clock: Clock)
    requires ValidClock(clock) && clock.set_
    ensures |ClockText(clock)| == CLOCK_LAYOUT_LENGTH && ParseClock(ClockText(clock)) == Some(clock)
  {
    var hours, minutes := clock.minutes / MINUTES_PER_HOUR, clock.minutes % MINUTES_PER_HOUR;
    TwoDigitsPadded(hours);
    TwoDigitsPadded(minutes);
    var text := ClockText(clock);
    assert text[..2] == Padded(hours, 2) && text[3..] == Padded(minutes, 2) && text[2] == ':';
  }

  /** Only the printed text of a valid time of day is read: no two texts read as one time. */
  lemma ReadsOnlyPrinted(text: string)
    requires ParseClock(text).Some?
    ensures ValidClock(ParseClock(text).value) && ClockText(ParseClock(text).value) == text
  {
    var (hours, minutes) := SplitClock(text).value;
    var clock := ParseClock(text).value;
    assert clock.minutes / MINUTES_PER_HOUR == hours && clock.minutes % MINUTES_PER_HOUR == minutes;
    PairPadded(text[..2]);
    PairPadded(text[3..]);
    assert text == text[..2] + ":" + text[3..];
  }

  lemma PairPadded(pair: string)
    requires |pair| == 2 && TwoDigits(pair).Some?
    ensures Padded(TwoDigits(pair).value, 2) == pair
  {
    var n := TwoDigits(pair).value;
    var tens, ones := (pair[0] - '0') as nat, (pair[1] - '0') as nat;
    assert n / 10 == tens && n % 10 == ones;
    assert Padded(n / 10, 1) == [Digit(tens)];
    assert pair == [pair[0], pair[1]];
  }

  // Calendar dates.

  datatype Date = Date(year: int, month: nat, day: nat)

  predicate Leap(year: int) { year % 4 == 0 && (year % 100 != 0 || year % 400 == 0) }

  function DaysIn(month: nat, year: int): nat {
    if month == 2 then (if Leap(year) then 29 else 28)
    else if month in {4, 6, 9, 11} then 30 else 31
  }

  predicate ValidDate(date: Date) {
    1 <= date.month <= 12 && 1 <= date.day <= DaysIn(date.month, date.year)
  }

  /** YYYY-MM-DD, a longer year written whole and an earlier one with its sign. */
  function DateText(date: Date): string
    requires ValidDate(date)
  {
    (if date.year < 0 then "-" + Padded(-date.year, 4) else Padded(date.year, 4))
    + "-" + Padded(date.month, 2) + "-" + Padded(date.day, 2)
  }

  /** Reads a date written exactly as YYYY-MM-DD. */
  function ParseDate(text: string): Option<Date> {
    if |text| != 10 || text[4] != '-' || text[7] != '-' || !AllDigits(text[..4]) then None
    else
      var month, day := TwoDigits(text[5..7]), TwoDigits(text[8..]);
      if month.None? || day.None? then None
      else
        var date := Date(ReadDigits(text[..4]), month.value, day.value);
        if ValidDate(date) then Some(date) else None
  }

  /** A date printed reads back as itself exactly in the years 0 to 9999; otherwise it is refused. */
  lemma DateReadsBack(date: Date)
    requires ValidDate(date)
    ensures ParseDate(DateText(date)) == if 0 <= date.year < 10000 then Some(date) else None
  {
    var text := DateText(date);
    var year := if date.year < 0 then "-" + Padded(-date.year, 4) else Padded(date.year, 4);
    TwoDigitsPadded(date.month);
    TwoDigitsPadded(date.day);
    assert text == year + "-" + Padded(date.month, 2) + "-" + Padded(date.day, 2);
    if 0 <= date.year {
      PaddedReads(date.year, 4);
      assert Power10(4) == 10000;
      if date.year < 10000 {
        assert text[..4] == year && text[5..7] == Padded(date.month, 2) && text[8..] == Padded(date.day, 2);
      }
    } else {
      assert text[..4][0] == '-';
    }
  }
}
