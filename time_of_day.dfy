/**
  Wall-clock time of day shared by both controllers: the hours, minutes and
  seconds triple, its count of seconds since midnight, the wrap-around
  arithmetic used when a field is edited, and the two-digit zero padding
  used on the display.
 */
module TimeOfDay {

  const SecondsPerDay: int := 86400

  /** An hours, minutes, seconds triple. The fields are unbounded
      integers, as the source's variables are; ValidTime is the range the
      controllers keep. */
  datatype Time = Time(hours: int, minutes: int, seconds: int)

  predicate ValidTime(t: Time) {
    0 <= t.hours < 24 && 0 <= t.minutes < 60 && 0 <= t.seconds < 60
  }

  /** Seconds since midnight: the reference against which ticking is specified. */
  function SecondOfDay(t: Time): int {
    t.hours * 3600 + t.minutes * 60 + t.seconds
  }

  lemma SecondOfDayRange(t: Time)
    requires ValidTime(t)
    ensures 0 <= SecondOfDay(t) < SecondsPerDay
  {
  }

  /** The time of day that lies n seconds after midnight. */
  function FromSecondOfDay(n: int): (t: Time)
    requires 0 <= n < SecondsPerDay
    ensures ValidTime(t)
    ensures SecondOfDay(t) == n
  {
    Time(n / 3600, n % 3600 / 60, n % 60)
  }

  /** A valid time is determined by its second of the day. */
  lemma {:induction false} SecondOfDayRoundTrip(t: Time)
    requires ValidTime(t)
    ensures 0 <= SecondOfDay(t) < SecondsPerDay
    ensures FromSecondOfDay(SecondOfDay(t)) == t
  {
    var n := SecondOfDay(t);
    var rest := t.minutes * 60 + t.seconds;
    assert 0 <= rest < 3600;
    assert n == t.hours * 3600 + rest;
    assert n / 3600 == t.hours;
    assert n % 3600 == rest;
    assert rest / 60 == t.minutes;
    assert n % 60 == t.seconds;
  }

  lemma SecondOfDayInjective(a: Time, b: Time)
    requires ValidTime(a) && ValidTime(b)
    requires SecondOfDay(a) == SecondOfDay(b)
    ensures a == b
  {
    SecondOfDayRoundTrip(a);
    SecondOfDayRoundTrip(b);
  }

  /** `(x + delta) % n` with a positive modulus. Python's `%` floors, which for a
      positive modulus gives the same non-negative remainder as Dafny's
      Euclidean `%`, so `(0 - 1) % 24` is 23 in both. */
  function Shift(x: int, delta: int, n: int): (r: int)
    requires n > 0
    ensures 0 <= r < n
    ensures 0 <= x + delta < n ==> r == x + delta
    ensures x + delta == n ==> r == 0
    ensures x + delta == -1 ==> r == n - 1
  {
    (x + delta) % n
  }

  /** Stepping a field up and then down (or down and then up) restores it. */
  lemma ShiftUpDown(x: int, n: int)
    requires 0 <= x < n
    ensures Shift(Shift(x, 1, n), -1, n) == x
    ensures Shift(Shift(x, -1, n), 1, n) == x
  {
    if x + 1 == n {
      assert Shift(x, 1, n) == 0;
    }
    if x == 0 {
      assert Shift(x, -1, n) == n - 1;
    }
  }

  function Digit(d: int): (c: char)
    requires 0 <= d < 10
  {
    ('0' as int + d) as char
  }

  function DigitValue(c: char): int {
    c as int - '0' as int
  }

  predicate IsDigit(c: char) {
    '0' <= c <= '9'
  }

  /** Two-digit zero padding, the `{:02d}` format of a value below 100. */
  function Pad2(n: int): (s: string)
    requires 0 <= n < 100
    ensures |s| == 2 && IsDigit(s[0]) && IsDigit(s[1])
    ensures DigitValue(s[0]) * 10 + DigitValue(s[1]) == n
    ensures n < 10 ==> s[0] == '0'
  {
    [Digit(n / 10), Digit(n % 10)]
  }
}
