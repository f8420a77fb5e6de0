/**
 * `formatDuration`: the time elapsed since a timestamp, printed in the
 * largest unit that is at least one. The current time is a parameter.
 */
module Duration {
  import opened Strings

  /** Kotlin's `/` on integers: the quotient truncated toward zero */
  function TDiv(a: int, b: int): (q: int)
    requires b > 0
    ensures a >= 0 ==> q == a / b
    ensures a < 0 ==> q <= 0
  {
    if a >= 0 then a / b else -((-a) / b)
  }

  datatype Unit = Years | Months | Days | Hours | Minutes | Seconds

  function Suffix(u: Unit): string {
    match u
    case Years => "yr"
    case Months => "mo"
    case Days => "d"
    case Hours => "hr"
    case Minutes => "min"
    case Seconds => "sec"
  }

  /** `formatDuration(timestamp)` at time `now`, both in milliseconds */
  function FormatDuration(timestamp: int, now: int): string {
    var elapsedTime := now - timestamp;
    var seconds := TDiv(elapsedTime, 1000);
    var minutes := TDiv(seconds, 60);
    var hours := TDiv(minutes, 60);
    var days := TDiv(hours, 24);
    var months := TDiv(days, 30);
    var years := TDiv(days, 365);
    if years > 0 then IntToString(years) + Suffix(Years)
    else if months > 0 then IntToString(months) + Suffix(Months)
    else if days > 0 then IntToString(days) + Suffix(Days)
    else if hours > 0 then IntToString(hours) + Suffix(Hours)
    else if minutes > 0 then IntToString(minutes) + Suffix(Minutes)
    else IntToString(seconds) + Suffix(Seconds)
  }

  // ---------------------------------------------------------------------
  // A reference definition by thresholds
  // ---------------------------------------------------------------------

  const DAY_MILLIS: nat := 86_400_000

  /** Milliseconds in one of each unit */
  function UnitMillis(u: Unit): (m: nat)
    ensures m >= 1000
  {
    match u
    case Years => 365 * DAY_MILLIS
    case Months => 30 * DAY_MILLIS
    case Days => DAY_MILLIS
    case Hours => 3_600_000
    case Minutes => 60_000
    case Seconds => 1000
  }

  /** The largest unit that fits into the elapsed time at least once; seconds otherwise */
  function UnitFor(elapsed: int): Unit {
    if elapsed >= UnitMillis(Years) then Years
    else if elapsed >= UnitMillis(Months) then Months
    else if elapsed >= UnitMillis(Days) then Days
    else if elapsed >= UnitMillis(Hours) then Hours
    else if elapsed >= UnitMillis(Minutes) then Minutes
    else Seconds
  }

  lemma MulAtLeast(x: int, d: int)
    requires x >= 1 && d > 0
    ensures x * d >= d
  {
    assert x * d == (x - 1) * d + d;
  }

  lemma DivUnique(a: int, d: int, q: int, r: int)
    requires d > 0 && 0 <= r < d && a == q * d + r
    ensures a / d == q
  {
    var q', r' := a / d, a % d;
    assert q' * d + r' == q * d + r;
    if q' > q {
      MulAtLeast(q' - q, d);
    } else if q' < q {
      MulAtLeast(q - q', d);
    }
  }

  lemma MulDistrib(q: int, c: int, r: int, b: int)
    ensures (q * c + r) * b == q * (b * c) + r * b
  {
  }

  lemma MulBelow(r: nat, c: nat, b: nat)
    requires r < c
    ensures r * b + b <= b * c
  {
    assert (c - r) * b >= b by { if b > 0 { MulAtLeast(c - r, b); } }
    assert (c - r) * b == c * b - r * b;
  }

  /** Dividing twice is dividing once by the product. */
  lemma DivDiv(a: nat, b: nat, c: nat)
    requires b > 0 && c > 0
    ensures a / b / c == a / (b * c)
  {
    var q1, r1 := a / b, a % b;
    var q2, r2 := q1 / c, q1 % c;
    assert a == q1 * b + r1;
    assert q1 == q2 * c + r2;
    MulDistrib(q2, c, r2, b);
    MulBelow(r2, c, b);
    DivUnique(a, b * c, q2, r2 * b + r1);
  }

  /** A count at least one exactly when the elapsed time reaches the unit's length */
  lemma PositiveIff(e: nat, m: nat)
    requires m > 0
    ensures e / m > 0 <==> e >= m
  {
    if e >= m {
      DivUnique(e, m, 1 + (e - m) / m, (e - m) % m);
    } else {
      DivUnique(e, m, 0, e);
    }
  }

  /**
   * The chain of truncating divisions agrees with the threshold definition:
   * the printed unit is `UnitFor(elapsed)` and the printed number is the
   * elapsed time divided by that unit's length, truncated toward zero.
   */
  lemma FormatDurationByThresholds(timestamp: int, now: int)
    ensures var e := now - timestamp;
      FormatDuration(timestamp, now) == IntToString(TDiv(e, UnitMillis(UnitFor(e)))) + Suffix(UnitFor(e))
  {
    var e := now - timestamp;
    if e >= 0 {
      DivDiv(e, 1000, 60);
      DivDiv(e, 60_000, 60);
      DivDiv(e, 3_600_000, 24);
      DivDiv(e, DAY_MILLIS, 30);
      DivDiv(e, DAY_MILLIS, 365);
      PositiveIff(e, 365 * DAY_MILLIS);
      PositiveIff(e, 30 * DAY_MILLIS);
      PositiveIff(e, DAY_MILLIS);
      PositiveIff(e, 3_600_000);
      PositiveIff(e, 60_000);
    }
  }

  /** Under a minute (including a timestamp in the future) the output is in seconds. */
  lemma UnderAMinute(timestamp: int, now: int)
    requires now - timestamp < 60_000
    ensures FormatDuration(timestamp, now) == IntToString(TDiv(now - timestamp, 1000)) + "sec"
  {
    FormatDurationByThresholds(timestamp, now);
  }

  /** A timestamp in the future prints a non-positive number of seconds. */
  lemma FutureTimestamp(timestamp: int, now: int)
    requires now < timestamp
    ensures exists n: int :: n <= 0 && FormatDuration(timestamp, now) == IntToString(n) + "sec"
  {
    UnderAMinute(timestamp, now);
  }

  /** Thirty days up to a year are reported in months, a year or more in years. */
  lemma MonthsAndYears(timestamp: int, now: int)
    ensures var days := TDiv(now - timestamp, DAY_MILLIS);
      (30 <= days < 365 ==> FormatDuration(timestamp, now) == IntToString(days / 30) + "mo")
      && (days >= 365 ==> FormatDuration(timestamp, now) == IntToString(days / 365) + "yr")
  {
    var e := now - timestamp;
    FormatDurationByThresholds(timestamp, now);
    if e >= 0 {
      var days := e / DAY_MILLIS;
      DivDiv(e, DAY_MILLIS, 30);
      DivDiv(e, DAY_MILLIS, 365);
      PositiveIff(e, 365 * DAY_MILLIS);
      PositiveIff(e, 30 * DAY_MILLIS);
      PositiveIff(days, 365);
      PositiveIff(days, 30);
    }
  }

  /** The output is always a decimal number followed by one unit suffix. */
  lemma FormatDurationShape(timestamp: int, now: int)
    ensures exists n: int, u: Unit :: FormatDuration(timestamp, now) == IntToString(n) + Suffix(u)
  {
    var e := now - timestamp;
    FormatDurationByThresholds(timestamp, now);
    var n := TDiv(e, UnitMillis(UnitFor(e)));
    assert FormatDuration(timestamp, now) == IntToString(n) + Suffix(UnitFor(e));
  }
}
