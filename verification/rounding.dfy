/** `round_datetime` (timecalc.py): round an instant to the nearest clock
    interval of `res` minutes. The intervals are counted from the top of the
    instant's hour, a tie goes to the even interval (Python's `round`), the
    seconds are dropped, and a result that would land on hour 24 raises
    ValueError instead of moving to the next day. */
module Rounding {
  import opened Wrappers
  import opened Calendar
  import opened Arith

  function Abs(x: int): nat { if x < 0 then -x else x }

  /** Python's `round(n / d)` for an exact quotient: the nearest integer,
      the even one of two equally near. */
  function RoundHalfEven(n: int, d: int): (q: int)
    requires d > 0
    ensures 2 * Abs(n - q * d) <= d
    ensures 2 * Abs(n - q * d) == d ==> q % 2 == 0
    ensures n >= 0 ==> q >= 0
  {
    var q0, r := n / d, n % d;
    assert n - q0 * d == r;
    assert n - (q0 + 1) * d == r - d;
    if 2 * r < d then q0
    else if 2 * r > d then q0 + 1
    else if q0 % 2 == 0 then q0
    else q0 + 1
  }

  /** No other integer meets the two conditions. */
  lemma {:induction false} RoundHalfEvenUnique(n: int, d: int, q: int)
    requires d > 0
    requires 2 * Abs(n - q * d) <= d
    requires 2 * Abs(n - q * d) == d ==> q % 2 == 0
    ensures q == RoundHalfEven(n, d)
  {
    var p := RoundHalfEven(n, d);
    var e := q - p;
    MulDistributes(q, p, d);
    SmallMultiples(e, d);
  }

  /** The start of the minute and of the hour `t` falls in. */
  function MinuteStart(t: int): int { t - SecondOf(t) }
  function HourStart(t: int): int { t - SecondOf(t) - 60 * MinuteOf(t) }

  /** `round_datetime(t, timedelta(minutes=res))`. */
  function RoundDatetime(t: int, res: int): (r: Result<int, Fault>)
    requires InRange(t) && res > 0
    ensures r.Success? <==> HourOf(t) * 60 + RoundHalfEven(MinuteOf(t), res) * res < 24 * 60
    ensures r.Failure? ==> r.error.ValueError?
    ensures r.Success? ==> InRange(r.value) && r.value / 86400 == t / 86400 && SecondOf(r.value) == 0
    ensures r.Success? ==> r.value == HourStart(t) + RoundHalfEven(MinuteOf(t), res) * (res * 60)
    ensures r.Success? ==> 2 * Abs(r.value - MinuteStart(t)) <= res * 60
    ensures r.Success? && 2 * Abs(r.value - MinuteStart(t)) == res * 60 ==>
      RoundHalfEven(MinuteOf(t), res) % 2 == 0
  {
    var rounded := RoundHalfEven(MinuteOf(t), res) * res;
    RoundedFits(t, res);
    var r := MakeDateTime(DateOf(t), HourOf(t) + rounded / 60, rounded % 60, 0);
    if r.Failure? then r
    else
      RoundedInstant(t, res, r.value);
      RoundedSameDay(t, res, r.value);
      r
  }

  /** A successful rounding stays on the day of `t` and drops the seconds. */
  lemma {:induction false} RoundedSameDay(t: int, res: int, v: int)
    requires InRange(t) && res > 0
    requires var rounded := RoundHalfEven(MinuteOf(t), res) * res;
      MakeDateTime(DateOf(t), HourOf(t) + rounded / 60, rounded % 60, 0) == Success(v)
    ensures v / 86400 == t / 86400 && SecondOf(v) == 0
  {
    var rounded := RoundHalfEven(MinuteOf(t), res) * res;
    InstantOfFields(t);
    ClockOfAt(DateOf(t), HourOf(t), MinuteOf(t), SecondOf(t));
    ClockOfAt(DateOf(t), HourOf(t) + rounded / 60, rounded % 60, 0);
  }

  /** The rounded minute, carried into the hour, is a valid time of day
      exactly when it stays before 24:00. */
  lemma {:induction false} RoundedFits(t: int, res: int)
    requires InRange(t) && res > 0
    ensures var rounded := RoundHalfEven(MinuteOf(t), res) * res;
      ValidTime(HourOf(t) + rounded / 60, rounded % 60, 0) <==> HourOf(t) * 60 + rounded < 24 * 60
  {
    var k := RoundHalfEven(MinuteOf(t), res);
    var rounded := k * res;
    MulMonotone(0, k, res);
    var h, carry, minute := HourOf(t), rounded / 60, rounded % 60;
    InstantOfFields(t);
    assert rounded == 60 * carry + minute && 0 <= minute < 60;
    assert h + carry < 24 <==> h * 60 + rounded < 24 * 60;
  }

  /** Where a successful rounding lands: `k` intervals after the top of the
      hour, `k` the rounded quotient of minutes by the interval. */
  lemma {:induction false} RoundedInstant(t: int, res: int, v: int)
    requires InRange(t) && res > 0
    requires var rounded := RoundHalfEven(MinuteOf(t), res) * res;
      MakeDateTime(DateOf(t), HourOf(t) + rounded / 60, rounded % 60, 0) == Success(v)
    ensures v == HourStart(t) + RoundHalfEven(MinuteOf(t), res) * (res * 60)
    ensures (v - HourStart(t)) % (res * 60) == 0
    ensures (v - HourStart(t)) / (res * 60) == RoundHalfEven(MinuteOf(t), res)
    ensures 2 * Abs(v - MinuteStart(t)) <= res * 60
    ensures 2 * Abs(v - MinuteStart(t)) == res * 60 ==> RoundHalfEven(MinuteOf(t), res) % 2 == 0
  {
    var k := RoundHalfEven(MinuteOf(t), res);
    var rounded := k * res;
    InstantOfFields(t);
    assert rounded == 60 * (rounded / 60) + rounded % 60;
    assert v == HourStart(t) + 60 * rounded;
    MulAssociates(k, res, 60);
    DivMod(v - HourStart(t), res * 60, k, 0);
    assert v - MinuteStart(t) == 60 * (rounded - MinuteOf(t));
  }

  // ---------------------------------------------------------------------
  // Consequences

  /** When the interval divides the hour, a rounded instant is its own
      rounding: the grid is the same in every hour. */
  lemma {:induction false} RoundIdempotent(t: int, res: int)
    requires InRange(t) && res > 0 && 60 % res == 0
    requires RoundDatetime(t, res).Success?
    ensures var v := RoundDatetime(t, res).value; RoundDatetime(v, res) == Success(v)
  {
    var v := RoundDatetime(t, res).value;
    var k := RoundHalfEven(MinuteOf(t), res);
    RoundedInstant(t, res, v);
    MulAssociates(k, res, 60);
    var b := MinuteOfGrid(t, v, k, res);
    MulAssociates(b, res, 1);
    assert 2 * Abs(MinuteOf(v) - b * res) == 0;
    RoundHalfEvenUnique(MinuteOf(v), res, b);
    RoundedAgain(v, res, b);
  }

  /** The minute of a grid instant is a multiple `b` of the interval. */
  lemma {:induction false} MinuteOfGrid(t: int, v: int, k: int, res: int) returns (b: int)
    requires InRange(t) && InRange(v) && res > 0 && 60 % res == 0
    requires SecondOf(v) == 0 && v - HourStart(t) == 60 * (k * res)
    ensures MinuteOf(v) == b * res
  {
    var a;
    a, b := GridSplit(k, res);
    var m := b * res;
    HourSplit(t);
    var hours := t / 3600;
    assert v == 3600 * (hours + a) + 60 * m;
    DivMod(v, 3600, hours + a, 60 * m);
    DivMod(60 * m, 60, m, 0);
  }

  /** When the interval divides the hour, `k` intervals are `a` whole hours
      and `b` intervals within an hour. */
  lemma {:induction false} GridSplit(k: int, res: int) returns (a: int, b: int)
    requires res > 0 && 60 % res == 0
    ensures k * res == a * 60 + b * res && 0 <= b * res < 60
  {
    var q := 60 / res;
    DivMod(60, res, q, 0);
    a := k / q;
    b := k % q;
    DivModSplit(k, q);
    MulDistributes(a * q, b, res);
    MulAssociates(a, q, res);
    MulMonotone(b, q - 1, res);
    MulDistributes(q, 1, res);
    MulMonotone(0, b, res);
  }

  /** An instant is its whole hours, minutes and seconds. */
  lemma {:induction false} HourSplit(t: int)
    requires t >= 0
    ensures t == 3600 * (t / 3600) + 60 * MinuteOf(t) + SecondOf(t)
    ensures HourStart(t) == 3600 * (t / 3600)
  {
    DivMod(t, 3600, t / 3600, t % 3600);
    DivMod(t, 60, t / 60, SecondOf(t));
    DivMod(t, 60, (t / 3600) * 60 + (t % 3600) / 60, (t % 3600) % 60);
    DivMod(t % 3600, 60, MinuteOf(t), SecondOf(t));
  }

  lemma {:induction false} RoundedAgain(v: int, res: int, m: int)
    requires InRange(v) && res > 0 && SecondOf(v) == 0
    requires m * res == MinuteOf(v) && RoundHalfEven(MinuteOf(v), res) == m
    ensures RoundDatetime(v, res) == Success(v)
  {
    InstantOfFields(v);
    assert HourOf(v) * 60 + m * res < 24 * 60;
    MulAssociates(m, res, 60);
    assert RoundDatetime(v, res).value == HourStart(v) + MinuteOf(v) * 60;
  }

  /** With an interval of at most an hour, rounding fails only for instants
      in the last hour of the day. */
  lemma {:induction false} RoundFailsOnlyLate(t: int, res: int)
    requires InRange(t) && 0 < res <= 60
    requires RoundDatetime(t, res).Failure?
    ensures HourOf(t) == 23
  {
    var k := RoundHalfEven(MinuteOf(t), res);
    InstantOfFields(t);
  }

  /** From 23:53 on, the nearest quarter hour is 24:00, which `datetime`
      refuses. */
  lemma {:induction false} RoundPastMidnightFails(t: int)
    requires InRange(t) && HourOf(t) == 23 && MinuteOf(t) >= 53
    ensures RoundDatetime(t, 15).Failure?
  {
    InstantOfFields(t);
    assert RoundHalfEven(MinuteOf(t), 15) == 4;
  }

  /** Where rounding lands once the rounded quotient `k` is known and the
      result stays within the day. */
  lemma {:induction false} RoundsTo(t: int, res: int, k: int)
    requires InRange(t) && res > 0 && RoundHalfEven(MinuteOf(t), res) == k
    requires HourOf(t) * 60 + k * res < 24 * 60
    ensures RoundDatetime(t, res) == Success(HourStart(t) + k * (res * 60))
  {
    RoundedInstant(t, res, RoundDatetime(t, res).value);
  }

  /** A tie goes to the even interval: xx:25 on a ten-minute grid is xx:20,
      not xx:30. */
  lemma {:induction false} RoundTieToEven(t: int)
    requires InRange(t) && MinuteOf(t) == 25 && SecondOf(t) == 0
    ensures RoundDatetime(t, 10) == Success(t - 5 * 60)
  {
    InstantOfFields(t);
    assert RoundHalfEven(25, 10) == 2;
    RoundsTo(t, 10, 2);
  }

  /** On a 90-minute grid, hh:30 rounds down to hh:00. */
  lemma {:induction false} RoundHalfPastOn90(v: int)
    requires InRange(v) && MinuteOf(v) == 30 && SecondOf(v) == 0
    ensures RoundDatetime(v, 90) == Success(HourStart(v))
  {
    InstantOfFields(v);
    assert RoundHalfEven(30, 90) == 0;
    RoundsTo(v, 90, 0);
  }

  /** An hour and a half after hh:50 of an hour before 22:00 is (hh+1):30
      of the same day. */
  lemma {:induction false} HalfPastNextHour(t: int)
    requires InRange(t) && HourOf(t) < 22 && MinuteOf(t) == 50 && SecondOf(t) == 0
    ensures var v := HourStart(t) + 90 * 60;
      InRange(v) && MinuteOf(v) == 30 && SecondOf(v) == 0 && HourStart(v) == HourStart(t) + 60 * 60
  {
    var day, sod := t / 86400, t % 86400;
    DivMod(t, 86400, day, sod);
    assert sod < 22 * 3600;
    assert t + 2400 < (day + 1) * 86400;
    assert day + 1 <= MaxOrdinal;
    HourSplit(t);
    var v := HourStart(t) + 90 * 60;
    assert v == t + 2400;
    DivMod(v, 3600, t / 3600 + 1, 60 * 30);
    DivMod(v, 60, 60 * (t / 3600 + 1) + 30, 0);
  }

  /** When the interval does not divide the hour the grid restarts every
      hour, and rounding twice can move the instant again: on a 90-minute
      grid hh:50 rounds to (hh+1):30, and that to (hh+1):00. */
  lemma {:induction false} RoundNotIdempotent(t: int)
    requires InRange(t) && HourOf(t) < 22 && MinuteOf(t) == 50 && SecondOf(t) == 0
    ensures RoundDatetime(t, 90) == Success(HourStart(t) + 90 * 60)
    ensures RoundDatetime(HourStart(t) + 90 * 60, 90) == Success(HourStart(t) + 60 * 60)
  {
    assert RoundHalfEven(50, 90) == 1;
    RoundsTo(t, 90, 1);
    HalfPastNextHour(t);
    RoundHalfPastOn90(HourStart(t) + 90 * 60);
  }

  /** The interval boundary after `now`: `round_datetime(now + res, res)`,
      the provisional clock-out of an open interval. */
  function NextBoundary(now: int, res: int): (r: Result<int, Fault>)
    requires InRange(now) && res > 0
    ensures r.Success? ==> r.value > now && SecondOf(r.value) == 0
  {
    var later :- AddSeconds(now, res * 60);
    var r := RoundDatetime(later, res);
    if r.Failure? then r
    else
      BoundaryAfter(now, res, later, r.value);
      r
  }

  lemma {:induction false} BoundaryAfter(now: int, res: int, later: int, v: int)
    requires InRange(later) && res > 0 && later == now + res * 60
    requires RoundDatetime(later, res) == Success(v)
    ensures v > now
  {
    InstantOfFields(later);
    assert MinuteStart(later) > later - 60;
    if res == 1 {
      RoundedInstant(later, res, v);
      var k := RoundHalfEven(MinuteOf(later), res);
      assert v - MinuteStart(later) == 60 * (k - MinuteOf(later));
    }
  }
}
