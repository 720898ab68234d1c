/** `calculate_time_table`, `calculate_summary` and the provisional marking
    of `display_clocktable` (timecalc.py): pair the day's rounded clock-ins
    and clock-outs into rows, close an open interval at the next interval
    boundary after now, and derive whether the user is clocked in, the work
    time still owed and the clock-out time that settles it. */
module TimeTable {
  import opened Wrappers
  import opened Calendar
  import opened Arith
  import opened Rounding

  /** One row of the time table: the `in`, `out` and `duration` columns. */
  datatype Row = Row(clockIn: int, clockOut: int, duration: int)

  predicate AllInRange(ts: seq<int>) { forall k :: 0 <= k < |ts| ==> InRange(ts[k]) }

  /** `[round_datetime(dt, res) for dt in ts]`: the first rounding that
      raises ends the list. */
  function RoundAll(ts: seq<int>, res: int): (r: Result<seq<int>, Fault>)
    requires AllInRange(ts) && res > 0
    ensures r.Success? <==> forall k :: 0 <= k < |ts| ==> RoundDatetime(ts[k], res).Success?
    ensures r.Success? ==> |r.value| == |ts|
    ensures r.Success? ==> forall k :: 0 <= k < |ts| ==> RoundDatetime(ts[k], res) == Success(r.value[k])
    ensures r.Failure? ==> r.error.ValueError?
  {
    RoundPrefix(ts, res, |ts|)
  }

  /** The roundings of the first `n` elements of `ts`, in order: a failure
      among them is the first one met. */
  function RoundPrefix(ts: seq<int>, res: int, n: nat): (r: Result<seq<int>, Fault>)
    requires AllInRange(ts) && res > 0 && n <= |ts|
    ensures r.Success? <==> forall k :: 0 <= k < n ==> RoundDatetime(ts[k], res).Success?
    ensures r.Success? ==> |r.value| == n
    ensures r.Success? ==> forall k :: 0 <= k < n ==> RoundDatetime(ts[k], res) == Success(r.value[k])
    ensures r.Failure? ==> r.error.ValueError?
  {
    if n == 0 then Success([])
    else
      var init :- RoundPrefix(ts, res, n - 1);
      var last :- RoundDatetime(ts[n - 1], res);
      Success(init + [last])
  }

  /** What `datetime - None` raises. */
  const MissingClockIn: Fault := TypeError("unsupported operand type(s) for -: 'datetime.datetime' and 'NoneType'")

  /** Rows of matching clock-ins and clock-outs. */
  function Pair(ins: seq<int>, outs: seq<int>): (rows: seq<Row>)
    requires |ins| == |outs|
    ensures |rows| == |ins|
    ensures forall i :: 0 <= i < |rows| ==> rows[i] == Row(ins[i], outs[i], outs[i] - ins[i])
  {
    seq(|ins|, i requires 0 <= i < |ins| => Row(ins[i], outs[i], outs[i] - ins[i]))
  }

  function Repeat(x: int, n: nat): (r: seq<int>)
    ensures |r| == n && forall i :: 0 <= i < n ==> r[i] == x
  {
    if n == 0 then [] else [x] + Repeat(x, n - 1)
  }

  /** `display_clocktable` shows a row parenthesised, as not yet worked,
      unless its clock-out lies strictly before now. */
  predicate ShownProvisional(row: Row, now: int) {
    !(row.clockOut < now)
  }

  /** `calculate_time_table`. An empty result is the empty dictionary the
      code returns for a day without clock-ins. The clock-outs missing at
      the end are all filled with the next interval boundary after `now`,
      which is only computed when one is missing. */
  function CalculateTimeTable(ins: seq<int>, outs: seq<int>, now: int, res: int): (r: Result<seq<Row>, Fault>)
    requires AllInRange(ins) && AllInRange(outs) && InRange(now) && res > 0
    ensures r.Success? ==> |r.value| == |ins| && |outs| <= |ins|
    ensures r.Success? ==> forall i :: 0 <= i < |ins| ==>
      && RoundDatetime(ins[i], res) == Success(r.value[i].clockIn)
      && r.value[i].duration == r.value[i].clockOut - r.value[i].clockIn
      && InRange(r.value[i].clockIn) && InRange(r.value[i].clockOut)
      && (i < |outs| ==> RoundDatetime(outs[i], res) == Success(r.value[i].clockOut))
      && (|outs| <= i ==> NextBoundary(now, res) == Success(r.value[i].clockOut) && r.value[i].clockOut > now && ShownProvisional(r.value[i], now))
    ensures r.Success? <==>
      && RoundAll(ins, res).Success? && RoundAll(outs, res).Success? && |outs| <= |ins|
      && (|outs| < |ins| ==> NextBoundary(now, res).Success?)
    ensures RoundAll(ins, res).Success? && RoundAll(outs, res).Success? && |outs| > |ins| ==>
      r == Failure(MissingClockIn)
  {
    var roundedIn :- RoundAll(ins, res);
    var roundedOut :- RoundAll(outs, res);
    if |roundedOut| > |roundedIn| then Failure(MissingClockIn)
    else if |roundedOut| == |roundedIn| then
      TableRows(ins, outs, res, roundedIn, roundedOut, now, now);
      Success(Pair(roundedIn, roundedOut))
    else
      var next :- NextBoundary(now, res);
      assert InRange(next) by {
        var later := AddSeconds(now, res * 60).value;
        assert RoundDatetime(later, res) == Success(next);
      }
      TableRows(ins, outs, res, roundedIn, roundedOut, now, next);
      Success(Pair(roundedIn, roundedOut + Repeat(next, |roundedIn| - |roundedOut|)))
  }

  /** The rows paired from the roundings, with the missing clock-outs set to
      `next`. */
  lemma {:induction false} TableRows(ins: seq<int>, outs: seq<int>, res: int, roundedIn: seq<int>, roundedOut: seq<int>, now: int, next: int)
    requires AllInRange(ins) && AllInRange(outs) && res > 0 && |outs| <= |ins|
    requires |roundedIn| == |ins| && |roundedOut| == |outs|
    requires forall k :: 0 <= k < |ins| ==> RoundDatetime(ins[k], res) == Success(roundedIn[k])
    requires forall k :: 0 <= k < |outs| ==> RoundDatetime(outs[k], res) == Success(roundedOut[k])
    requires |outs| < |ins| ==> InRange(next) && next > now
    ensures var rows := Pair(roundedIn, roundedOut + Repeat(next, |roundedIn| - |roundedOut|));
      forall i :: 0 <= i < |ins| ==>
        && RoundDatetime(ins[i], res) == Success(rows[i].clockIn)
        && rows[i].duration == rows[i].clockOut - rows[i].clockIn
        && InRange(rows[i].clockIn) && InRange(rows[i].clockOut)
        && (i < |outs| ==> RoundDatetime(outs[i], res) == Success(rows[i].clockOut))
        && (|outs| <= i ==> rows[i].clockOut == next && rows[i].clockOut > now && ShownProvisional(rows[i], now))
  {
    var filled := roundedOut + Repeat(next, |roundedIn| - |roundedOut|);
    assert forall i :: 0 <= i < |outs| ==> filled[i] == roundedOut[i];
    assert forall i :: |outs| <= i < |ins| ==> filled[i] == next;
  }

  // ---------------------------------------------------------------------
  // calculate_summary

  /** `(is_in, time_remaining, time_to_out)`. */
  datatype Summary = Summary(isIn: bool, remaining: int, timeToOut: Option<int>)

  function Last(rows: seq<Row>): Row
    requires rows != []
  {
    rows[|rows| - 1]
  }

  /** `sum(times_dict['duration'], timedelta())`. */
  function TotalDuration(rows: seq<Row>): int {
    if rows == [] then 0 else TotalDuration(rows[..|rows| - 1]) + Last(rows).duration
  }

  /** `calculate_summary` with `target` the day's work time, WORK_HOURS. */
  function CalculateSummary(rows: seq<Row>, now: int, target: int): (r: Result<Summary, Fault>)
    requires forall i :: 0 <= i < |rows| ==> InRange(rows[i].clockOut)
    ensures rows == [] ==> r == Success(Summary(false, target, None))
    ensures r.Success? ==> r.value.remaining + TotalDuration(rows) == target
    ensures r.Success? && rows != [] ==> (r.value.isIn <==> Last(rows).clockOut > now)
    ensures r.Success? ==> (r.value.timeToOut.Some? <==> r.value.isIn)
    ensures r.Success? && r.value.timeToOut.Some? ==>
      r.value.timeToOut.value - Last(rows).clockOut == r.value.remaining
    ensures r.Failure? <==>
      rows != [] && Last(rows).clockOut > now && !InRange(Last(rows).clockOut + target - TotalDuration(rows))
    ensures r.Failure? ==> r.error.OverflowError?
  {
    if rows == [] then Success(Summary(false, target, None))
    else
      var remaining := target - TotalDuration(rows);
      var isIn := Last(rows).clockOut > now;
      if isIn then
        var timeToOut :- AddSeconds(Last(rows).clockOut, remaining);
        Success(Summary(true, remaining, Some(timeToOut)))
      else Success(Summary(false, remaining, None))
  }

  /** Clocking out at `time_to_out` instead of the last row's clock-out makes
      the day's total exactly the target. */
  lemma {:induction false} ClockOutCompletesTarget(rows: seq<Row>, now: int, target: int)
    requires forall i :: 0 <= i < |rows| ==> InRange(rows[i].clockOut)
    requires forall i :: 0 <= i < |rows| ==> rows[i].duration == rows[i].clockOut - rows[i].clockIn
    requires CalculateSummary(rows, now, target).Success?
    requires CalculateSummary(rows, now, target).value.isIn
    ensures var out := CalculateSummary(rows, now, target).value.timeToOut.value;
      var last := Last(rows);
      TotalDuration(rows[..|rows| - 1] + [Row(last.clockIn, out, out - last.clockIn)]) == target
  {
    var out := CalculateSummary(rows, now, target).value.timeToOut.value;
    var last := Last(rows);
    var changed := rows[..|rows| - 1] + [Row(last.clockIn, out, out - last.clockIn)];
    assert changed[..|changed| - 1] == rows[..|rows| - 1];
  }

  /** A day with more clock-ins than clock-outs reports the user as clocked
      in, with a clock-out time. */
  lemma {:induction false} OpenDayIsIn(ins: seq<int>, outs: seq<int>, now: int, res: int, target: int)
    requires AllInRange(ins) && AllInRange(outs) && InRange(now) && res > 0
    requires CalculateTimeTable(ins, outs, now, res).Success? && |outs| < |ins|
    ensures var rows := CalculateTimeTable(ins, outs, now, res).value;
      var s := CalculateSummary(rows, now, target);
      s.Success? ==> s.value.isIn && s.value.timeToOut.Some?
  {
    var rows := CalculateTimeTable(ins, outs, now, res).value;
    var i := |ins| - 1;
    assert |rows| == |ins| && rows[i].clockOut > now;
    assert Last(rows).clockOut > now;
  }

  // ---------------------------------------------------------------------
  // Worked days, on the quarter-hour grid with an eight-hour target.
  // `d` is the midnight that starts the day.

  /** The instant at hh:mm of the day starting at `d`. */
  function Clock(d: int, hh: int, mm: int): int { d + hh * 3600 + mm * 60 }

  predicate Midnight(d: int) {
    d % 86400 == 0 && InRange(d) && InRange(d + 86400 - 1)
  }

  lemma {:induction false} ClockFields(d: int, hh: int, mm: int)
    requires Midnight(d) && 0 <= hh < 24 && 0 <= mm < 60
    ensures InRange(Clock(d, hh, mm))
    ensures HourOf(Clock(d, hh, mm)) == hh && MinuteOf(Clock(d, hh, mm)) == mm
    ensures SecondOf(Clock(d, hh, mm)) == 0
    ensures HourStart(Clock(d, hh, mm)) == Clock(d, hh, 0)
  {
    SplitInstant(d / 86400, hh, mm, 0);
    DivMod(d, 86400, d / 86400, 0);
  }

  /** An instant on the grid rounds to itself. */
  lemma {:induction false} OnGrid(d: int, hh: int, mm: int)
    requires Midnight(d) && 0 <= hh < 24 && 0 <= mm < 60 && mm % 15 == 0
    ensures RoundDatetime(Clock(d, hh, mm), 15) == Success(Clock(d, hh, mm))
  {
    var t := Clock(d, hh, mm);
    ClockFields(d, hh, mm);
    var k := mm / 15;
    RoundHalfEvenUnique(mm, 15, k);
    RoundedAgain(t, 15, k);
  }

  /** The boundary after hh:mm: round(hh:mm + 15 minutes) lands `k` quarters
      into hour `hh`. */
  lemma {:induction false} BoundaryAt(d: int, hh: int, mm: int, k: int)
    requires Midnight(d) && 0 <= hh < 23 && 0 <= mm < 45
    requires RoundHalfEven(mm + 15, 15) == k && k * 15 < 60
    ensures NextBoundary(Clock(d, hh, mm), 15) == Success(Clock(d, hh, k * 15))
  {
    var now := Clock(d, hh, mm);
    var later := Clock(d, hh, mm + 15);
    assert AddSeconds(now, 15 * 60) == Success(later);
    assert Clock(d, hh, 0) + k * (15 * 60) == Clock(d, hh, k * 15);
    ClockFields(d, hh, mm + 15);
    RoundsTo(later, 15, k);
  }

  /** The rows of the worked day below. */
  function WorkedRows(d: int): seq<Row> {
    [Row(Clock(d, 9, 0), Clock(d, 12, 0), 3 * 3600), Row(Clock(d, 13, 0), Clock(d, 14, 30), 90 * 60)]
  }

  /** Clocked in at 09:00, out at 12:00, in again at 13:00, with the server
      at 14:10: the open interval closes at 14:30 (14:25 rounded). */
  lemma {:induction false} WorkedDayTable(d: int)
    requires Midnight(d)
    ensures CalculateTimeTable([Clock(d, 9, 0), Clock(d, 13, 0)], [Clock(d, 12, 0)], Clock(d, 14, 10), 15)
      == Success(WorkedRows(d))
  {
    OnGrid(d, 9, 0);
    OnGrid(d, 13, 0);
    OnGrid(d, 12, 0);
    assert RoundHalfEven(25, 15) == 2;
    BoundaryAt(d, 14, 10, 2);
    ClockFields(d, 14, 10);
    TwoInsOneOut(Clock(d, 9, 0), Clock(d, 13, 0), Clock(d, 12, 0), Clock(d, 14, 10), Clock(d, 14, 30), 15);
  }

  /** Instants whose roundings are known round, as a list, to exactly those. */
  lemma {:induction false} RoundAllIs(ts: seq<int>, res: int, vs: seq<int>)
    requires AllInRange(ts) && res > 0 && |vs| == |ts|
    requires forall k :: 0 <= k < |ts| ==> RoundDatetime(ts[k], res) == Success(vs[k])
    ensures RoundAll(ts, res) == Success(vs)
  {
    var r := RoundAll(ts, res);
    assert r.Success?;
    assert r.value == vs;
  }

  lemma {:induction false} RoundAllOne(a: int, res: int, va: int)
    requires InRange(a) && res > 0 && RoundDatetime(a, res) == Success(va)
    ensures RoundAll([a], res) == Success([va])
  {
    RoundAllIs([a], res, [va]);
  }

  lemma {:induction false} RoundAllTwo(a: int, b: int, res: int, va: int, vb: int)
    requires InRange(a) && InRange(b) && res > 0
    requires RoundDatetime(a, res) == Success(va) && RoundDatetime(b, res) == Success(vb)
    ensures RoundAll([a, b], res) == Success([va, vb])
  {
    RoundAllIs([a, b], res, [va, vb]);
  }

  /** A table of two clock-ins and one clock-out, all on the grid. */
  lemma {:induction false} TwoInsOneOut(in1: int, in2: int, out1: int, now: int, next: int, res: int)
    requires InRange(in1) && InRange(in2) && InRange(out1) && InRange(now) && res > 0
    requires RoundDatetime(in1, res) == Success(in1) && RoundDatetime(in2, res) == Success(in2)
    requires RoundDatetime(out1, res) == Success(out1) && NextBoundary(now, res) == Success(next)
    ensures CalculateTimeTable([in1, in2], [out1], now, res)
      == Success([Row(in1, out1, out1 - in1), Row(in2, next, next - in2)])
  {
    assert [out1] + Repeat(next, 1) == [out1, next];
    var rows := Pair([in1, in2], [out1, next]);
    assert rows[0] == Row(in1, out1, out1 - in1) && rows[1] == Row(in2, next, next - in2);
    assert rows == [Row(in1, out1, out1 - in1), Row(in2, next, next - in2)];
    RoundAllTwo(in1, in2, res, in1, in2);
    RoundAllOne(out1, res, out1);
  }

  /** A table of one clock-in and one clock-out. */
  lemma {:induction false} OneInOneOut(in1: int, out1: int, rounded: int, now: int, res: int)
    requires InRange(in1) && InRange(out1) && InRange(now) && res > 0
    requires RoundDatetime(in1, res) == Success(in1) && RoundDatetime(out1, res) == Success(rounded)
    ensures CalculateTimeTable([in1], [out1], now, res) == Success([Row(in1, rounded, rounded - in1)])
  {
    var rows := Pair([in1], [rounded]);
    assert rows[0] == Row(in1, rounded, rounded - in1);
    assert rows == [Row(in1, rounded, rounded - in1)];
    RoundAllOne(in1, res, in1);
    RoundAllOne(out1, res, rounded);
  }

  /** On those rows 4:30 is counted, 3:30 remains and the clock-out time is
      18:00. */
  lemma {:induction false} WorkedDaySummary(d: int)
    requires Midnight(d)
    ensures CalculateSummary(WorkedRows(d), Clock(d, 14, 10), 8 * 3600)
      == Success(Summary(true, 210 * 60, Some(Clock(d, 18, 0))))
  {
    var rows := WorkedRows(d);
    assert TotalDuration(rows) == 270 * 60 by {
      assert rows[..1] == [rows[0]] && [rows[0]][..0] == [];
      assert TotalDuration([rows[0]]) == 3 * 3600;
    }
    assert InRange(Clock(d, 18, 0)) by {
      ClockFields(d, 18, 0);
    }
    assert AddSeconds(Clock(d, 14, 30), 210 * 60) == Success(Clock(d, 18, 0));
  }

  /** Clocked in at 09:00 with the server at 12:34: one provisional row
      closing at 12:45 (12:49 rounded). */
  lemma {:induction false} OpenMorning(d: int)
    requires Midnight(d)
    ensures CalculateTimeTable([Clock(d, 9, 0)], [], Clock(d, 12, 34), 15)
      == Success([Row(Clock(d, 9, 0), Clock(d, 12, 45), 225 * 60)])
  {
    OnGrid(d, 9, 0);
    assert RoundHalfEven(49, 15) == 3;
    BoundaryAt(d, 12, 34, 3);
    var r := CalculateTimeTable([Clock(d, 9, 0)], [], Clock(d, 12, 34), 15);
    assert r.value == [Row(Clock(d, 9, 0), Clock(d, 12, 45), 225 * 60)];
  }

  /** Clocked out at 11:53 with the server at 11:55: the clock-out rounds to
      12:00, after now, so the user is still reported clocked in, with a
      clock-out time. */
  lemma {:induction false} ClockedOutYetIn(d: int)
    requires Midnight(d)
    ensures var rows := CalculateTimeTable([Clock(d, 9, 0)], [Clock(d, 11, 53)], Clock(d, 11, 55), 15);
      && rows == Success([Row(Clock(d, 9, 0), Clock(d, 12, 0), 3 * 3600)])
      && CalculateSummary(rows.value, Clock(d, 11, 55), 8 * 3600) == Success(Summary(true, 5 * 3600, Some(Clock(d, 17, 0))))
  {
    assert Clock(d, 11, 0) + 4 * (15 * 60) == Clock(d, 12, 0);
    assert AddSeconds(Clock(d, 12, 0), 5 * 3600) == Success(Clock(d, 17, 0));
    OnGrid(d, 9, 0);
    ClockFields(d, 11, 53);
    assert RoundHalfEven(53, 15) == 4;
    RoundsTo(Clock(d, 11, 53), 15, 4);
    OneInOneOut(Clock(d, 9, 0), Clock(d, 11, 53), Clock(d, 12, 0), Clock(d, 11, 55), 15);
    var rows := [Row(Clock(d, 9, 0), Clock(d, 12, 0), 3 * 3600)];
    assert TotalDuration(rows) == 3 * 3600 by {
      assert rows[..0] == [];
    }
  }
}
