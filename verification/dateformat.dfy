/** `datetime.strptime` and `strftime` for the three fixed formats the
    modelled code uses. A format is a sequence of directives; `Scan` matches a
    whole string against it the way strptime's generated regular expression
    does (IGNORECASE, a blank matching a run of whitespace, unconverted trailing
    text rejected), and `Render` is the strftime side. The two agree: scanning
    a rendered string gives back the values (ScanRender). */
module DateFormat {
  import opened Wrappers
  import opened Text
  import opened Calendar

  datatype Directive =
    | Lit(c: char)               // a literal character
    | Spaces                     // a blank in the format: `\s+`
    | Year                       // %Y: exactly four digits
    | Number(lo: nat, hi: nat)   // %m %d %H %I %M %S: one or two digits valued lo..hi
    | MonthName                  // %B: an English month name, valued 1..12
    | AmPm                       // %p: AM or PM, valued 0 or 1

  const MonthNames: seq<string> := [
    "January", "February", "March", "April", "May", "June", "July",
    "August", "September", "October", "November", "December"]

  /** '%m/%d/%Y %I:%M %p', the portal's clock-event timestamps. */
  const ClockEventFormat: seq<Directive> := [
    Number(1, 12), Lit('/'), Number(1, 31), Lit('/'), Year, Spaces,
    Number(1, 12), Lit(':'), Number(0, 59), Spaces, AmPm]

  /** '%B %d, %Y %H:%M:%S', the portal's `sDate` server time. */
  const ServerTimeFormat: seq<Directive> := [
    MonthName, Spaces, Number(1, 31), Lit(','), Spaces, Year, Spaces,
    Number(0, 23), Lit(':'), Number(0, 59), Lit(':'), Number(0, 61)]

  /** '%Y-%m-%dT%H:%M:%S', `isoformat(timespec='seconds')` of a naive datetime. */
  const IsoSecondsFormat: seq<Directive> := [
    Year, Lit('-'), Number(1, 12), Lit('-'), Number(1, 31), Lit('T'),
    Number(0, 23), Lit(':'), Number(0, 59), Lit(':'), Number(0, 61)]

  /** Whether `v` is a value directive `d` can stand for; directives that
      capture nothing stand for 0. */
  predicate Fits(d: Directive, v: int) {
    match d
    case Year => 0 <= v <= 9999
    case Number(lo, hi) => lo <= v <= hi
    case MonthName => 1 <= v <= 12
    case AmPm => 0 <= v <= 1
    case _ => v == 0
  }

  predicate AllFit(fmt: seq<Directive>, vals: seq<int>) {
    |vals| == |fmt| && forall i :: 0 <= i < |fmt| ==> Fits(fmt[i], vals[i])
  }

  /** The character class the text of directive `d` is a run of, if any. */
  predicate InRun(d: Directive, c: char) {
    match d
    case Spaces => IsSpace(c)
    case Year => IsDigit(c)
    case Number(_, _) => IsDigit(c)
    case MonthName => IsAsciiLetter(c)
    case _ => false
  }

  /** Every rendered directive starts with a character that `Begins` admits. */
  predicate Begins(d: Directive, c: char) {
    match d
    case Lit(x) => c == x
    case Spaces => c == ' '
    case Year => IsDigit(c)
    case Number(_, _) => IsDigit(c)
    case MonthName => IsAsciiLetter(c)
    case AmPm => c == 'A' || c == 'P'
  }

  /** A format in which no directive is followed by one that could extend its
      run: then strptime's backtracking has no choice to make. */
  ghost predicate Separated(fmt: seq<Directive>) {
    && (forall i :: 0 <= i < |fmt| && fmt[i].Number? ==> fmt[i].hi < 100)
    && (forall i, c :: 0 <= i < |fmt| - 1 && Begins(fmt[i + 1], c) ==> !InRun(fmt[i], c))
  }

  function MonthIndexFrom(word: string, i: nat): (r: Option<int>)
    requires i <= 12
    ensures r.Some? ==> i < r.value <= 12 && SameIgnoringCase(word, MonthNames[r.value - 1])
    ensures r.None? ==> forall j :: i <= j < 12 ==> !SameIgnoringCase(word, MonthNames[j])
    decreases 12 - i
  {
    if i == 12 then None
    else if SameIgnoringCase(word, MonthNames[i]) then Some(i + 1)
    else MonthIndexFrom(word, i + 1)
  }

  /** The month a `%B` word names, ignoring case. */
  function MonthIndex(word: string): Option<int> {
    MonthIndexFrom(word, 0)
  }

  /** Values captured by matching all of `s` against `fmt`, one per
      directive, or None when strptime raises `ValueError`. */
  function Scan(fmt: seq<Directive>, s: string): (r: Option<seq<int>>)
    ensures r.Some? ==> AllFit(fmt, r.value)
  {
    if fmt == [] then
      if s == [] then Some([]) else None
    else
      var first :- ScanOne(fmt[0], s);
      var rest :- Scan(fmt[1..], s[first.1..]);
      Some([first.0] + rest)
  }

  /** The value directive `d` reads at the start of `s`, and how many
      characters it reads. */
  function ScanOne(d: Directive, s: string): (r: Option<(int, nat)>)
    ensures r.Some? ==> Fits(d, r.value.0) && r.value.1 <= |s|
  {
    match d
    case Lit(c) =>
      if s != [] && ToLower(s[0]) == ToLower(c) then Some((0, 1)) else None
    case Spaces =>
      var k := RunLength(s, IsSpace);
      if k == 0 then None else Some((0, k))
    case Year =>
      var k := RunLength(s, IsDigit);
      if k != 4 then None
      else
        DecimalValueBound(s[..k]);
        assert Pow10(4) == 10000;
        Some((DecimalValue(s[..k]) as int, k))
    case Number(lo, hi) =>
      var k := RunLength(s, IsDigit);
      if k < 1 || k > 2 || !(lo <= DecimalValue(s[..k]) <= hi) then None
      else Some((DecimalValue(s[..k]) as int, k))
    case MonthName =>
      var k := RunLength(s, IsAsciiLetter);
      var m :- MonthIndex(s[..k]);
      Some((m, k))
    case AmPm =>
      if |s| >= 2 && SameIgnoringCase(s[..2], "AM") then Some((0, 2))
      else if |s| >= 2 && SameIgnoringCase(s[..2], "PM") then Some((1, 2))
      else None
  }

  function RenderOne(d: Directive, v: int): (s: string)
    requires Fits(d, v)
    ensures s != [] && Begins(d, s[0])
    ensures forall i :: 0 <= i < |s| ==> InRun(d, s[i]) || !(d.Spaces? || d.Year? || d.Number? || d.MonthName?)
  {
    match d
    case Lit(c) => [c]
    case Spaces => " "
    case Year => Padded(v, 4)
    case Number(_, _) => Padded(v, 2)
    case MonthName => MonthNameLetters(v); MonthNames[v - 1]
    case AmPm => if v == 0 then "AM" else "PM"
  }

  predicate AllLetters(s: string) { forall i :: 0 <= i < |s| ==> IsAsciiLetter(s[i]) }

  lemma {:induction false} MonthNameLetters(v: int)
    requires 1 <= v <= 12
    ensures MonthNames[v - 1] != [] && AllLetters(MonthNames[v - 1])
  {
  }

  /** strftime: the text of `vals` laid out by `fmt`. */
  function Render(fmt: seq<Directive>, vals: seq<int>): (s: string)
    requires AllFit(fmt, vals)
    ensures fmt != [] ==> s != [] && Begins(fmt[0], s[0])
  {
    if fmt == [] then [] else RenderOne(fmt[0], vals[0]) + Render(fmt[1..], vals[1..])
  }

  lemma {:induction false} MonthIndexOfName(v: int)
    requires 1 <= v <= 12
    ensures MonthIndex(MonthNames[v - 1]) == Some(v)
  {
    var name := MonthNames[v - 1];
    forall j | 0 <= j < v - 1
      ensures !SameIgnoringCase(name, MonthNames[j])
    {
      DistinctMonthNames(v - 1, j);
    }
    MonthIndexFromSkips(name, 0, v - 1);
  }

  lemma {:induction false} MonthIndexFromSkips(word: string, i: nat, j: nat)
    requires i <= j < 12
    requires SameIgnoringCase(word, MonthNames[j])
    requires forall k :: i <= k < j ==> !SameIgnoringCase(word, MonthNames[k])
    ensures MonthIndexFrom(word, i) == Some(j + 1)
    decreases j - i
  {
    if i < j {
      MonthIndexFromSkips(word, i + 1, j);
    }
  }

  lemma {:induction false} DistinctMonthNames(a: int, b: int)
    requires 0 <= b < a < 12
    ensures !SameIgnoringCase(MonthNames[a], MonthNames[b])
  {
    var x, y := MonthNames[a], MonthNames[b];
    if |x| == |y| {
      // Names of equal length differ in one of their first three letters.
      assert ToLower(x[0]) != ToLower(y[0]) || ToLower(x[1]) != ToLower(y[1]) || ToLower(x[2]) != ToLower(y[2]);
    }
  }

  /** Scanning what strftime rendered gives back the rendered values. */
  lemma {:induction false} ScanRender(fmt: seq<Directive>, vals: seq<int>)
    requires Separated(fmt) && AllFit(fmt, vals)
    ensures Scan(fmt, Render(fmt, vals)) == Some(vals)
  {
    if fmt != [] {
      SeparatedTail(fmt);
      ScanRender(fmt[1..], vals[1..]);
      ScanRenderStep(fmt, vals);
    }
  }

  /** The inductive step of `ScanRender`: the first directive reads back its
      own text, and the rest of the format the rest. */
  lemma {:induction false} ScanRenderStep(fmt: seq<Directive>, vals: seq<int>)
    requires fmt != [] && Separated(fmt) && AllFit(fmt, vals)
    requires Scan(fmt[1..], Render(fmt[1..], vals[1..])) == Some(vals[1..])
    ensures Scan(fmt, Render(fmt, vals)) == Some(vals)
  {
    RestNotInRun(fmt, vals);
    ScanOneRenderOne(fmt[0], vals[0], Render(fmt[1..], vals[1..]));
    ScanPieces(fmt, vals, RenderOne(fmt[0], vals[0]), Render(fmt[1..], vals[1..]));
  }

  /** Text that the first directive reads as the first value, followed by
      text the rest of the format reads as the other values, scans to all of
      them. */
  lemma {:induction false} ScanPieces(fmt: seq<Directive>, vals: seq<int>, piece: string, rest: string)
    requires fmt != [] && AllFit(fmt, vals) && Render(fmt, vals) == piece + rest
    requires ScanOne(fmt[0], piece + rest) == Some((vals[0], |piece|))
    requires Scan(fmt[1..], rest) == Some(vals[1..])
    ensures Scan(fmt, Render(fmt, vals)) == Some(vals)
  {
    var s := piece + rest;
    assert s[|piece|..] == rest;
    ScanStep(fmt, s, vals[0], |piece|, vals[1..]);
    assert vals == [vals[0]] + vals[1..];
  }

  /** Scan reads the first directive, then the rest of the format from where it stopped. */
  lemma {:induction false} ScanStep(fmt: seq<Directive>, s: string, v: int, n: nat, rest: seq<int>)
    requires fmt != [] && n <= |s| && ScanOne(fmt[0], s) == Some((v, n)) && Scan(fmt[1..], s[n..]) == Some(rest)
    ensures Scan(fmt, s) == Some([v] + rest)
  {
  }

  lemma {:induction false} SeparatedTail(fmt: seq<Directive>)
    requires fmt != [] && Separated(fmt)
    ensures Separated(fmt[1..])
  {
    forall i, c | 0 <= i < |fmt[1..]| - 1 && Begins(fmt[1..][i + 1], c)
      ensures !InRun(fmt[1..][i], c)
    {
      assert fmt[1..][i] == fmt[i + 1] && fmt[1..][i + 1] == fmt[i + 2];
    }
  }

  /** In a separated format, what follows a directive's text cannot extend it. */
  lemma {:induction false} RestNotInRun(fmt: seq<Directive>, vals: seq<int>)
    requires fmt != [] && Separated(fmt) && AllFit(fmt, vals)
    ensures Render(fmt[1..], vals[1..]) == [] || !InRun(fmt[0], Render(fmt[1..], vals[1..])[0])
  {
    var rest := Render(fmt[1..], vals[1..]);
    if rest != [] {
      assert Begins(fmt[1], rest[0]);
    }
  }

  /** Each directive reads back exactly the text it rendered, when what
      follows cannot extend that text. */
  lemma {:induction false} ScanOneRenderOne(d: Directive, v: int, rest: string)
    requires Fits(d, v) && (d.Number? ==> d.hi < 100)
    requires rest == [] || !InRun(d, rest[0])
    ensures ScanOne(d, RenderOne(d, v) + rest) == Some((v, |RenderOne(d, v)|))
  {
    var piece := RenderOne(d, v);
    var s := piece + rest;
    match d
    case Lit(c) =>
    case Spaces =>
      RunLengthOfPrefix(piece, rest, IsSpace);
    case Year =>
      RunLengthOfPrefix(piece, rest, IsDigit);
      DecimalLength(v);
      assert s[..4] == piece;
      PaddedRoundTrip(v, 4);
    case Number(lo, hi) =>
      RunLengthOfPrefix(piece, rest, IsDigit);
      DecimalLength(v);
      assert |piece| == 2 && s[..2] == piece;
      PaddedRoundTrip(v, 2);
    case MonthName =>
      RunLengthOfPrefix(piece, rest, IsAsciiLetter);
      assert s[..|piece|] == piece;
      MonthIndexOfName(v);
    case AmPm =>
      assert s[..2] == piece;
      if v == 1 {
        assert ToLower(s[0]) == 'p';
        assert !SameIgnoringCase(s[..2], "AM");
      }
  }

  /** The hour strptime builds from `%I` and `%p`: 12 AM is hour 0, 12 PM
      hour 12, and any other PM hour gains 12. */
  function Hour24(hour12: int, pm: int): (h: int)
    requires 1 <= hour12 <= 12 && 0 <= pm <= 1
    ensures 0 <= h < 24
    ensures (h < 12) <==> (pm == 0)
    ensures h % 12 == hour12 % 12
  {
    if pm == 0 then (if hour12 == 12 then 0 else hour12)
    else (if hour12 == 12 then 12 else hour12 + 12)
  }

  /** The `%I` reading of a 24-hour `hour`. */
  function Hour12(hour: int): (h: int)
    requires 0 <= hour < 24
    ensures 1 <= h <= 12 && Hour24(h, if hour < 12 then 0 else 1) == hour
  {
    if hour % 12 == 0 then 12 else hour % 12
  }

  lemma {:induction false} ClockEventSeparated()
    ensures Separated(ClockEventFormat)
  {
  }

  lemma {:induction false} ServerTimeSeparated()
    ensures Separated(ServerTimeFormat)
  {
  }

  lemma {:induction false} IsoSecondsSeparated()
    ensures Separated(IsoSecondsFormat)
  {
  }

  /** A valid date and time of day fit the clock-event format. */
  lemma {:induction false} ClockEventFits(d: Date, hour: int, minute: int)
    requires ValidDate(d) && 0 <= hour < 24 && 0 <= minute < 60
    ensures AllFit(ClockEventFormat,
      [d.month, 0, d.day, 0, d.year, 0, Hour12(hour), 0, minute, 0, if hour < 12 then 0 else 1])
  {
  }

  /** A valid date and time of day fit the server-time format. */
  lemma {:induction false} ServerTimeFits(d: Date, hour: int, minute: int, second: int)
    requires ValidDate(d) && ValidTime(hour, minute, second)
    ensures AllFit(ServerTimeFormat, [d.month, 0, d.day, 0, 0, d.year, 0, hour, 0, minute, 0, second])
  {
  }

  /** A valid date and time of day fit the ISO format. */
  lemma {:induction false} IsoSecondsFits(d: Date, hour: int, minute: int, second: int)
    requires ValidDate(d) && ValidTime(hour, minute, second)
    ensures AllFit(IsoSecondsFormat, [d.year, 0, d.month, 0, d.day, 0, hour, 0, minute, 0, second])
  {
  }

  /** The values `FormatClockEvent` lays out. */
  function ClockEventValues(t: int): (v: seq<int>)
    requires InRange(t)
    ensures AllFit(ClockEventFormat, v)
  {
    var d := DateOf(t);
    InstantOfFields(t);
    ClockEventFits(d, HourOf(t), MinuteOf(t));
    [d.month, 0, d.day, 0, d.year, 0, Hour12(HourOf(t)), 0, MinuteOf(t), 0, if HourOf(t) < 12 then 0 else 1]
  }

  /** The values `FormatServerTime` lays out. */
  function ServerTimeValues(t: int): (v: seq<int>)
    requires InRange(t)
    ensures AllFit(ServerTimeFormat, v)
  {
    var d := DateOf(t);
    InstantOfFields(t);
    ServerTimeFits(d, HourOf(t), MinuteOf(t), SecondOf(t));
    [d.month, 0, d.day, 0, 0, d.year, 0, HourOf(t), 0, MinuteOf(t), 0, SecondOf(t)]
  }

  /** The values `IsoSeconds` lays out. */
  function IsoSecondsValues(t: int): (v: seq<int>)
    requires InRange(t)
    ensures AllFit(IsoSecondsFormat, v)
  {
    var d := DateOf(t);
    InstantOfFields(t);
    IsoSecondsFits(d, HourOf(t), MinuteOf(t), SecondOf(t));
    [d.year, 0, d.month, 0, d.day, 0, HourOf(t), 0, MinuteOf(t), 0, SecondOf(t)]
  }

  /** `datetime.strptime(s, '%m/%d/%Y %I:%M %p')`. */
  function ParseClockEvent(s: string): (r: Result<int, Fault>)
    ensures r.Success? ==> InRange(r.value) && SecondOf(r.value) == 0
  {
    match Scan(ClockEventFormat, s)
    case None => Failure(ValueError("time data does not match format '%m/%d/%Y %I:%M %p'"))
    case Some(v) => MakeDateTime(Date(v[4], v[0], v[2]), Hour24(v[6], v[10]), v[8], 0)
  }

  /** `t.strftime('%m/%d/%Y %I:%M %p')`, the form the portal writes clock events in. */
  function FormatClockEvent(t: int): string
    requires InRange(t)
  {
    Render(ClockEventFormat, ClockEventValues(t))
  }

  lemma {:induction false} RenderStep(fmt: seq<Directive>, vals: seq<int>, i: nat)
    requires AllFit(fmt, vals) && i < |fmt|
    ensures Render(fmt[i..], vals[i..]) == RenderOne(fmt[i], vals[i]) + Render(fmt[i + 1..], vals[i + 1..])
  {
    assert fmt[i..][1..] == fmt[i + 1..];
    assert vals[i..][1..] == vals[i + 1..];
  }

  /** The minute and meridian at the end of a rendered clock-event timestamp. */
  lemma {:induction false} ClockEventMinuteText(v: seq<int>)
    requires AllFit(ClockEventFormat, v)
    ensures Render(ClockEventFormat[8..], v[8..]) == Padded(v[8], 2) + (" " + (if v[10] == 0 then "AM" else "PM"))
  {
    var f := ClockEventFormat;
    RenderStep(f, v, 10);
    assert f[11..] == [];
    RenderStep(f, v, 9);
    RenderStep(f, v, 8);
  }

  /** The time-of-day half of a rendered clock-event timestamp. */
  lemma {:induction false} ClockEventTimeText(v: seq<int>)
    requires AllFit(ClockEventFormat, v)
    ensures Render(ClockEventFormat[6..], v[6..])
      == Padded(v[6], 2) + (":" + (Padded(v[8], 2) + (" " + (if v[10] == 0 then "AM" else "PM"))))
  {
    var f := ClockEventFormat;
    ClockEventMinuteText(v);
    RenderStep(f, v, 7);
    RenderStep(f, v, 6);
  }

  /** The year, and what follows it, in a rendered clock-event timestamp. */
  lemma {:induction false} ClockEventYearText(v: seq<int>)
    requires AllFit(ClockEventFormat, v)
    ensures Render(ClockEventFormat[3..], v[3..])
      == "/" + (Padded(v[4], 4) + (" " + Render(ClockEventFormat[6..], v[6..])))
  {
    var f := ClockEventFormat;
    RenderStep(f, v, 5);
    RenderStep(f, v, 4);
    RenderStep(f, v, 3);
  }

  /** A rendered clock-event timestamp, piece by piece: fixed width, two
      digits per field except the year's four. */
  lemma {:induction false} ClockEventText(v: seq<int>)
    requires AllFit(ClockEventFormat, v)
    ensures Render(ClockEventFormat, v)
      == Padded(v[0], 2) + ("/" + (Padded(v[2], 2) + ("/" + (Padded(v[4], 4) + (" "
         + (Padded(v[6], 2) + (":" + (Padded(v[8], 2) + (" " + (if v[10] == 0 then "AM" else "PM"))))))))))
    ensures |Padded(v[0], 2)| == 2 && |Padded(v[2], 2)| == 2 && |Padded(v[4], 4)| == 4
    ensures |Padded(v[6], 2)| == 2 && |Padded(v[8], 2)| == 2
  {
    var f := ClockEventFormat;
    ClockEventTimeText(v);
    ClockEventYearText(v);
    RenderStep(f, v, 2);
    RenderStep(f, v, 1);
    RenderStep(f, v, 0);
    assert f[0..] == f && v[0..] == v;
    ClockEventWidths(v);
  }

  /** Each numeric field of a clock-event timestamp fills its width exactly. */
  lemma {:induction false} ClockEventWidths(v: seq<int>)
    requires AllFit(ClockEventFormat, v)
    ensures |Padded(v[0], 2)| == 2 && |Padded(v[2], 2)| == 2 && |Padded(v[4], 4)| == 4
    ensures |Padded(v[6], 2)| == 2 && |Padded(v[8], 2)| == 2
  {
    var f := ClockEventFormat;
    assert Fits(f[0], v[0]) && Fits(f[2], v[2]) && Fits(f[4], v[4]) && Fits(f[6], v[6]) && Fits(f[8], v[8]);
    DecimalLength(v[0]);
    DecimalLength(v[2]);
    DecimalLength(v[4]);
    DecimalLength(v[6]);
    DecimalLength(v[8]);
  }

  /** Rendering writes no quote character unless the format has one. */
  lemma {:induction false} RenderHasNoQuote(fmt: seq<Directive>, vals: seq<int>)
    requires AllFit(fmt, vals)
    requires forall i :: 0 <= i < |fmt| && fmt[i].Lit? ==> !IsQuote(fmt[i].c)
    ensures forall k :: 0 <= k < |Render(fmt, vals)| ==> !IsQuote(Render(fmt, vals)[k])
  {
    if fmt != [] {
      var head := RenderOne(fmt[0], vals[0]);
      RenderHasNoQuote(fmt[1..], vals[1..]);
      assert forall k :: 0 <= k < |head| ==> !IsQuote(head[k]);
    }
  }

  lemma {:induction false} ClockEventRoundTrip(t: int)
    requires InRange(t) && SecondOf(t) == 0
    ensures ParseClockEvent(FormatClockEvent(t)) == Success(t)
  {
    var d := DateOf(t);
    InstantOfFields(t);
    ClockEventSeparated();
    ScanRender(ClockEventFormat, ClockEventValues(t));
  }

  /** `datetime.strptime(s, '%B %d, %Y %H:%M:%S')`. */
  function ParseServerTime(s: string): (r: Result<int, Fault>)
    ensures r.Success? ==> InRange(r.value)
  {
    match Scan(ServerTimeFormat, s)
    case None => Failure(ValueError("time data does not match format '%B %d, %Y %H:%M:%S'"))
    case Some(v) => MakeDateTime(Date(v[5], v[0], v[2]), v[7], v[9], v[11])
  }

  /** `t.strftime('%B %d, %Y %H:%M:%S')`, the form of the portal's server time. */
  function FormatServerTime(t: int): string
    requires InRange(t)
  {
    Render(ServerTimeFormat, ServerTimeValues(t))
  }

  lemma {:induction false} ServerTimeRoundTrip(t: int)
    requires InRange(t)
    ensures ParseServerTime(FormatServerTime(t)) == Success(t)
  {
    InstantOfFields(t);
    ServerTimeSeparated();
    ScanRender(ServerTimeFormat, ServerTimeValues(t));
  }

  /** `t.isoformat(timespec='seconds')` of a naive datetime. */
  function IsoSeconds(t: int): string
    requires InRange(t)
  {
    Render(IsoSecondsFormat, IsoSecondsValues(t))
  }

  /** `datetime.strptime(s, '%Y-%m-%dT%H:%M:%S')`. */
  function ParseIsoSeconds(s: string): (r: Result<int, Fault>)
    ensures r.Success? ==> InRange(r.value)
  {
    match Scan(IsoSecondsFormat, s)
    case None => Failure(ValueError("time data does not match format '%Y-%m-%dT%H:%M:%S'"))
    case Some(v) => MakeDateTime(Date(v[0], v[2], v[4]), v[6], v[8], v[10])
  }

  lemma {:induction false} IsoSecondsRoundTrip(t: int)
    requires InRange(t)
    ensures ParseIsoSeconds(IsoSeconds(t)) == Success(t)
  {
    InstantOfFields(t);
    IsoSecondsSeparated();
    ScanRender(IsoSecondsFormat, IsoSecondsValues(t));
  }
}
