/** `parse_response` and `parse_ids` (timecalc.py): classify a fetched
    portal page and extract the day's clock events, the server time and the
    two portal identifiers from it.

    lxml is not modelled: a `Page` carries what the code reads from the HTML
    tree next to the raw text the regular expressions search. */
module PageParser {
  import opened Wrappers
  import opened Text
  import opened Calendar
  import opened DateFormat

  /** The `divActivities` element: not in the page, in it without children,
      or in it with a first child whose text content is given. */
  datatype Container = Missing | Childless | FirstChild(text: string)

  /** A fetched page. `loginForm` is the truth value of the `mainLoginWrapper`
      element, which for an lxml element means: present and with children. */
  datatype Page = Page(text: string, activities: Container, loginForm: bool)

  /** The day as the portal reports it: clock-in and clock-out instants in
      document order and the server's current time. */
  datatype Snapshot = Snapshot(clockIns: seq<int>, clockOuts: seq<int>, serverTime: int)

  /** The exceptions parse_response lets escape: `SessionExpired`, the
      `ParseFailure(msg, log)` of excepts.py, and any other exception. */
  datatype ParseError =
    | SessionExpired(message: string)
    | ParseFailure(message: string, log: string)
    | Crash(fault: Fault)

  const ExpiredMessage: string := "Login session expired."
  const NoActivitiesMessage: string := "Error accessing time information. Login may be incorrect."
  const NoServerTimeMessage: string := "Error getting server time. The server application may have changed."

  // ---------------------------------------------------------------------
  // re.findall(r'In(\d{2}\/\d{2}\/\d{4} \d{2}:\d{2} (?:AM|PM))', text) and
  // the same for 'Out'.

  const TokenLength: nat := 19

  /** The character the token pattern admits at index `i`. */
  predicate ShapeChar(i: int, c: char) {
    if i == 2 || i == 5 then c == '/'
    else if i == 10 || i == 16 then c == ' '
    else if i == 13 then c == ':'
    else if i == 17 then c == 'A' || c == 'P'
    else if i == 18 then c == 'M'
    else IsDigit(c)
  }

  /** `\d{2}/\d{2}/\d{4} \d{2}:\d{2} (?:AM|PM)` matches all of `s`. */
  predicate TokenShape(s: string) {
    |s| == TokenLength && forall i :: 0 <= i < TokenLength ==> ShapeChar(i, s[i])
  }

  /** The two event tags. Neither first letter occurs later in a tag or
      anywhere in a token, so matches never overlap. */
  predicate IsTag(tag: string) { tag == "In" || tag == "Out" }

  /** The event pattern for `tag` matches at index `p` of `text`. */
  predicate TagAt(text: string, tag: string, p: int) {
    && OccursAt(text, tag, p)
    && p + |tag| + TokenLength <= |text|
    && TokenShape(text[p + |tag|..p + |tag| + TokenLength])
  }

  lemma {:induction false} NoOverlap(text: string, tag: string, q: int, p: int)
    requires IsTag(tag) && TagAt(text, tag, q) && q < p < q + |tag| + TokenLength
    ensures !TagAt(text, tag, p)
  {
    if p < q + |tag| {
      assert text[p] == tag[p - q];
    } else {
      assert text[p] == text[q + |tag|..q + |tag| + TokenLength][p - q - |tag|];
      assert ShapeChar(p - q - |tag|, text[p]);
    }
    assert text[p] != tag[0];
  }

  /** Start indices of the matches `re.findall` reports when it scans from
      `i`: every match at or after `i`, in increasing order, none overlapping. */
  function MatchesFrom(text: string, tag: string, i: nat): (r: seq<nat>)
    requires IsTag(tag)
    ensures forall k :: 0 <= k < |r| ==> i <= r[k] && TagAt(text, tag, r[k])
    ensures forall k :: 0 <= k < |r| - 1 ==> r[k] + |tag| + TokenLength <= r[k + 1]
    ensures forall p :: i <= p && TagAt(text, tag, p) ==> p in r
    decreases |text| - i
  {
    if i + |tag| + TokenLength > |text| then []
    else if TagAt(text, tag, i) then
      var rest := MatchesFrom(text, tag, i + |tag| + TokenLength);
      forall p | i < p < i + |tag| + TokenLength
        ensures !TagAt(text, tag, p)
      {
        NoOverlap(text, tag, i, p);
      }
      [i] + rest
    else
      MatchesFrom(text, tag, i + 1)
  }

  /** The timestamp text a match at `p` captures. */
  function Capture(text: string, tag: string, p: nat): string
    requires TagAt(text, tag, p)
  {
    text[p + |tag|..p + |tag| + TokenLength]
  }

  /** The timestamps `re.findall` reports when it scans from `i`. */
  function FindAllFrom(text: string, tag: string, i: nat): seq<string>
    decreases |text| - i
  {
    if i + |tag| + TokenLength > |text| then []
    else if TagAt(text, tag, i) then [Capture(text, tag, i)] + FindAllFrom(text, tag, i + |tag| + TokenLength)
    else FindAllFrom(text, tag, i + 1)
  }

  /** findall reports the captures of the matches `MatchesFrom` finds, in the
      same order. */
  lemma {:induction false} FindAllCaptures(text: string, tag: string, i: nat)
    requires IsTag(tag)
    ensures |FindAllFrom(text, tag, i)| == |MatchesFrom(text, tag, i)|
    ensures forall k :: 0 <= k < |FindAllFrom(text, tag, i)| ==>
      FindAllFrom(text, tag, i)[k] == Capture(text, tag, MatchesFrom(text, tag, i)[k])
    decreases |text| - i
  {
    if i + |tag| + TokenLength <= |text| {
      if TagAt(text, tag, i) {
        var j := i + |tag| + TokenLength;
        FindAllCaptures(text, tag, j);
        assert FindAllFrom(text, tag, i) == [Capture(text, tag, i)] + FindAllFrom(text, tag, j);
        assert MatchesFrom(text, tag, i) == [i] + MatchesFrom(text, tag, j);
        CapturesCons(text, tag, i, FindAllFrom(text, tag, j), MatchesFrom(text, tag, j));
      } else {
        FindAllCaptures(text, tag, i + 1);
      }
    }
  }

  /** A match in front of matches whose captures are listed puts its own
      capture in front of the list. */
  lemma {:induction false} CapturesCons(text: string, tag: string, i: nat, found: seq<string>, matches: seq<nat>)
    requires TagAt(text, tag, i) && |found| == |matches|
    requires forall k :: 0 <= k < |matches| ==> TagAt(text, tag, matches[k])
    requires forall k :: 0 <= k < |found| ==> found[k] == Capture(text, tag, matches[k])
    ensures forall k :: 0 <= k < |found| + 1 ==>
      ([Capture(text, tag, i)] + found)[k] == Capture(text, tag, ([i] + matches)[k])
  {
    forall k | 0 < k < |found| + 1
      ensures ([Capture(text, tag, i)] + found)[k] == Capture(text, tag, ([i] + matches)[k])
    {
      assert ([i] + matches)[k] == matches[k - 1];
    }
  }

  /** `re.findall` of the event pattern for `tag`: the timestamps of all
      events with that tag, oldest (first in the page) first. */
  function FindAll(text: string, tag: string): (r: seq<string>)
    requires IsTag(tag)
    ensures forall k :: 0 <= k < |r| ==> TokenShape(r[k])
  {
    FindAllCaptures(text, tag, 0);
    FindAllFrom(text, tag, 0)
  }

  /** strptime over a list of timestamps, in order; the first that does not
      convert raises. */
  function ParseAll(tokens: seq<string>): (r: Result<seq<int>, Fault>)
    ensures r.Success? <==> forall k :: 0 <= k < |tokens| ==> ParseClockEvent(tokens[k]).Success?
    ensures r.Success? ==> |r.value| == |tokens|
    ensures r.Success? ==> forall k :: 0 <= k < |tokens| ==> r.value[k] == ParseClockEvent(tokens[k]).value
  {
    ParsePrefix(tokens, |tokens|)
  }

  /** The first `n` timestamps, converted in order. */
  function ParsePrefix(tokens: seq<string>, n: nat): (r: Result<seq<int>, Fault>)
    requires n <= |tokens|
    ensures r.Success? <==> forall k :: 0 <= k < n ==> ParseClockEvent(tokens[k]).Success?
    ensures r.Success? ==> |r.value| == n
    ensures r.Success? ==> forall k :: 0 <= k < n ==> r.value[k] == ParseClockEvent(tokens[k]).value
  {
    if n == 0 then Success([])
    else
      var init :- ParsePrefix(tokens, n - 1);
      var last :- ParseClockEvent(tokens[n - 1]);
      ParseSnoc(tokens, n, init, last);
      Success(init + [last])
  }

  lemma {:induction false} ParseSnoc(tokens: seq<string>, n: nat, init: seq<int>, last: int)
    requires 0 < n <= |tokens| && |init| == n - 1
    requires forall k :: 0 <= k < n - 1 ==> ParseClockEvent(tokens[k]) == Success(init[k])
    requires ParseClockEvent(tokens[n - 1]) == Success(last)
    ensures forall k :: 0 <= k < n ==> ParseClockEvent(tokens[k]) == Success((init + [last])[k])
  {
  }

  // ---------------------------------------------------------------------
  // re.search for the server time and the two identifiers.

  /** `var sDate = ['"]([^'"]+)['"];`, and `var <name> = '(\w*)'` for the
      identifiers. */
  datatype Pattern = ServerDate | JsString(name: string)

  predicate IsNotQuote(c: char) { !IsQuote(c) }

  function Lead(p: Pattern): string {
    match p
    case ServerDate => "var sDate = "
    case JsString(name) => "var " + name + " = '"
  }

  /** The group `['"]([^'"]+)['"];` captures when it matches at `j`. */
  function QuotedAt(text: string, j: nat): (r: Option<string>)
    ensures r.Some? ==> |r.value| >= 1 && forall k :: 0 <= k < |r.value| ==> !IsQuote(r.value[k])
  {
    if j < |text| && IsQuote(text[j]) then
      var body := text[j + 1..];
      var k := RunLength(body, IsNotQuote);
      if k >= 1 && k + 1 < |body| && body[k + 1] == ';' then Some(body[..k]) else None
    else None
  }

  /** The group `(\w*)'` captures when it matches at `j`. */
  function WordsAt(text: string, j: nat): (r: Option<string>)
    requires j <= |text|
    ensures r.Some? ==> forall k :: 0 <= k < |r.value| ==> IsWordChar(r.value[k])
  {
    var body := text[j..];
    var k := RunLength(body, IsWordChar);
    if k < |body| && body[k] == '\'' then Some(body[..k]) else None
  }

  /** The group a match of `p` at index `i` of `text` captures, if `p` matches there. */
  function CaptureAt(p: Pattern, text: string, i: nat): (r: Option<string>)
    ensures r.Some? ==> OccursAt(text, Lead(p), i)
    ensures r.Some? && p.ServerDate? ==>
      |r.value| >= 1 && forall k :: 0 <= k < |r.value| ==> !IsQuote(r.value[k])
    ensures r.Some? && p.JsString? ==> forall k :: 0 <= k < |r.value| ==> IsWordChar(r.value[k])
  {
    if !OccursAt(text, Lead(p), i) then None
    else if p.ServerDate? then QuotedAt(text, i + |Lead(p)|)
    else WordsAt(text, i + |Lead(p)|)
  }

  /** `re.search`: the first index from `i` on where `p` matches. */
  function Search(p: Pattern, text: string, i: nat): (r: Option<nat>)
    ensures r.Some? ==> i <= r.value && CaptureAt(p, text, r.value).Some?
    ensures r.Some? ==> forall j :: i <= j < r.value ==> CaptureAt(p, text, j).None?
    ensures r.None? ==> forall j :: i <= j ==> CaptureAt(p, text, j).None?
    decreases |text| - i
  {
    if i > |text| then
      assert forall j :: i <= j ==> !OccursAt(text, Lead(p), j);
      None
    else if CaptureAt(p, text, i).Some? then Some(i)
    else Search(p, text, i + 1)
  }

  /** `re.search(pattern, text).group(1)`; a failed search leaves None, whose
      `.group` raises AttributeError. */
  function SearchGroup(p: Pattern, text: string): (r: Result<string, Fault>)
    ensures r.Success? <==> Search(p, text, 0).Some?
    ensures r.Success? ==> CaptureAt(p, text, Search(p, text, 0).value) == Some(r.value)
    ensures r.Failure? ==> r.error.AttributeError?
  {
    match Search(p, text, 0)
    case Some(j) => Success(CaptureAt(p, text, j).value)
    case None => Failure(AttributeError("'NoneType' object has no attribute 'group'"))
  }

  /** `parse_ids`: the customer and employee identifiers, each the group of
      the first match in the page. */
  function ParseIds(text: string): (r: Result<(string, string), Fault>)
    ensures r.Success? <==> Search(JsString("_custID"), text, 0).Some? && Search(JsString("_employeeId"), text, 0).Some?
    ensures r.Success? ==> CaptureAt(JsString("_custID"), text, Search(JsString("_custID"), text, 0).value) == Some(r.value.0)
    ensures r.Success? ==> CaptureAt(JsString("_employeeId"), text, Search(JsString("_employeeId"), text, 0).value) == Some(r.value.1)
    ensures r.Success? ==> forall i :: 0 <= i < |r.value.0| ==> IsWordChar(r.value.0[i])
    ensures r.Success? ==> forall i :: 0 <= i < |r.value.1| ==> IsWordChar(r.value.1[i])
  {
    var custId :- SearchGroup(JsString("_custID"), text);
    var empId :- SearchGroup(JsString("_employeeId"), text);
    Success((custId, empId))
  }

  // ---------------------------------------------------------------------
  // parse_response

  function Crashing<T>(r: Result<T, Fault>): Result<T, ParseError> {
    match r
    case Success(v) => Success(v)
    case Failure(f) => Failure(Crash(f))
  }

  /** The events of the activities text, once the server time is known: no
      clock-in means an empty day, and clock-outs are then not looked at. */
  function ParseEvents(activities: string, now: int): (r: Result<Snapshot, Fault>)
    ensures r.Success? ==> r.value.serverTime == now
    ensures FindAll(activities, "In") == [] ==> r == Success(Snapshot([], [], now))
    ensures FindAll(activities, "In") != [] ==>
      (r.Success? <==> ParseAll(FindAll(activities, "In")).Success? && ParseAll(FindAll(activities, "Out")).Success?)
    ensures FindAll(activities, "In") != [] && r.Success? ==>
      && ParseAll(FindAll(activities, "In")) == Success(r.value.clockIns)
      && ParseAll(FindAll(activities, "Out")) == Success(r.value.clockOuts)
  {
    var ins := FindAll(activities, "In");
    if ins == [] then Success(Snapshot([], [], now))
    else
      var outs := FindAll(activities, "Out");
      var parsedIns :- ParseAll(ins);
      var parsedOuts :- ParseAll(outs);
      Success(Snapshot(parsedIns, parsedOuts, now))
  }

  /** `parse_response`, with the activities container missing from the page
      read the way its absence of children is (see ParseResponseAsWritten).
      `Success(None)` is the empty page, for which the code returns None. */
  function ParseResponse(page: Page): (r: Result<Option<Snapshot>, ParseError>)
    ensures r == Success(None) <==> page.text == []
    ensures page.text != [] && !page.activities.FirstChild? ==>
      r == if page.loginForm then Failure(SessionExpired(ExpiredMessage))
           else Failure(ParseFailure(NoActivitiesMessage, page.text))
    ensures page.text != [] && page.activities.FirstChild? ==>
      (r == Failure(ParseFailure(NoServerTimeMessage, page.text)) <==>
       forall j :: CaptureAt(ServerDate, page.text, j).None?)
    ensures r.Failure? && r.error.SessionExpired? ==> page.loginForm && !page.activities.FirstChild?
    ensures r.Success? && r.value.Some? ==>
      && page.activities.FirstChild?
      && (FindAll(page.activities.text, "In") == [] <==> r.value.value.clockIns == [])
      && (r.value.value.clockIns == [] ==> r.value.value.clockOuts == [])
      && InRange(r.value.value.serverTime)
      && (forall k :: 0 <= k < |r.value.value.clockIns| ==> InRange(r.value.value.clockIns[k]))
      && (forall k :: 0 <= k < |r.value.value.clockOuts| ==> InRange(r.value.value.clockOuts[k]))
  {
    if page.text == [] then Success(None)
    else if !page.activities.FirstChild? then
      if page.loginForm then Failure(SessionExpired(ExpiredMessage))
      else Failure(ParseFailure(NoActivitiesMessage, page.text))
    else
      var activities := page.activities.text;
      match Search(ServerDate, page.text, 0)
      case None => Failure(ParseFailure(NoServerTimeMessage, page.text))
      case Some(j) =>
        var day :- ParseDeclared(activities, CaptureAt(ServerDate, page.text, j).value);
        Success(Some(day))
  }

  /** The server time read from the captured declaration, then the events. */
  function ParseDeclared(activities: string, stamp: string): (r: Result<Snapshot, ParseError>)
    ensures r.Failure? ==> r.error.Crash?
    ensures r.Success? ==>
      && ParseServerTime(stamp) == Success(r.value.serverTime)
      && ParseEvents(activities, r.value.serverTime) == Success(r.value)
    ensures r.Success? ==>
      && (FindAll(activities, "In") == [] <==> r.value.clockIns == [])
      && (r.value.clockIns == [] ==> r.value.clockOuts == [])
      && InRange(r.value.serverTime)
      && (forall k :: 0 <= k < |r.value.clockIns| ==> InRange(r.value.clockIns[k]))
      && (forall k :: 0 <= k < |r.value.clockOuts| ==> InRange(r.value.clockOuts[k]))
  {
    var now :- Crashing(ParseServerTime(stamp));
    var day :- Crashing(ParseEvents(activities, now));
    ParsedInRange(activities, now, day);
    Success(day)
  }

  /** What a parsed day is read from: the server time is strptime of what the
      first `sDate` match captures, and the day is what the activities text
      gives at that time. */
  lemma {:induction false} ParseResponseReads(page: Page)
    ensures var r := ParseResponse(page);
      r.Success? && r.value.Some? ==>
        && page.activities.FirstChild?
        && Search(ServerDate, page.text, 0).Some?
        && ParseServerTime(CaptureAt(ServerDate, page.text, Search(ServerDate, page.text, 0).value).value)
           == Success(r.value.value.serverTime)
        && ParseEvents(page.activities.text, r.value.value.serverTime) == Success(r.value.value)
  {
  }

  lemma {:induction false} ParsedInRange(activities: string, now: int, day: Snapshot)
    requires InRange(now) && ParseEvents(activities, now) == Success(day)
    ensures InRange(day.serverTime)
    ensures forall k :: 0 <= k < |day.clockIns| ==> InRange(day.clockIns[k])
    ensures forall k :: 0 <= k < |day.clockOuts| ==> InRange(day.clockOuts[k])
    ensures FindAll(activities, "In") == [] <==> day.clockIns == []
    ensures day.clockIns == [] ==> day.clockOuts == []
  {
    var ins := FindAll(activities, "In");
    if ins != [] {
      var outs := FindAll(activities, "Out");
      var parsedIns := ParseAll(ins).value;
      var parsedOuts := ParseAll(outs).value;
      assert day == Snapshot(parsedIns, parsedOuts, now);
      forall k | 0 <= k < |day.clockIns| ensures InRange(day.clockIns[k]) {
        assert ParseClockEvent(ins[k]) == Success(day.clockIns[k]);
      }
      forall k | 0 <= k < |day.clockOuts| ensures InRange(day.clockOuts[k]) {
        assert ParseClockEvent(outs[k]) == Success(day.clockOuts[k]);
      }
    }
  }

  /** `parse_response` exactly as written: a page without the activities
      container reaches `len(None)`, which raises TypeError, before the
      login marker is looked at. */
  function ParseResponseAsWritten(page: Page): (r: Result<Option<Snapshot>, ParseError>)
    ensures page.text != [] && page.activities.Missing? ==>
      r == Failure(Crash(TypeError("object of type 'NoneType' has no len()")))
    ensures !(page.text != [] && page.activities.Missing?) ==> r == ParseResponse(page)
  {
    if page.text != [] && page.activities.Missing? then
      Failure(Crash(TypeError("object of type 'NoneType' has no len()")))
    else ParseResponse(page)
  }

  /** The login page the portal serves once a session has expired has no
      activities container; as written, parse_response crashes on it instead
      of raising SessionExpired, so the caller's re-login never runs. */
  lemma {:induction false} ExpiredPageCrashesAsWritten()
    ensures ParseResponseAsWritten(Page("<html/>", Missing, true)).error.Crash?
    ensures ParseResponse(Page("<html/>", Missing, true)) == Failure(SessionExpired(ExpiredMessage))
  {
  }

  // ---------------------------------------------------------------------
  // The activities text read back: a page the portal writes from a day's
  // clock events parses to those events.

  /** One row of the portal's activity list. */
  datatype ClockEvent = ClockEvent(isIn: bool, at: int)

  function TagOf(e: ClockEvent): string { if e.isIn then "In" else "Out" }

  function EventText(e: ClockEvent): string
    requires InRange(e.at)
  {
    TagOf(e) + FormatClockEvent(e.at)
  }

  /** The text content of the activity list: the events' rows, in order. */
  function ActivitiesText(es: seq<ClockEvent>): string
    requires forall k :: 0 <= k < |es| ==> InRange(es[k].at)
  {
    if es == [] then [] else EventText(es[0]) + ActivitiesText(es[1..])
  }

  /** The timestamps of the events that are clock-ins (`isIn`) or clock-outs. */
  function Stamps(es: seq<ClockEvent>, isIn: bool): seq<string>
    requires forall k :: 0 <= k < |es| ==> InRange(es[k].at)
  {
    if es == [] then []
    else (if es[0].isIn == isIn then [FormatClockEvent(es[0].at)] else []) + Stamps(es[1..], isIn)
  }

  /** The instants of the events that are clock-ins (`isIn`) or clock-outs. */
  function Instants(es: seq<ClockEvent>, isIn: bool): seq<int> {
    if es == [] then []
    else (if es[0].isIn == isIn then [es[0].at] else []) + Instants(es[1..], isIn)
  }

  lemma {:induction false} PiecesShape(p0: string, p2: string, p4: string, p6: string, p8: string, ap: string)
    requires |p0| == 2 && |p2| == 2 && |p4| == 4 && |p6| == 2 && |p8| == 2
    requires AllDigits(p0) && AllDigits(p2) && AllDigits(p4) && AllDigits(p6) && AllDigits(p8)
    requires ap == "AM" || ap == "PM"
    ensures TokenShape(p0 + ("/" + (p2 + ("/" + (p4 + (" " + (p6 + (":" + (p8 + (" " + ap))))))))))
  {
    var r6 := p6 + (":" + (p8 + (" " + ap)));
    var s := p0 + ("/" + (p2 + ("/" + (p4 + (" " + r6)))));
    forall i | 0 <= i < TokenLength
      ensures ShapeChar(i, s[i])
    {
      if i < 2 {
        assert s[i] == p0[i];
      } else if i < 3 {
      } else if i < 5 {
        assert s[i] == p2[i - 3];
      } else if i < 6 {
      } else if i < 10 {
        assert s[i] == p4[i - 6];
      } else if i < 11 {
      } else {
        assert s[i] == r6[i - 11];
        if i < 13 {
          assert r6[i - 11] == p6[i - 11];
        } else if 14 <= i < 16 {
          assert r6[i - 11] == p8[i - 14];
        }
      }
    }
  }

  /** Every timestamp the portal writes has the shape the token pattern asks for. */
  lemma {:induction false} TimestampShape(t: int)
    requires InRange(t)
    ensures TokenShape(FormatClockEvent(t))
  {
    var v := ClockEventValues(t);
    ClockEventText(v);
    PiecesShape(Padded(v[0], 2), Padded(v[2], 2), Padded(v[4], 4), Padded(v[6], 2), Padded(v[8], 2),
      if v[10] == 0 then "AM" else "PM");
  }

  /** Text in front of the scanned part does not change what findall reports. */
  lemma {:induction false} FindAllShift(c: string, n: nat, tag: string, j: nat)
    requires n <= |c|
    ensures FindAllFrom(c, tag, n + j) == FindAllFrom(c[n..], tag, j)
    decreases |c| - n - j, 2
  {
    if n + j + |tag| + TokenLength <= |c| {
      FindAllShiftOn(c, n, tag, j);
    } else {
      FindAllFromEnd(c, tag, n + j);
      FindAllFromEnd(c[n..], tag, j);
    }
  }

  /** `FindAllShift` where a match could still start at `j`: both scans
      decide alike there. */
  lemma {:induction false} FindAllShiftOn(c: string, n: nat, tag: string, j: nat)
    requires n + j + |tag| + TokenLength <= |c|
    ensures FindAllFrom(c, tag, n + j) == FindAllFrom(c[n..], tag, j)
    decreases |c| - n - j, 1
  {
    TagAtShift(c, n, tag, j);
    if TagAt(c[n..], tag, j) {
      FindAllShiftHit(c, n, tag, j);
    } else {
      FindAllShiftMiss(c, n, tag, j);
    }
  }

  /** A step of `FindAllShift` at a match: both scans report the same capture
      and go on past it. */
  lemma {:induction false} FindAllShiftHit(c: string, n: nat, tag: string, j: nat)
    requires n + j + |tag| + TokenLength <= |c| && TagAt(c, tag, n + j) && TagAt(c[n..], tag, j)
    requires Capture(c, tag, n + j) == Capture(c[n..], tag, j)
    ensures FindAllFrom(c, tag, n + j) == FindAllFrom(c[n..], tag, j)
    decreases |c| - n - j, 0
  {
    var next := j + |tag| + TokenLength;
    FindAllShift(c, n, tag, next);
    HitsAgree(c, c[n..], tag, n + j, j, n + next, next);
  }

  /** Two scans that stand on matches capturing the same timestamp, and that
      agree past those matches, agree from the matches on. */
  lemma {:induction false} HitsAgree(a: string, b: string, tag: string, i: nat, k: nat, ni: nat, nk: nat)
    requires TagAt(a, tag, i) && TagAt(b, tag, k) && Capture(a, tag, i) == Capture(b, tag, k)
    requires ni == i + |tag| + TokenLength && nk == k + |tag| + TokenLength
    requires FindAllFrom(a, tag, ni) == FindAllFrom(b, tag, nk)
    ensures FindAllFrom(a, tag, i) == FindAllFrom(b, tag, k)
  {
    FindAllFromHit(a, tag, i, ni);
    FindAllFromHit(b, tag, k, nk);
  }

  /** A step of `FindAllShift` where no match starts: both scans move on by one. */
  lemma {:induction false} FindAllShiftMiss(c: string, n: nat, tag: string, j: nat)
    requires n + j + |tag| + TokenLength <= |c| && !TagAt(c, tag, n + j) && !TagAt(c[n..], tag, j)
    ensures FindAllFrom(c, tag, n + j) == FindAllFrom(c[n..], tag, j)
    decreases |c| - n - j, 0
  {
    FindAllShift(c, n, tag, j + 1);
    FindAllFromMiss(c, tag, n + j, n + (j + 1));
    FindAllFromMiss(c[n..], tag, j, j + 1);
  }

  /** findall reports nothing once too little text is left for a match. */
  lemma {:induction false} FindAllFromEnd(text: string, tag: string, i: nat)
    requires i + |tag| + TokenLength > |text|
    ensures FindAllFrom(text, tag, i) == []
  {
  }

  /** findall reports a match where it starts scanning and goes on past it. */
  lemma {:induction false} FindAllFromHit(text: string, tag: string, i: nat, next: nat)
    requires TagAt(text, tag, i) && next == i + |tag| + TokenLength
    ensures FindAllFrom(text, tag, i) == [Capture(text, tag, i)] + FindAllFrom(text, tag, next)
  {
  }

  /** findall moves on by one where no match starts. */
  lemma {:induction false} FindAllFromMiss(text: string, tag: string, i: nat, next: nat)
    requires i + |tag| + TokenLength <= |text| && !TagAt(text, tag, i) && next == i + 1
    ensures FindAllFrom(text, tag, i) == FindAllFrom(text, tag, next)
  {
  }

  /** A match, and what it captures, are the same behind a prefix. */
  lemma {:induction false} TagAtShift(c: string, n: nat, tag: string, j: nat)
    requires n + j + |tag| + TokenLength <= |c|
    ensures TagAt(c, tag, n + j) <==> TagAt(c[n..], tag, j)
    ensures TagAt(c[n..], tag, j) ==> Capture(c, tag, n + j) == Capture(c[n..], tag, j)
  {
    var L := |tag| + TokenLength;
    assert c[n + j..n + j + |tag|] == c[n..][j..j + |tag|];
    assert c[n + j + |tag|..n + j + L] == c[n..][j + |tag|..j + L];
  }

  /** Positions where the tag's first letter is absent are skipped. */
  lemma {:induction false} FindAllSkip(text: string, tag: string, i: nat, k: nat)
    requires IsTag(tag) && i <= k <= |text|
    requires forall p :: i <= p < k ==> text[p] != tag[0]
    ensures FindAllFrom(text, tag, i) == FindAllFrom(text, tag, k)
    decreases k - i
  {
    if i < k && i + |tag| + TokenLength <= |text| {
      assert text[i..i + |tag|][0] == text[i];
      FindAllSkip(text, tag, i + 1, k);
    }
  }

  /** findall over one tagged timestamp followed by more text. */
  lemma {:induction false} FindAllBlock(own: string, token: string, rest: string, tag: string)
    requires IsTag(own) && IsTag(tag) && TokenShape(token)
    ensures FindAllFrom(own + token + rest, tag, 0)
      == (if own == tag then [token] else []) + FindAllFrom(rest, tag, 0)
  {
    var text := own + token + rest;
    var split := |own| + |token|;
    assert text[split..] == rest;
    FindAllDrop(text, split, tag);
    if own == tag {
      FindAllBlockHit(tag, token, rest, text);
    } else {
      FindAllBlockMiss(own, token, rest, tag, text);
      assert [] + FindAllFrom(rest, tag, 0) == FindAllFrom(rest, tag, 0);
    }
  }

  /** findall from a later index is findall over the text from there on. */
  lemma {:induction false} FindAllDrop(text: string, n: nat, tag: string)
    requires n <= |text|
    ensures FindAllFrom(text, tag, n) == FindAllFrom(text[n..], tag, 0)
  {
    FindAllShift(text, n, tag, 0);
  }

  /** A block with the tag searched for is reported, and the scan goes on
      right after its timestamp. */
  lemma {:induction false} FindAllBlockHit(tag: string, token: string, rest: string, text: string)
    requires IsTag(tag) && TokenShape(token) && text == tag + token + rest
    ensures FindAllFrom(text, tag, 0) == [token] + FindAllFrom(text, tag, |tag| + |token|)
  {
    assert text[0..0 + |tag|] == tag;
    assert text[0 + |tag|..0 + |tag| + TokenLength] == token;
    assert TagAt(text, tag, 0);
    FindAllFromHit(text, tag, 0, |tag| + |token|);
  }

  /** A block with another tag is skipped whole: neither its tag nor its
      timestamp holds the first letter of the tag searched for. */
  lemma {:induction false} FindAllBlockMiss(own: string, token: string, rest: string, tag: string, text: string)
    requires IsTag(own) && IsTag(tag) && own != tag && TokenShape(token) && text == own + token + rest
    ensures FindAllFrom(text, tag, 0) == FindAllFrom(text, tag, |own| + |token|)
  {
    forall p | 0 <= p < |own| + |token|
      ensures text[p] != tag[0]
    {
      if p >= |own| {
        assert text[p] == token[p - |own|];
        assert ShapeChar(p - |own|, text[p]);
      }
    }
    FindAllSkip(text, tag, 0, |own| + |token|);
  }

  /** findall over the activity list finds exactly the timestamps of the
      events carrying the tag, in list order. */
  lemma {:induction false} FindAllEvents(es: seq<ClockEvent>, tag: string)
    requires IsTag(tag)
    requires forall k :: 0 <= k < |es| ==> InRange(es[k].at)
    ensures FindAll(ActivitiesText(es), tag) == Stamps(es, tag == "In")
  {
    if es != [] {
      var e := es[0];
      TimestampShape(e.at);
      FindAllEvents(es[1..], tag);
      FindAllBlock(TagOf(e), FormatClockEvent(e.at), ActivitiesText(es[1..]), tag);
    }
  }

  lemma {:induction false} ParseAllCons(token: string, tokens: seq<string>, t: int, ts: seq<int>)
    requires ParseClockEvent(token) == Success(t) && ParseAll(tokens) == Success(ts)
    ensures ParseAll([token] + tokens) == Success([t] + ts)
  {
    var all, vs := [token] + tokens, [t] + ts;
    forall k | 0 <= k < |all| ensures ParseClockEvent(all[k]) == Success(vs[k]) {
      if k > 0 {
        assert all[k] == tokens[k - 1] && vs[k] == ts[k - 1];
      }
    }
    ParseAllIs(all, vs);
  }

  /** Timestamps whose conversions are known convert, as a list, to exactly those. */
  lemma {:induction false} ParseAllIs(tokens: seq<string>, vs: seq<int>)
    requires |vs| == |tokens|
    requires forall k :: 0 <= k < |tokens| ==> ParseClockEvent(tokens[k]) == Success(vs[k])
    ensures ParseAll(tokens) == Success(vs)
  {
    var r := ParseAll(tokens);
    assert r.Success?;
    assert r.value == vs;
  }

  lemma {:induction false} ParseStamps(es: seq<ClockEvent>, isIn: bool)
    requires forall k :: 0 <= k < |es| ==> InRange(es[k].at) && SecondOf(es[k].at) == 0
    ensures ParseAll(Stamps(es, isIn)) == Success(Instants(es, isIn))
  {
    if es != [] {
      ParseStamps(es[1..], isIn);
      if es[0].isIn == isIn {
        ClockEventRoundTrip(es[0].at);
        ParseAllCons(FormatClockEvent(es[0].at), Stamps(es[1..], isIn), es[0].at, Instants(es[1..], isIn));
      } else {
        assert Stamps(es, isIn) == Stamps(es[1..], isIn);
        assert Instants(es, isIn) == Instants(es[1..], isIn);
      }
    }
  }

  /** The declaration of the server time the portal's page script carries. */
  function ServerTimeDeclaration(now: int): string
    requires InRange(now)
  {
    "var sDate = '" + FormatServerTime(now) + "';"
  }

  lemma {:induction false} ServerTimeHasNoQuote(now: int)
    requires InRange(now)
    ensures FormatServerTime(now) != []
    ensures forall k :: 0 <= k < |FormatServerTime(now)| ==> !IsQuote(FormatServerTime(now)[k])
  {
    RenderHasNoQuote(ServerTimeFormat, ServerTimeValues(now));
  }

  /** A quoted string without inner quotes, followed by `;`, is what the
      server-time group captures. */
  lemma {:induction false} QuotedCapture(text: string, j: nat, stamp: string)
    requires stamp != [] && forall k :: 0 <= k < |stamp| ==> !IsQuote(stamp[k])
    requires j < |text| && text[j] == '\''
    requires StartsWith(text[j + 1..], stamp + "';")
    ensures QuotedAt(text, j) == Some(stamp)
  {
    var body := text[j + 1..];
    assert body[..|stamp| + 2] == stamp + "';";
    assert body == stamp + body[|stamp|..];
    RunLengthOfPrefix(stamp, body[|stamp|..], IsNotQuote);
    assert body[|stamp| + 1] == ';';
  }

  /** `re.search` stops at the first index where the pattern matches. */
  lemma {:induction false} SearchFinds(p: Pattern, text: string, i: nat, k: nat)
    requires i <= k && CaptureAt(p, text, k).Some?
    requires forall j :: i <= j < k ==> CaptureAt(p, text, j).None?
    ensures Search(p, text, i) == Some(k)
  {
    var r := Search(p, text, i);
    assert r.Some?;
    assert r.value <= k;
    assert r.value >= k;
  }

  /** What the server-time pattern captures at an `sDate` declaration. */
  lemma {:induction false} DeclarationCaptured(text: string, i: nat, stamp: string)
    requires stamp != [] && forall k :: 0 <= k < |stamp| ==> !IsQuote(stamp[k])
    requires i <= |text| && StartsWith(text[i..], "var sDate = '" + stamp + "';")
    ensures CaptureAt(ServerDate, text, i) == Some(stamp)
  {
    var lead := Lead(ServerDate);
    var decl := "var sDate = '" + stamp + "';";
    assert decl == lead + ("'" + (stamp + "';"));
    assert text[i..i + |decl|] == text[i..][..|decl|] == decl;
    assert text[i..i + |lead|] == decl[..|lead|] == lead;
    assert decl[|lead| + 1..] == stamp + "';";
    assert text[i + |lead| + 1..][..|stamp| + 2] == text[i + |lead| + 1..i + |decl|] == decl[|lead| + 1..];
    QuotedCapture(text, i + |lead|, stamp);
  }

  /** The `sDate` declaration of `stamp` at index `i` of a page, with no
      earlier match of the pattern, is what the search finds. */
  lemma {:induction false} DeclarationFound(text: string, i: nat, stamp: string)
    requires stamp != [] && forall k :: 0 <= k < |stamp| ==> !IsQuote(stamp[k])
    requires i <= |text| && StartsWith(text[i..], "var sDate = '" + stamp + "';")
    requires forall j :: 0 <= j < i ==> CaptureAt(ServerDate, text, j).None?
    ensures Search(ServerDate, text, 0) == Some(i)
    ensures CaptureAt(ServerDate, text, i) == Some(stamp)
  {
    DeclarationCaptured(text, i, stamp);
    SearchFinds(ServerDate, text, 0, i);
  }

  /** A page carrying the server-time declaration of `now` at index `i`, with
      no earlier match of the pattern: the search finds it and captures the time. */
  lemma {:induction false} ServerTimeFound(text: string, i: nat, now: int)
    requires InRange(now) && i <= |text| && StartsWith(text[i..], ServerTimeDeclaration(now))
    requires forall j :: 0 <= j < i ==> CaptureAt(ServerDate, text, j).None?
    ensures Search(ServerDate, text, 0) == Some(i)
    ensures CaptureAt(ServerDate, text, i) == Some(FormatServerTime(now))
  {
    ServerTimeHasNoQuote(now);
    DeclarationFound(text, i, FormatServerTime(now));
  }

  /** Text placed after `pre` starts where `pre` ends. */
  lemma {:induction false} StartsAfter(pre: string, d: string, post: string)
    ensures StartsWith((pre + d + post)[|pre|..], d)
  {
    assert (pre + d + post)[|pre|..] == d + post;
  }

  /** A page the portal writes for a day's recorded events, with its server
      time declared after markup where the pattern does not match, parses back
      to those events: the clock-ins and clock-outs each in list order, the
      declared server time, and no clock-outs on a day without a clock-in. */
  lemma {:induction false} ParseResponseRoundTrip(page: Page, pre: string, post: string, es: seq<ClockEvent>, now: int)
    requires forall k :: 0 <= k < |es| ==> InRange(es[k].at) && SecondOf(es[k].at) == 0
    requires InRange(now) && page.text == pre + ServerTimeDeclaration(now) + post
    requires forall j :: 0 <= j < |pre| ==> CaptureAt(ServerDate, page.text, j).None?
    requires page.activities == FirstChild(ActivitiesText(es))
    ensures var ins := Instants(es, true);
      ParseResponse(page) == Success(Some(Snapshot(ins, if ins == [] then [] else Instants(es, false), now)))
  {
    StartsAfter(pre, ServerTimeDeclaration(now), post);
    ServerTimeFound(page.text, |pre|, now);
    DeclaredRoundTrip(es, now);
  }

  /** The declared server time and the activity list the portal writes for a
      day's events read back to that time and those events. */
  lemma {:induction false} DeclaredRoundTrip(es: seq<ClockEvent>, now: int)
    requires forall k :: 0 <= k < |es| ==> InRange(es[k].at) && SecondOf(es[k].at) == 0
    requires InRange(now)
    ensures var ins := Instants(es, true);
      ParseDeclared(ActivitiesText(es), FormatServerTime(now))
        == Success(Snapshot(ins, if ins == [] then [] else Instants(es, false), now))
  {
    ServerTimeRoundTrip(now);
    FindAllEvents(es, "In");
    FindAllEvents(es, "Out");
    EventsRoundTrip(ActivitiesText(es), es, now);
  }

  /** Text in which findall reports the timestamps of a day's clock-ins and of
      its clock-outs reads back to those events, clock-outs dropped on a day
      without a clock-in. */
  lemma {:induction false} EventsRoundTrip(activities: string, es: seq<ClockEvent>, now: int)
    requires forall k :: 0 <= k < |es| ==> InRange(es[k].at) && SecondOf(es[k].at) == 0
    requires FindAll(activities, "In") == Stamps(es, true)
    requires FindAll(activities, "Out") == Stamps(es, false)
    ensures var ins := Instants(es, true);
      ParseEvents(activities, now)
        == Success(Snapshot(ins, if ins == [] then [] else Instants(es, false), now))
  {
    ParseStamps(es, true);
    ParseStamps(es, false);
    assert |Stamps(es, true)| == |Instants(es, true)|;
  }
}
