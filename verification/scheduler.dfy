/** The clock-out scheduler Lambda (lambda_adp_scheduler/clockout_scheduler.py):
    it reads a request body naming a number of minutes, a user and a key,
    puts a one-shot EventBridge cron rule for that many minutes from now,
    points the rule at the clock-out function with the event, whose body
    now holds the user and key, as its input, and answers 200 with the scheduled instant or 400 with an error.
    EventBridge and Lambda are a `Cloud` object that records the calls made
    to it; the clock is a parameter. */
module Scheduler {
  import opened Wrappers
  import opened Text
  import opened Calendar
  import opened DateFormat
  import opened Arith

  const RuleArn: string := "arn:aws:events:us-west-2:416241143428:rule/scheduleClockOut"
  const RuleName: string := "scheduleClockOut"
  const TargetArn: string := "arn:aws:lambda:us-west-2:416241143428:function:adpClockOut"
  const TargetName: string := "adpClockOut"

  // ---------------------------------------------------------------------
  // JSON documents

  /** A decoded JSON document. Objects keep their members in order,
      duplicates included, as the text had them; numbers are integers. */
  datatype Json =
    | JNull
    | JBool(b: bool)
    | JNumber(n: int)
    | JString(s: string)
    | JArray(items: seq<Json>)
    | JObject(members: seq<(string, Json)>)

  /** The Python type `json.loads` gives a document, as error messages name it. */
  function TypeName(doc: Json): string {
    match doc
    case JNull => "NoneType"
    case JBool(_) => "bool"
    case JNumber(_) => "int"
    case JString(_) => "str"
    case JArray(_) => "list"
    case JObject(_) => "dict"
  }

  /** `d[key]` on the dict `json.loads` builds from `members`: of duplicate
      keys the last one wins. */
  function Lookup(members: seq<(string, Json)>, key: string): Option<Json> {
    if members == [] then None
    else
      var last := members[|members| - 1];
      if last.0 == key then Some(last.1) else Lookup(members[..|members| - 1], key)
  }

  /** A key is found exactly when some member has it, and what is found is
      the value of the last such member. */
  lemma {:induction false} LookupFindsLast(members: seq<(string, Json)>, key: string)
    ensures Lookup(members, key).None? <==> forall i :: 0 <= i < |members| ==> members[i].0 != key
    ensures Lookup(members, key).Some? ==>
      exists i :: (0 <= i < |members| && members[i] == (key, Lookup(members, key).value) &&
                   (forall j :: i < j < |members| ==> members[j].0 != key))
  {
    if members != [] {
      var init := members[..|members| - 1];
      LookupFindsLast(init, key);
      if members[|members| - 1].0 != key && Lookup(init, key).Some? {
        var i :| 0 <= i < |init| && init[i] == (key, Lookup(init, key).value) &&
          (forall j :: i < j < |init| ==> init[j].0 != key);
        assert members[i] == init[i];
      }
    }
  }

  /** Subscripting a decoded document with a string: a dict gives the member
      or a missing key, anything else raises `TypeError`. */
  function Subscript(doc: Json, key: string): (r: Result<Option<Json>, Fault>)
    ensures r.Success? <==> doc.JObject?
    ensures r.Success? ==> r.value == Lookup(doc.members, key)
    ensures r.Failure? ==> r.error.TypeError?
  {
    match doc
    case JObject(members) => Success(Lookup(members, key))
    case JString(_) => Failure(TypeError("string indices must be integers"))
    case JArray(_) => Failure(TypeError("list indices must be integers or slices, not str"))
    case _ => Failure(TypeError("'" + TypeName(doc) + "' object is not subscriptable"))
  }

  // ---------------------------------------------------------------------
  // respond

  /** The exceptions `lambda_handler` hands to `respond`. */
  datatype HandlerError =
    | KeyError(key: string)      // a missing key of the event or of its body
    | Failed(message: string)    // `Exception('Failed to add event target')`

  /** The single argument the exception was built with: what `.message`
      held for such an exception before Python 3. */
  function ErrorText(err: HandlerError): string {
    match err
    case KeyError(key) => key
    case Failed(message) => message
  }

  /** The body of a response: plain text, or `json.dumps` of a document. */
  datatype Body = Text(text: string) | Encoded(doc: Json)

  datatype Response = Response(statusCode: string, body: Body, headers: seq<(string, string)>)

  const JsonHeaders: seq<(string, string)> := [("Content-Type", "application/json")]

  /** `respond(err, res)`, with the error's text as the body of an error
      response. */
  function Respond(err: Option<HandlerError>, res: Json): (r: Response)
    ensures r.statusCode == "400" <==> err.Some?
    ensures r.statusCode == "200" <==> err.None?
    ensures r.headers == JsonHeaders
    ensures err.Some? ==> r.body == Text(ErrorText(err.value))
    ensures err.None? ==> r.body == Encoded(res)
  {
    if err.Some? then Response("400", Text(ErrorText(err.value)), JsonHeaders)
    else Response("200", Encoded(res), JsonHeaders)
  }

  /** The Python class of a handler error. */
  function ErrorClass(err: HandlerError): string {
    match err
    case KeyError(_) => "KeyError"
    case Failed(_) => "Exception"
  }

  /** Python's text for reading a missing `message` attribute. */
  function NoMessageText(cls: string): string {
    "'" + cls + "' object has no attribute 'message'"
  }

  /** `respond` as written: it reads `err.message`, an attribute Python 3
      exceptions do not have, so every error response raises instead. */
  function RespondAsWritten(err: Option<HandlerError>, res: Json): Result<Response, Fault> {
    if err.Some? then Failure(AttributeError(NoMessageText(ErrorClass(err.value))))
    else Success(Response("200", Encoded(res), JsonHeaders))
  }

  /** As written, `respond` can only ever produce the 200 response: each of
      the handler's 400 paths raises `AttributeError` instead. */
  lemma {:induction false} RespondAsWrittenNeverReports(err: Option<HandlerError>, res: Json)
    ensures RespondAsWritten(err, res).Success? <==> err.None?
    ensures err.Some? ==> RespondAsWritten(err, res).error.AttributeError?
    ensures err.None? ==> RespondAsWritten(err, res) == Success(Respond(err, res))
    ensures RespondAsWritten(err, res).Success? ==> RespondAsWritten(err, res).value.statusCode == "200"
  {
  }

  /** The request without `UserId`: the handler meant to answer 400 naming
      the key, and raises instead. */
  lemma {:induction false} MissingUserIdRaisesAsWritten()
    ensures RespondAsWritten(Some(KeyError("UserId")), JNull) == Failure(AttributeError(NoMessageText("KeyError")))
    ensures Respond(Some(KeyError("UserId")), JNull) == Response("400", Text("UserId"), JsonHeaders)
  {
  }

  // ---------------------------------------------------------------------
  // make_cronstr

  /** The fields of a one-shot cron expression. */
  datatype Cron = Cron(minute: nat, hour: nat, day: nat, month: nat, year: nat)

  /** The fields `make_cronstr` writes for an instant. */
  function CronOf(t: int): Cron
    requires InRange(t)
  {
    Cron(MinuteOf(t), HourOf(t), DateOf(t).day, DateOf(t).month, DateOf(t).year)
  }

  /** A cron expression with the given fields, each in plain decimal and
      `?` for the day of the week. */
  function CronText(c: Cron): string {
    "cron(" + Decimal(c.minute) + " " + Decimal(c.hour) + " " + Decimal(c.day) + " " +
      Decimal(c.month) + " ? " + Decimal(c.year) + ")"
  }

  /** `make_cronstr(time)`. */
  function MakeCronstr(t: int): string
    requires InRange(t)
  {
    CronText(CronOf(t))
  }

  /** A leading run of digits and what follows it. */
  function Numeral(s: string): (r: Option<(nat, string)>)
    ensures r.Some? ==> |r.value.1| < |s|
  {
    var n := RunLength(s, IsDigit);
    if n == 0 then None else Some((DecimalValue(s[..n]), s[n..]))
  }

  function Literal(s: string, lit: string): (r: Option<string>)
    ensures r.Some? ==> s == lit + r.value
  {
    if StartsWith(s, lit) then
      assert s == lit + s[|lit|..];
      Some(s[|lit|..])
    else None
  }

  /** A numeral followed by the separator `sep`, and what follows that. */
  function Field(s: string, sep: string): Option<(nat, string)> {
    var n :- Numeral(s);
    var rest :- Literal(n.1, sep);
    Some((n.0, rest))
  }

  /** How EventBridge reads back an expression of the shape `make_cronstr`
      writes; anything else is `None`. */
  function ParseCron(s: string): Option<Cron> {
    var s0 :- Literal(s, "cron(");
    var minute :- Field(s0, " ");
    var hour :- Field(minute.1, " ");
    var day :- Field(hour.1, " ");
    var month :- Field(day.1, " ? ");
    var year :- Field(month.1, ")");
    if year.1 != [] then None else Some(Cron(minute.0, hour.0, day.0, month.0, year.0))
  }

  lemma {:induction false} NumeralOfDecimal(v: nat, rest: string)
    requires rest == [] || !IsDigit(rest[0])
    ensures Numeral(Decimal(v) + rest) == Some((v, rest))
  {
    var d := Decimal(v);
    RunLengthOfPrefix(d, rest, IsDigit);
    assert (d + rest)[..|d|] == d;
    assert (d + rest)[|d|..] == rest;
    DecimalRoundTrip(v);
  }

  lemma {:induction false} LiteralOfPrefix(lit: string, rest: string)
    ensures Literal(lit + rest, lit) == Some(rest)
  {
    assert (lit + rest)[..|lit|] == lit;
    assert (lit + rest)[|lit|..] == rest;
  }

  lemma {:induction false} FieldOfDecimal(v: nat, sep: string, rest: string)
    requires sep != [] && !IsDigit(sep[0])
    ensures Field(Decimal(v) + (sep + rest), sep) == Some((v, rest))
  {
    NumeralOfDecimal(v, sep + rest);
    LiteralOfPrefix(sep, rest);
  }

  /** Reading an expression back gives the fields it was written from. */
  lemma {:induction false} CronRoundTrip(c: Cron)
    ensures ParseCron(CronText(c)) == Some(c)
  {
    var tail5 := Decimal(c.year) + (")" + []);
    var tail4 := Decimal(c.month) + (" ? " + tail5);
    var tail3 := Decimal(c.day) + (" " + tail4);
    var tail2 := Decimal(c.hour) + (" " + tail3);
    var tail1 := Decimal(c.minute) + (" " + tail2);
    assert CronText(c) == "cron(" + tail1 by { CronTextShape(c); assert ")" + [] == ")"; }
    assert Literal(CronText(c), "cron(") == Some(tail1) by { LiteralOfPrefix("cron(", tail1); }
    FieldOfDecimal(c.minute, " ", tail2);
    FieldOfDecimal(c.hour, " ", tail3);
    FieldOfDecimal(c.day, " ", tail4);
    FieldOfDecimal(c.month, " ? ", tail5);
    FieldOfDecimal(c.year, ")", []);
  }

  lemma {:induction false} CronTextShape(c: Cron)
    ensures CronText(c) == "cron(" + (Decimal(c.minute) + (" " + (Decimal(c.hour) + (" " + (Decimal(c.day) +
      (" " + (Decimal(c.month) + (" ? " + (Decimal(c.year) + ")")))))))))
  {
  }

  /** The instant a cron expression fires at, if its fields name one. */
  function FiresAt(c: Cron): Result<int, Fault> {
    MakeDateTime(Date(c.year, c.month, c.day), c.hour, c.minute, 0)
  }

  /** An instant's fields name the start of its minute. */
  lemma {:induction false} FieldsFire(t: int)
    requires InRange(t)
    ensures FiresAt(CronOf(t)) == Success(t - SecondOf(t))
  {
    StartOfMinuteAt(t, DateOf(t));
    CronDate(t);
  }

  /** The rule for `t` names `t`'s date, hour and minute. */
  lemma {:induction false} CronDate(t: int)
    requires InRange(t)
    ensures FiresAt(CronOf(t)) == MakeDateTime(DateOf(t), HourOf(t), MinuteOf(t), 0)
  {
    var d := DateOf(t);
    assert Date(d.year, d.month, d.day) == d;
  }

  /** The rule fires at the start of the minute the schedule time falls in. */
  lemma {:induction false} CronFiresInScheduledMinute(t: int)
    requires InRange(t)
    ensures ParseCron(MakeCronstr(t)) == Some(CronOf(t))
    ensures FiresAt(CronOf(t)) == Success(t - SecondOf(t))
  {
    CronRoundTrip(CronOf(t));
    FieldsFire(t);
  }

  /** Two schedule times give the same rule exactly when they fall in the
      same minute: the seconds are lost, nothing else is. */
  lemma {:induction false} CronSameMinute(t1: int, t2: int)
    requires InRange(t1) && InRange(t2)
    ensures MakeCronstr(t1) == MakeCronstr(t2) <==> t1 - SecondOf(t1) == t2 - SecondOf(t2)
  {
    FieldsFire(t1);
    FieldsFire(t2);
    if MakeCronstr(t1) == MakeCronstr(t2) {
      CronRoundTrip(CronOf(t1));
      CronRoundTrip(CronOf(t2));
      assert CronOf(t1) == CronOf(t2);
    }
    if t1 - SecondOf(t1) == t2 - SecondOf(t2) {
      SameMinuteSameFields(t1, t2);
    }
  }

  lemma {:induction false} SameMinuteSameFields(t1: int, t2: int)
    requires InRange(t1) && InRange(t2) && t1 - SecondOf(t1) == t2 - SecondOf(t2)
    ensures CronOf(t1) == CronOf(t2)
  {
    InstantOfFields(t1);
    InstantOfFields(t2);
    var m := t1 - SecondOf(t1);
    assert m == At(DateOf(t1), HourOf(t1), MinuteOf(t1), 0);
    assert m == At(DateOf(t2), HourOf(t2), MinuteOf(t2), 0);
    FieldsOfAt(DateOf(t1), HourOf(t1), MinuteOf(t1), 0);
    FieldsOfAt(DateOf(t2), HourOf(t2), MinuteOf(t2), 0);
  }

  // ---------------------------------------------------------------------
  // EventBridge and Lambda

  /** A call the handler makes to AWS. */
  datatype Call =
    | PutRule(name: string, scheduleExpression: string)
    | PutTargets(rule: string, targetId: string, arn: string, input: Option<Json>)
    | AddPermission(functionName: string, statementId: string, action: string, principal: string, sourceArn: string)

  /** The AWS clients, as the calls made to them and the `FailedEntryCount`
      that `put_targets` reports for each call number. */
  class Cloud {
    const failedEntries: nat -> nat
    var calls: seq<Call>

    constructor(failedEntries: nat -> nat)
      ensures this.failedEntries == failedEntries && calls == []
    {
      this.failedEntries := failedEntries;
      calls := [];
    }

    method PutRuleCall(name: string, expression: string)
      modifies this
      ensures calls == old(calls) + [PutRule(name, expression)]
    {
      calls := calls + [PutRule(name, expression)];
    }

    method PutTargetsCall(rule: string, targetId: string, arn: string, input: Option<Json>) returns (failedEntryCount: nat)
      modifies this
      ensures calls == old(calls) + [PutTargets(rule, targetId, arn, input)]
      ensures failedEntryCount == failedEntries(|old(calls)|)
    {
      failedEntryCount := failedEntries(|calls|);
      calls := calls + [PutTargets(rule, targetId, arn, input)];
    }

    /** Whether the permission already existed or not, the handler goes on:
        the outcome is not part of the state. */
    method AddPermissionCall(functionName: string, statementId: string, action: string, principal: string, sourceArn: string)
      modifies this
      ensures calls == old(calls) + [AddPermission(functionName, statementId, action, principal, sourceArn)]
    {
      calls := calls + [AddPermission(functionName, statementId, action, principal, sourceArn)];
    }
  }

  /** The event's `body` key: absent, present with the value `None` (what
      API Gateway sends for a request without a body), or a JSON text, held
      as the document it encodes. */
  datatype EventBody = NoBody | NullBody | JsonBody(doc: Json)

  /** The API Gateway event; of its keys only `body` is read or written. */
  class ApiEvent {
    var body: EventBody

    constructor(body: EventBody)
      ensures this.body == body
    {
      this.body := body;
    }
  }

  const Permission: Call := AddPermission(TargetName, RuleName + "-" + TargetName,
    "lambda:InvokeFunction", "events.amazonaws.com", RuleArn)

  /** `schedule_event(time)`. */
  method ScheduleEvent(cloud: Cloud, t: int)
    requires InRange(t)
    modifies cloud
    ensures cloud.calls == old(cloud.calls) + [PutRule(RuleName, MakeCronstr(t))]
  {
    var expression := MakeCronstr(t);
    cloud.PutRuleCall(RuleName, expression);
  }

  /** The document `json.dumps(event)` serialises: the event with its
      `body` member, when it has one (`null` for `None`). */
  function EventDocument(body: EventBody): (doc: Json)
    ensures doc.JObject?
    ensures Lookup(doc.members, "body") ==
      match body
      case NoBody => None
      case NullBody => Some(JNull)
      case JsonBody(d) => Some(d)
  {
    match body
    case NoBody => JObject([])
    case NullBody => JObject([("body", JNull)])
    case JsonBody(d) => JObject([("body", d)])
  }

  /** `set_target(event)`: the rule's single target is the clock-out
      function with the whole event as its input; the permission is added
      whatever happens to it; success is `FailedEntryCount == 0`. */
  method SetTarget(cloud: Cloud, event: ApiEvent) returns (ok: bool)
    modifies cloud
    ensures cloud.calls == old(cloud.calls) + [PutTargets(RuleName, "1", TargetArn, Some(EventDocument(event.body))), Permission]
    ensures ok <==> cloud.failedEntries(|old(cloud.calls)|) == 0
  {
    var failed := cloud.PutTargetsCall(RuleName, "1", TargetArn, Some(EventDocument(event.body)));
    cloud.AddPermissionCall(TargetName, RuleName + "-" + TargetName, "lambda:InvokeFunction",
      "events.amazonaws.com", RuleArn);
    ok := failed == 0;
  }

  // ---------------------------------------------------------------------
  // lambda_handler

  /** The three values of a complete request. */
  datatype Request = Request(minutes: Json, userId: Json, key: Json)

  /** Reading the request out of the event: a missing key, in the order
      `body`, `ScheduleTime`, `UserId`, `Key`, is caught as a `KeyError`;
      a `None` body (`json.loads(None)`) and a body that is not a JSON
      object raise `TypeError`, which is not. */
  function ReadRequest(body: EventBody): (r: Result<Result<Request, HandlerError>, Fault>)
    ensures r.Failure? <==> body.NullBody? || (body.JsonBody? && !body.doc.JObject?)
    ensures r.Failure? ==> r.error.TypeError?
    ensures r.Success? && r.value.Success? <==>
      && body.JsonBody? && body.doc.JObject?
      && Lookup(body.doc.members, "ScheduleTime").Some?
      && Lookup(body.doc.members, "UserId").Some?
      && Lookup(body.doc.members, "Key").Some?
    ensures r.Success? && r.value.Success? ==> r.value.value == Request(
      Lookup(body.doc.members, "ScheduleTime").value,
      Lookup(body.doc.members, "UserId").value,
      Lookup(body.doc.members, "Key").value)
    ensures r.Success? && r.value.Failure? ==> r.value.error.KeyError?
  {
    if body.NoBody? then Success(Failure(KeyError("body")))
    else if body.NullBody? then Failure(TypeError("the JSON object must be str, bytes or bytearray, not NoneType"))
    else if !body.doc.JObject? then Failure(Subscript(body.doc, "ScheduleTime").error)
    else
      var members := body.doc.members;
      var minutes := Lookup(members, "ScheduleTime");
      var userId := Lookup(members, "UserId");
      var key := Lookup(members, "Key");
      if minutes.None? then Success(Failure(KeyError("ScheduleTime")))
      else if userId.None? then Success(Failure(KeyError("UserId")))
      else if key.None? then Success(Failure(KeyError("Key")))
      else Success(Success(Request(minutes.value, userId.value, key.value)))
  }

  /** The largest number of days a `timedelta` holds. */
  const MaxDeltaDays: int := 999999999

  /** A duration in seconds fits a `timedelta`: its normalised days, the
      floor of the seconds over 86400, have magnitude at most
      `MaxDeltaDays`. */
  predicate DeltaInRange(seconds: int) {
    -MaxDeltaDays * 86400 <= seconds < (MaxDeltaDays + 1) * 86400
  }

  /** The `OverflowError` of a duration outside that range: a day count
      beyond a C `int` fails its conversion first. */
  function DeltaOverflow(seconds: int): Fault {
    var days := seconds / 86400;
    if days < -0x8000_0000 || days > 0x7FFF_FFFF then OverflowError("Python int too large to convert to C int")
    else OverflowError("days=" + (if days < 0 then "-" + Decimal(-days) else Decimal(days))
      + "; must have magnitude <= 999999999")
  }

  /** `timedelta(minutes=m)` for a decoded value, in seconds: an integer or
      a boolean (Python's bool is an int) is accepted when the duration fits
      a `timedelta`, a larger one raises `OverflowError`, anything else
      raises `TypeError`. */
  function Minutes(m: Json): (r: Result<int, Fault>)
    ensures r.Success? <==> m.JBool? || (m.JNumber? && DeltaInRange(m.n * 60))
    ensures m.JNumber? && DeltaInRange(m.n * 60) ==> r == Success(m.n * 60)
    ensures m.JNumber? && !DeltaInRange(m.n * 60) ==> r.Failure? && r.error.OverflowError?
    ensures m.JBool? ==> r == Success(if m.b then 60 else 0)
    ensures !m.JNumber? && !m.JBool? ==> r.Failure? && r.error.TypeError?
    ensures r.Success? ==> r.value % 60 == 0
  {
    match m
    case JNumber(n) =>
      if DeltaInRange(n * 60) then
        DivMod(n * 60, 60, n, 0);
        Success(n * 60)
      else Failure(DeltaOverflow(n * 60))
    case JBool(b) => Success(if b then 60 else 0)
    case _ => Failure(TypeError("unsupported type for timedelta minutes component: " + TypeName(m)))
  }

  /** `timedelta(minutes=m)` holds up to 1439999999999 minutes, the last
      minute before a billion days, and down to -1439999998560, minus
      999999999 days; one minute further either way overflows. */
  lemma {:induction false} MinutesLimit()
    ensures Minutes(JNumber(1439999999999)) == Success(86399999999940)
    ensures Minutes(JNumber(1440000000000)) ==
      Failure(OverflowError("days=" + Decimal(1000000000) + "; must have magnitude <= 999999999"))
    ensures Decimal(1000000000) == "1000000000"
    ensures Minutes(JNumber(-1439999998560)) == Success(-86399999913600)
    ensures Minutes(JNumber(-1439999998561)).Failure? && Minutes(JNumber(-1439999998561)).error.OverflowError?
  {
    assert 1440000000000 * 60 / 86400 == 1000000000;
    DecimalTens();
  }

  /** The numeral of a billion, one zero at a time. */
  lemma {:induction false} DecimalTens()
    ensures Decimal(1000000000) == "1000000000"
  {
    DecimalShift(1);
    DecimalShift(10);
    DecimalShift(100);
    DecimalShift(1000);
    DecimalShift(10000);
    DecimalShift(100000);
    DecimalShift(1000000);
    DecimalShift(10000000);
    DecimalShift(100000000);
  }

  /** The body the clock-out function receives: the request's user and key. */
  function TargetInput(request: Request): Json {
    JObject([("UserId", request.userId), ("Key", request.key)])
  }

  /** The 200 response's document. */
  function Scheduled(t: int): Json
    requires InRange(t)
  {
    JObject([("ScheduleTime", JString(IsoSeconds(t)))])
  }

  /** What a call of the handler does: its result (a response, or an
      exception that escapes), the AWS calls it makes and the event body it
      leaves behind. */
  datatype Handling = Handling(result: Result<Response, Fault>, calls: seq<Call>, body: EventBody)

  /** Where the handler's checks end: an answer given before any AWS call,
      or a complete request and the schedule time to book it for. */
  datatype Admission = Rejected(answer: Handling) | Accepted(request: Request, t: int)

  /** The handler up to `schedule_event`: read the body, convert the
      minutes and add them to `now`. */
  function Admit(body: EventBody, now: int): (a: Admission)
    requires InRange(now)
    ensures a.Rejected? ==> a.answer.calls == [] && a.answer.body == body
    ensures a.Rejected? ==> a.answer.result.Failure? || a.answer.result.value.statusCode == "400"
    ensures a.Accepted? ==>
      && ReadRequest(body) == Success(Success(a.request))
      && Minutes(a.request.minutes).Success?
      && a.t == now + Minutes(a.request.minutes).value && InRange(a.t)
  {
    var read := ReadRequest(body);
    if read.Failure? then Rejected(Handling(Failure(read.error), [], body))
    else if read.value.Failure? then Rejected(Handling(Success(Respond(Some(read.value.error), JNull)), [], body))
    else
      var request := read.value.value;
      var seconds := Minutes(request.minutes);
      if seconds.Failure? then Rejected(Handling(Failure(seconds.error), [], body))
      else
        var t := AddSeconds(now, seconds.value);
        if t.Failure? then Rejected(Handling(Failure(t.error), [], body))
        else Accepted(request, t.value)
  }

  /** The handler as a function of the event body, the clock and the
      `FailedEntryCount` that `put_targets` reports. */
  function Handle(body: EventBody, now: int, failedEntryCount: nat): (h: Handling)
    requires InRange(now)
  {
    match Admit(body, now)
    case Rejected(answer) => answer
    case Accepted(request, t) => Book(request, t, failedEntryCount)
  }

  /** The handler from `schedule_event` on, for the schedule time `t`. */
  function Book(request: Request, t: int, failedEntryCount: nat): (h: Handling)
    requires InRange(t)
  {
    var body := JsonBody(TargetInput(request));
    var calls := [PutRule(RuleName, MakeCronstr(t)), PutTargets(RuleName, "1", TargetArn, Some(EventDocument(body))), Permission];
    if failedEntryCount != 0 then
      Handling(Success(Respond(Some(Failed("Failed to add event target")), JNull)), calls, body)
    else Handling(Success(Respond(None, Scheduled(t))), calls, body)
  }

  /** The handler as written, where every `respond` goes through
      `RespondAsWritten`: the same checks and AWS calls as `Handle`. */
  function HandleAsWritten(body: EventBody, now: int, failedEntryCount: nat): Handling
    requires InRange(now)
  {
    var read := ReadRequest(body);
    if read.Failure? then Handling(Failure(read.error), [], body)
    else if read.value.Failure? then Handling(RespondAsWritten(Some(read.value.error), JNull), [], body)
    else
      var request := read.value.value;
      var seconds := Minutes(request.minutes);
      if seconds.Failure? then Handling(Failure(seconds.error), [], body)
      else
        var t := AddSeconds(now, seconds.value);
        if t.Failure? then Handling(Failure(t.error), [], body)
        else
          var input := JsonBody(TargetInput(request));
          var calls := [PutRule(RuleName, MakeCronstr(t.value)), PutTargets(RuleName, "1", TargetArn, Some(EventDocument(input))), Permission];
          if failedEntryCount != 0 then
            Handling(RespondAsWritten(Some(Failed("Failed to add event target")), JNull), calls, input)
          else Handling(RespondAsWritten(None, Scheduled(t.value)), calls, input)
  }

  /** The handler as written makes the same AWS calls and leaves the same
      body as `Handle`, and raises AttributeError exactly where `Handle`
      answers 400; every other outcome is the same. */
  lemma {:induction false} HandleAsWrittenRaises(body: EventBody, now: int, failed: nat)
    requires InRange(now)
    ensures var h := Handle(body, now, failed);
      var w := HandleAsWritten(body, now, failed);
      && w.calls == h.calls && w.body == h.body
      && (h.result.Success? && h.result.value.statusCode == "400" <==>
          w.result.Failure? && w.result.error.AttributeError?)
      && (h.result.Failure? || h.result.value.statusCode == "200" ==> w.result == h.result)
  {
    var h := Handle(body, now, failed);
    var w := HandleAsWritten(body, now, failed);
    var a := Admit(body, now);
    if a.Rejected? {
      var read := ReadRequest(body);
      if read.Success? && read.value.Failure? {
        RespondAsWrittenNeverReports(Some(read.value.error), JNull);
      } else if read.Success? {
        assert h.result.Failure? && !h.result.error.AttributeError?;
      }
    } else {
      assert h == Book(a.request, a.t, failed);
      RespondAsWrittenNeverReports(Some(Failed("Failed to add event target")), JNull);
      RespondAsWrittenNeverReports(None, Scheduled(a.t));
    }
  }

  /** `lambda_handler(event, context)` with `datetime.utcnow()` as `now`. */
  method LambdaHandler(event: ApiEvent, cloud: Cloud, now: int) returns (r: Result<Response, Fault>)
    requires InRange(now)
    modifies event, cloud
    ensures var h := Handle(old(event.body), now, cloud.failedEntries(|old(cloud.calls)| + 1));
      && r == h.result && cloud.calls == old(cloud.calls) + h.calls && event.body == h.body
  {
    var read := ReadRequest(event.body);
    if read.Failure? {
      return Failure(read.error);
    }
    if read.value.Failure? {
      return Success(Respond(Some(read.value.error), JNull));
    }
    var request := read.value.value;
    var seconds := Minutes(request.minutes);
    if seconds.Failure? {
      return Failure(seconds.error);
    }
    var scheduled := AddSeconds(now, seconds.value);
    if scheduled.Failure? {
      return Failure(scheduled.error);
    }
    var t := scheduled.value;
    ScheduleEvent(cloud, t);
    event.body := JsonBody(TargetInput(request));
    var ok := SetTarget(cloud, event);
    if !ok {
      return Success(Respond(Some(Failed("Failed to add event target")), JNull));
    }
    r := Success(Respond(None, Scheduled(t)));
  }

  // ---------------------------------------------------------------------
  // Properties of the handler

  /** A request missing a key is answered 400 naming the first missing key,
      before any rule is put and without touching the event. */
  lemma {:induction false} MissingKeyAnswers400(body: EventBody, now: int)
    requires InRange(now)
    requires body.NoBody? || (body.JsonBody? && body.doc.JObject? && (
      || Lookup(body.doc.members, "ScheduleTime").None?
      || Lookup(body.doc.members, "UserId").None?
      || Lookup(body.doc.members, "Key").None?))
    ensures forall failed: nat :: var h := Handle(body, now, failed);
      && h.calls == [] && h.body == body
      && h.result.Success? && h.result.value.statusCode == "400"
      && h.result.value.body == Text(
        if body.NoBody? then "body"
        else if Lookup(body.doc.members, "ScheduleTime").None? then "ScheduleTime"
        else if Lookup(body.doc.members, "UserId").None? then "UserId"
        else "Key")
  {
  }

  /** Which requests reach `schedule_event`: complete ones whose minutes
      convert and whose schedule time stays within the calendar. */
  lemma {:induction false} Booking(body: EventBody, now: int, failed: nat) returns (request: Request, t: int)
    requires InRange(now) && Handle(body, now, failed).calls != []
    ensures ReadRequest(body) == Success(Success(request))
    ensures Minutes(request.minutes).Success? && t == now + Minutes(request.minutes).value && InRange(t)
    ensures Handle(body, now, failed) == Book(request, t, failed)
  {
    var a := Admit(body, now);
    assert a.Accepted?;
    request, t := a.request, a.t;
  }

  /** A complete request whose minutes are a number and whose schedule time
      stays within the calendar is admitted for `now` plus those minutes. */
  lemma {:induction false} CompleteRequestSchedules(body: EventBody, now: int, request: Request, minutes: int)
    requires InRange(now) && InRange(now + minutes * 60)
    requires ReadRequest(body) == Success(Success(request))
    requires request.minutes == JNumber(minutes)
    ensures Admit(body, now) == Accepted(request, now + minutes * 60)
  {
    assert Minutes(request.minutes) == Success(minutes * 60);
    assert AddSeconds(now, minutes * 60) == Success(now + minutes * 60);
  }

  /** An admitted request is booked for its schedule time. */
  lemma {:induction false} HandleAccepted(body: EventBody, now: int, failed: nat, request: Request, t: int)
    requires InRange(now) && Admit(body, now) == Accepted(request, t)
    ensures Handle(body, now, failed) == Book(request, t, failed)
  {
  }

  /** Booking puts the rule for the schedule time, targets it with the
      event whose body is the user and key, leaves that body in the event,
      and answers 200 exactly when the target was added. */
  lemma {:induction false} BookEffects(request: Request, t: int, failed: nat)
    requires InRange(t)
    ensures var h := Book(request, t, failed);
      && h.calls == [PutRule(RuleName, MakeCronstr(t)), PutTargets(RuleName, "1", TargetArn, Some(EventDocument(JsonBody(TargetInput(request))))), Permission]
      && Lookup(h.calls[1].input.value.members, "body") == Some(TargetInput(request))
      && h.body == JsonBody(TargetInput(request))
      && h.result.Success?
      && (h.result.value.statusCode == "200" <==> failed == 0)
      && (failed != 0 ==> h.result.value.body == Text("Failed to add event target"))
  {
  }

  /** The target's input carries the request's user and key and nothing
      else. */
  lemma {:induction false} TargetInputCarries(request: Request)
    ensures var members := TargetInput(request).members;
      && Lookup(members, "UserId") == Some(request.userId)
      && Lookup(members, "Key") == Some(request.key)
      && forall i :: 0 <= i < |members| ==> members[i].0 in {"UserId", "Key"}
  {
    var members := TargetInput(request).members;
    assert members[..1] == [("UserId", request.userId)];
  }

  /** A 200 answer comes from a booking for a schedule time whole minutes
      after `now`; `BookedAnswer` says what that booking returns. */
  lemma {:induction false} AnswerAgreesWithRule(body: EventBody, now: int, failed: nat) returns (request: Request, t: int)
    requires InRange(now)
    requires Handle(body, now, failed).result.Success?
    requires Handle(body, now, failed).result.value.statusCode == "200"
    ensures InRange(t) && Handle(body, now, failed) == Book(request, t, failed)
    ensures (t - now) % 60 == 0 && failed == 0
  {
    var a := Admit(body, now);
    assert a.Accepted?;
    request, t := a.request, a.t;
    BookEffects(request, t, failed);
  }

  /** A 200 booking returns the schedule time it put the rule for: the
      returned ISO text reads back as that instant, and the rule fires at
      the start of its minute. */
  lemma {:induction false} BookedAnswer(request: Request, t: int)
    requires InRange(t)
    ensures var h := Book(request, t, 0);
      && h.result.value.body == Encoded(Scheduled(t))
      && Lookup(Scheduled(t).members, "ScheduleTime") == Some(JString(IsoSeconds(t)))
      && ParseIsoSeconds(IsoSeconds(t)) == Success(t)
      && h.calls[0] == PutRule(RuleName, MakeCronstr(t))
      && ParseCron(MakeCronstr(t)) == Some(CronOf(t))
      && FiresAt(CronOf(t)) == Success(t - SecondOf(t))
  {
    IsoSecondsRoundTrip(t);
    CronFiresInScheduledMinute(t);
  }

  /** An exception that escapes the handler leaves EventBridge and the
      event as they were, and so does a 400 for a missing key; a call that
      puts a rule always makes all three calls. */
  lemma {:induction false} EscapeTouchesNothing(body: EventBody, now: int, failed: nat)
    requires InRange(now)
    ensures var h := Handle(body, now, failed);
      && (h.result.Failure? ==> h.calls == [] && h.body == body)
      && (h.calls == [] || (|h.calls| == 3 && h.calls[0].PutRule? && h.calls[1].PutTargets? && h.calls[2] == Permission))
      && (h.calls == [] <==> h.result.Failure? || ReadRequest(body).value.Failure?)
  {
  }

  /** An event whose body is `None` makes `json.loads` raise `TypeError`,
      which escapes the handler, while an event without the key is
      answered 400. */
  lemma {:induction false} NullBodyEscapes(now: int, failed: nat)
    requires InRange(now)
    ensures var h := Handle(NullBody, now, failed);
      h.result.Failure? && h.result.error.TypeError? && h.calls == [] && h.body == NullBody
    ensures var h := Handle(NoBody, now, failed);
      h.result == Success(Respond(Some(KeyError("body")), JNull)) && h.calls == [] && h.body == NoBody
  {
  }

  /** The schedule time leaving the calendar raises `OverflowError`
      before any rule is put. */
  lemma {:induction false} ScheduleOverflows(body: EventBody, now: int, failed: nat, request: Request, minutes: int)
    requires InRange(now) && !InRange(now + minutes * 60)
    requires ReadRequest(body) == Success(Success(request))
    requires request.minutes == JNumber(minutes)
    ensures var h := Handle(body, now, failed);
      h.result.Failure? && h.result.error.OverflowError? && h.calls == []
  {
  }

  /** `ScheduleTime` given as a string is not converted: `timedelta` raises
      `TypeError`, which the handler does not catch. */
  lemma {:induction false} TextMinutesRaise(body: EventBody, now: int, failed: nat, request: Request)
    requires InRange(now)
    requires ReadRequest(body) == Success(Success(request))
    requires request.minutes.JString?
    ensures var h := Handle(body, now, failed);
      h.result.Failure? && h.result.error.TypeError? && h.calls == []
  {
  }
}
