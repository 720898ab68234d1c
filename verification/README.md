# ADP autoclocker timesheet engine, in Dafny

This project models the core of the ADP autoclocker. The model covers two programs.

The first is the interactive clock-in tool (`timecalc.py`). It does the following:
- Reads the day's clock events and the server time out of the ADP portal page (`parse_response`, `parse_ids`).
- Rounds every clock event to the clock interval (`round_datetime`).
- Pairs the events into a time table, closing an open interval at the next interval boundary (`calculate_time_table`).
- Marks the rows still in the future (`display_clocktable`).
- Derives three values (`calculate_summary`): whether the user is clocked in, the work time still owed, and the clock-out time that settles it.
- Runs a command loop (`main_withlogin`). Each pass refreshes the page and re-logs in once when the session has expired. It then clocks in or out, or asks the AWS scheduler for an automatic clock-out (`handle_in`, `handle_out`, `handle_auto`).

The second is the scheduler Lambda (`lambda_adp_scheduler/clockout_scheduler.py`). It does the following:
- Validates a request body.
- Turns "minutes from now" into a one-shot EventBridge `cron(...)` rule (`make_cronstr`).
- Replaces the event's body with the user and key, and points the rule at the clock-out function with the whole event as its input (`set_target`).
- Answers 200 with the scheduled instant, or 400 (`respond`).

Modules, one per file:

| module | file | content |
|---|---|---|
| `Wrappers` | wrappers.dfy | `Option`, `Result`, and the Python exceptions that escape (`Fault`) |
| `Arith` | arith.dfy | multiplication and division facts |
| `Text` | text.dfy | character classes, substring search, decimal numerals |
| `Calendar` | calendar.dfy | Python's proleptic Gregorian `datetime` |
| `Rounding` | rounding.dfy | `round_datetime` |
| `DateFormat` | dateformat.dfy | `strptime`/`strftime` for the three fixed formats |
| `PageParser` | pageparser.dfy | `parse_response`, `parse_ids` |
| `TimeTable` | timetable.dfy | `calculate_time_table`, `calculate_summary`, the provisional marking |
| `Session` | session.dfy | `main_withlogin` and its handlers |
| `Scheduler` | scheduler.dfy | the scheduler Lambda |

How values are represented:
- An instant is an integer number of seconds since 0001-01-01T00:00:00.
- A duration is an integer number of seconds.
- The resolution `HOURS_RESOLUTION` is a positive whole number of minutes.
- With these representations, Python's float arithmetic in `round_datetime` is exact.

How the outside is represented:
- In `Session`, the portal, the clock POST, the AWS scheduler, `print` and `input` are the methods of an `Env` object.
- What the outside answers is fixed in advance by a `World`: the page of each login and each refresh, the reply to each post, and the typed lines.
- `MainWithLogin` is a `while` loop over an `Env`. It is proved equal to the function `Run`, and the lemmas about a run are stated on `Run`.
- In `Scheduler`, EventBridge and Lambda are a `Cloud` object that records the calls made to it.
- In `Scheduler`, `datetime.utcnow()` is the parameter `now`.

Two defects of the code are corrected rather than followed; they are listed under "## Findings", each with a member that models the code as written. Elsewhere, where the written description of the system and the code disagree, the model follows the code:
- **Worked day.** The day in question has clock-ins 09:00 and 13:00, a clock-out at 12:00, the server at 14:10, 15-minute intervals and an 8-hour day.
  - The open interval closes at `round(14:25)`, which is 14:30, not 14:15.
  - 3:30 remains, and the clock-out time is 18:00 (`WorkedDayTable`, `WorkedDaySummary`).
- **No positivity check.** `handle_auto` sends `time_to_out - now` to the scheduler even when it is zero or negative.
- **Clocked in after clocking out.** A real clock-out that rounds to a time after now leaves the user reported as clocked in (`ClockedOutYetIn`).
- **`if div_login:`.** This tests an lxml element's truth value, which means "present and has children".

## Model

| member | source | states |
|---|---|---|
| Calendar.MakeDateTime | timecalc.py:270-271 | `datetime(y, m, d, h, mi, s)` succeeds exactly when every field is in range (otherwise ValueError), giving a representable instant |
| Calendar.FieldsOfAt | timecalc.py:270-271 | the instant built from valid fields has exactly those fields back: its date, hour, minute and second |
| Calendar.AddSeconds | timecalc.py:297-298 | adding a duration raises OverflowError exactly when the result falls outside years 1..9999, and otherwise moves the instant by exactly that duration |
| Text.Contains | timecalc.py:158 | `needle in haystack` holds exactly when the needle occurs at some index of the text |
| Text.DecimalRoundTrip | lambda_adp_scheduler/clockout_scheduler.py:30-36 | the unpadded numeral `'{}'.format(n)` reads back as `n` |
| DateFormat.Hour24 | timecalc.py:250-253 | `%I %p` gives hour 0 for 12 AM and 12 for 12 PM, adds 12 to other PM hours, and the hour is below 12 exactly for AM |
| DateFormat.Hour12 | timecalc.py:250-253 | every 24-hour hour has a 12-hour reading that `%I %p` maps back to it |
| DateFormat.ScanRender | timecalc.py:240-241 | for a format whose fields are separated, scanning what strftime rendered gives back the rendered values |
| DateFormat.ParseClockEvent | timecalc.py:250-253 | a converted clock-event timestamp is a representable instant on a whole minute |
| DateFormat.ClockEventRoundTrip | timecalc.py:250-253 | every instant on a whole minute, written as `%m/%d/%Y %I:%M %p`, parses back to itself |
| DateFormat.ParseServerTime | timecalc.py:240-241 | a converted server time is a representable instant |
| DateFormat.ServerTimeRoundTrip | timecalc.py:240-241 | every instant written as `%B %d, %Y %H:%M:%S` parses back to itself |
| DateFormat.IsoSecondsRoundTrip | aws_adp_client/scheduler_client.py:69 | the scheduler's `isoformat(timespec='seconds')` answer parses back, with `%Y-%m-%dT%H:%M:%S`, to the scheduled instant |
| Rounding.RoundHalfEven | timecalc.py:267 | `round(minute / res)` is within half an interval of the exact quotient, takes the even one on a tie, and is not negative for a non-negative minute |
| Rounding.RoundHalfEvenUnique | timecalc.py:267 | no other integer has those properties |
| Rounding.RoundDatetime | timecalc.py:257-272 | rounding succeeds exactly when the rounded minute, carried into the hour, stays before 24:00 (otherwise ValueError); the result keeps the date, has zero seconds, lies a whole number of intervals after the top of the hour, is within half an interval of the minute, and on a tie is an even number of intervals |
| Rounding.RoundIdempotent | timecalc.py:266-272 | when the interval divides the hour, rounding a rounded instant changes nothing |
| Rounding.RoundNotIdempotent | timecalc.py:266-272 | when it does not (90 minutes), rounding twice can move the instant again |
| Rounding.RoundFailsOnlyLate | timecalc.py:268-271 | with an interval of at most an hour, rounding fails only in the day's last hour |
| Rounding.RoundPastMidnightFails | timecalc.py:268-271 | from 23:53 on, quarter-hour rounding reaches hour 24 and fails |
| Rounding.RoundTieToEven | timecalc.py:267 | xx:25 on a ten-minute grid rounds down to xx:20 |
| Rounding.RoundHalfPastOn90 | timecalc.py:267 | hh:30 on a 90-minute grid rounds down to hh:00 |
| Rounding.NextBoundary | timecalc.py:297-298 | the provisional clock-out `round(now + res)` is strictly after now and on a whole minute |
| TimeTable.RoundAll | timecalc.py:295-296 | rounding a list succeeds exactly when every rounding does, keeps the length, and puts each instant's rounding at its index |
| TimeTable.CalculateTimeTable | timecalc.py:275-311 | one row per clock-in, in order; the in column holds the rounded clock-ins; the out column holds the rounded clock-out of the same index, or the provisional boundary after now; duration is out minus in; a provisional row is always shown parenthesised (line 336); the table fails exactly when a rounding or the boundary fails, or when there are more clock-outs than clock-ins (TypeError) |
| TimeTable.CalculateSummary | timecalc.py:345-377 | an empty table gives (not in, the full target, None); otherwise the owed time plus the counted durations is the target, the user is in exactly when the last clock-out is after now, the clock-out time exists exactly when the user is in and is the last clock-out plus the owed time; OverflowError exactly when that instant leaves the calendar |
| TimeTable.ClockOutCompletesTarget | timecalc.py:370-377 | clocking out at the recommended time makes the day's total exactly the target |
| TimeTable.OpenDayIsIn | timecalc.py:297-311 | a day with a clock-in still open reports the user as clocked in, with a clock-out time |
| TimeTable.OneInOneOut | timecalc.py:295-311 | a clock-in on the grid with one clock-out gives a single closed row ending at the rounded clock-out, whatever the server time |
| TimeTable.WorkedDayTable | timecalc.py:275-311 | in 09:00 and 13:00, out 12:00, now 14:10 on a quarter-hour grid: rows (09:00, 12:00, 3h) and (13:00, 14:30, 1:30) |
| TimeTable.TwoInsOneOut | timecalc.py:300-311 | two clock-ins and one clock-out on the grid give a closed row and a row closed at the boundary |
| TimeTable.WorkedDaySummary | timecalc.py:370-377 | on those rows with an 8-hour target: clocked in, 3:30 owed, clock-out at 18:00 |
| TimeTable.OpenMorning | timecalc.py:297-311 | in at 09:00 with the server at 12:34: one provisional row closing at 12:45 |
| TimeTable.ClockedOutYetIn | timecalc.py:371-377 | out at 11:53 with the server at 11:55: the clock-out rounds to 12:00, so the user is reported clocked in, with clock-out 17:00 |
| PageParser.NoOverlap | timecalc.py:243-244 | two matches of an event pattern never overlap |
| PageParser.MatchesFrom | timecalc.py:243-249 | findall's scan reports every match, in increasing order, without overlaps |
| PageParser.FindAllCaptures | timecalc.py:243-249 | findall reports the captured timestamp of each of those matches, in the same order |
| PageParser.FindAllShift | timecalc.py:243-249 | scanning a text from index n + j reports the same timestamps as scanning the text with its first n characters removed from index j |
| PageParser.FindAllBlock | timecalc.py:243-249 | a tagged timestamp in front of more text is reported exactly when its tag is the one searched for, followed by what the rest reports |
| PageParser.FindAll | timecalc.py:243-249 | every reported timestamp has the `\d{2}/\d{2}/\d{4} \d{2}:\d{2} (AM|PM)` shape |
| PageParser.ParseAll | timecalc.py:250-253 | converting a list succeeds exactly when every timestamp converts, and converts each in place |
| PageParser.CaptureAt | timecalc.py:233-234 | a capture exists only where the declaration's lead text occurs; the server time is a non-empty run of non-quotes, an identifier a run of word characters |
| PageParser.Search | timecalc.py:233-234 | `re.search` finds the first index where the pattern matches, and none before it |
| PageParser.SearchFinds | timecalc.py:233-234 | when the pattern matches at k and nowhere from i up to k, the search from i finds k |
| PageParser.SearchGroup | timecalc.py:129-130 | `.group(1)` succeeds exactly when the search found a match and returns that match's capture; a failed search gives AttributeError |
| PageParser.ParseIds | timecalc.py:116-131 | the customer and employee identifiers are the captures of the first `var _custID = '...'` and `var _employeeId = '...'`; both must be found |
| PageParser.ParseEvents | timecalc.py:243-253 | the day carries the given server time; no clock-in found gives an empty day and clock-outs are not looked at; otherwise the day succeeds exactly when every found clock-in and clock-out timestamp converts, and its clock-ins and clock-outs are those conversions, in order |
| PageParser.ParseResponse | timecalc.py:199-254 | an empty page gives None; without an activities list, SessionExpired exactly when the login form is shown, else ParseFailure with the page text; ParseFailure exactly when no `sDate` matches; a parsed day has no clock-outs without clock-ins and only representable instants |
| PageParser.ParseResponseReads | timecalc.py:232-253 | a parsed day's server time is strptime of what the first `sDate` match captures, and its events are what the activities text gives at that time |
| PageParser.ParsedInRange | timecalc.py:243-253 | a converted day holds only representable instants, and has no clock-outs without a clock-in |
| PageParser.ParseResponseAsWritten | timecalc.py:223-224 | as written, a page without the activities element raises TypeError from `len(None)`; otherwise it agrees with `ParseResponse` |
| PageParser.ExpiredPageCrashesAsWritten | timecalc.py:223-229 | a login page without the activities element crashes as written, where SessionExpired was meant |
| PageParser.TimestampShape | timecalc.py:243-244 | every timestamp the portal writes has the shape the pattern asks for |
| PageParser.FindAllEvents | timecalc.py:243-249 | over an activity list, findall for a tag finds exactly that tag's timestamps, in list order |
| PageParser.ParseStamps | timecalc.py:250-253 | the timestamps of a list of events convert back to their instants |
| PageParser.ServerTimeFound | timecalc.py:233-241 | when the `sDate` declaration of an instant starts at index i and the pattern matches nowhere before i, the search finds i and captures that instant's text |
| PageParser.EventsRoundTrip | timecalc.py:243-253 | an activities text in which findall finds exactly the timestamps of a list of events converts to exactly their clock-ins and clock-outs, in order, with no clock-outs on a day without a clock-in |
| PageParser.DeclaredRoundTrip | timecalc.py:240-253 | the rendered server time and activity list of a day read back as that day |
| PageParser.ParseResponseRoundTrip | timecalc.py:199-254 | a page whose text has a server-time declaration after markup in which the pattern matches nowhere, and whose activities element holds an activity list, parses to exactly its clock-ins and clock-outs, in order, and the server time, with no clock-outs on a day without a clock-in |
| Session.ParseCommand | timecalc.py:449-459 | a line ends the loop exactly when it is none of `in`, `out`, `auto`, `next`, `r` |
| Session.CommandTextRoundTrip | timecalc.py:449-455 | each command's line selects that command |
| Session.RefreshAndParse | timecalc.py:430-436 | the pass parses the page it fetched; a parsed day is in range; no line is read |
| Session.Summarize | timecalc.py:437-443 | if in, there is a clock-out time and a last clock-out; in exactly when the last clock-out is after the server time; the clock-out time is the last clock-out plus the owed time; no last clock-out exactly on a day without clock-ins |
| Session.Dispatch | timecalc.py:449-460 | a command that lets the loop go on reads no further line and keeps what the pass saw; one that ends it (a line outside the vocabulary, or a TypeError from `handle_auto`) leaves the outside untouched |
| Session.Decide | timecalc.py:437-460 | a pass that goes on has read exactly one line, and a line existed |
| Session.Proceed | timecalc.py:431-460 | the same, after the fetch |
| Session.Iterate | timecalc.py:429-460 | the same, for a whole pass |
| Session.Env.Login | timecalc.py:427 | a login returns the next login page, opens a session numbered by the logins before it, and is logged |
| Session.Env.Refresh | timecalc.py:430 | a refresh returns the session's next page and is logged |
| Session.Env.Post | timecalc.py:134-157 | the clock POST returns the next reply and is logged with the session, the identifiers and the direction |
| Session.Env.Schedule | timecalc.py:481-483 | the scheduler call is logged with the user and the delta |
| Session.Env.Say | timecalc.py:464-465 | a printed message is logged |
| Session.Env.Input | timecalc.py:445-448 | `input()` gives the next typed line, or EOFError and no change once the lines have run out |
| Session.ClockInOut | timecalc.py:134-162 | post the event, then report success exactly when the reply contains 'Operation Successful' |
| Session.HandleIn | timecalc.py:463-467 | already in: only a message; otherwise a clock-in |
| Session.HandleOut | timecalc.py:470-474 | not in: only a message; otherwise a clock-out |
| Session.HandleAuto | timecalc.py:477-485 | not in: only a message; in without a clock-out time: TypeError; otherwise the scheduler is asked for `time_to_out - now` |
| Session.Fetch | timecalc.py:430-436 | the refresh, and the re-login after an expiry, do to the outside exactly what `RefreshAndParse` says and return its parse |
| Session.Respond | timecalc.py:437-460 | summarising, reading the identifiers and the line, and dispatching end the loop exactly when `Decide` stops, with its outcome, session and effects |
| Session.Obey | timecalc.py:449-460 | running the command does exactly what `Dispatch` says |
| Session.MainWithLogin | timecalc.py:425-460 | the loop's outcome and everything it does to the outside are those of `Run` |
| Session.FetchEffects | timecalc.py:430-436 | the fetch refreshes first, logs in at most once more, reads no line, and neither posts nor schedules |
| Session.ExpiredOnce | timecalc.py:431-436 | an expired session is followed by the message, one login and the parse of its page; a second expiry escapes |
| Session.DispatchShape | timecalc.py:449-460 | only a line outside the vocabulary ends the loop; `r` logs in and dispatches nothing; `auto` and `next` ask for `time_to_out - now` and `last_out - now` |
| Session.DispatchCounts | timecalc.py:463-485 | `in` posts only when not in; `out`, `auto` and `next` post or schedule only when in; at most one action per command |
| Session.ClockCounts | timecalc.py:134-162 | a clock action is one post in the right direction and one message |
| Session.DispatchSchedules | timecalc.py:477-483 | when in, `next` asks for a positive delay and `auto` for that delay plus the time still owed, which may make it zero or negative |
| Session.DecideReaches | timecalc.py:437-460 | after a parse, a pass either stops with nothing done, or dispatches the typed command on the day's summary and the page's identifiers |
| Session.ProceedSeen | timecalc.py:437-448 | a pass that went on saw the summary of the fetched day and the next typed line |
| Session.ProceedDispatched | timecalc.py:437-460 | a pass that went on dispatched what it saw, and what it saw is consistent (in ⇒ last clock-out after now, clock-out time = last clock-out + owed) |
| Session.ProceedShape | timecalc.py:437-460 | after the fetch a pass only appends, logs in at most once and reads at most one line |
| Session.PassShape | timecalc.py:429-460 | a pass refreshes first, logs in at most twice and reads at most one line |
| Session.ProceedCounts | timecalc.py:449-460 | a pass's posts and schedules are gated by the summary it saw; a pass that ends the loop does neither |
| Session.PassCounts | timecalc.py:429-460 | the same, fetch included |
| Session.LoopBounds | timecalc.py:428-460 | over the loop: at least one refresh, at most two logins per refresh, at most one post or schedule per line read |
| Session.PassPrefix | timecalc.py:429-430 | a pass only appends to the log, and its first entry is the refresh |
| Session.LoopPrefix | timecalc.py:428-430 | the loop only appends to the log, starting with a refresh |
| Session.RunBounds | timecalc.py:425-460 | a run starts with a login and a refresh, logs in at most once more than twice per refresh, and acts at most once per line read |
| Scheduler.LookupFindsLast | lambda_adp_scheduler/clockout_scheduler.py:96-99 | a key of the decoded body is found exactly when some member has it, and the value is the last such member's |
| Scheduler.Subscript | lambda_adp_scheduler/clockout_scheduler.py:97-99 | subscripting succeeds exactly on an object; anything else raises TypeError |
| Scheduler.Respond | lambda_adp_scheduler/clockout_scheduler.py:13-20 | status '400' exactly when an error is given, '200' otherwise; JSON content type always; the body is the error's text or the encoded result |
| Scheduler.RespondAsWrittenNeverReports | lambda_adp_scheduler/clockout_scheduler.py:13-20 | as written, every error response raises AttributeError, so only 200 answers are ever produced |
| Scheduler.HandleAsWrittenRaises | lambda_adp_scheduler/clockout_scheduler.py:75-113 | the handler as written makes the same AWS calls and leaves the same body, raises AttributeError exactly where the corrected handler answers 400, and otherwise gives the same outcome |
| Scheduler.MissingUserIdRaisesAsWritten | lambda_adp_scheduler/clockout_scheduler.py:100-101 | a body without `UserId` raises where the 400 `UserId` answer was meant |
| Scheduler.CronRoundTrip | lambda_adp_scheduler/clockout_scheduler.py:22-37 | the expression `cron(minute hour day month ? year)`, unpadded, reads back as its fields |
| Scheduler.FieldsFire | lambda_adp_scheduler/clockout_scheduler.py:30-36 | an instant's minute, hour, day, month and year name the start of its minute |
| Scheduler.CronFiresInScheduledMinute | lambda_adp_scheduler/clockout_scheduler.py:40-46 | the rule put for an instant fires at the start of that instant's minute |
| Scheduler.CronSameMinute | lambda_adp_scheduler/clockout_scheduler.py:22-37 | two instants give the same expression exactly when they fall in the same minute |
| Scheduler.Cloud.PutRuleCall | lambda_adp_scheduler/clockout_scheduler.py:46 | `put_rule` is recorded |
| Scheduler.Cloud.PutTargetsCall | lambda_adp_scheduler/clockout_scheduler.py:60 | `put_targets` is recorded and answers its `FailedEntryCount` |
| Scheduler.Cloud.AddPermissionCall | lambda_adp_scheduler/clockout_scheduler.py:68-71 | `add_permission` is recorded, and its failure is not seen |
| Scheduler.ScheduleEvent | lambda_adp_scheduler/clockout_scheduler.py:40-46 | puts the rule `scheduleClockOut` with the instant's cron expression |
| Scheduler.EventDocument | lambda_adp_scheduler/clockout_scheduler.py:56 | the serialised event is an object whose `body` member is the event's body: absent without the key, `null` for `None` |
| Scheduler.SetTarget | lambda_adp_scheduler/clockout_scheduler.py:49-72 | targets the rule at the clock-out function with the whole event as input, adds the permission, and succeeds exactly when `FailedEntryCount == 0` |
| Scheduler.ReadRequest | lambda_adp_scheduler/clockout_scheduler.py:95-101 | a `None` body or a body that is not an object raises TypeError; an event without a `body` key, or an object body missing one of the three keys, gives a KeyError naming the first missing key; otherwise the request is read from the three keys |
| Scheduler.Minutes | lambda_adp_scheduler/clockout_scheduler.py:102 | `timedelta(minutes=m)` accepts a boolean, and an integer exactly when the duration's days stay within ±999999999, giving whole minutes; a larger integer raises OverflowError and any other type TypeError |
| Scheduler.MinutesLimit | lambda_adp_scheduler/clockout_scheduler.py:102 | the largest and smallest minute counts a `timedelta` holds, and the OverflowError one minute beyond each |
| Scheduler.LambdaHandler | lambda_adp_scheduler/clockout_scheduler.py:75-113 | the handler's answer, AWS calls and the event body it leaves are those of `Handle` |
| Scheduler.MissingKeyAnswers400 | lambda_adp_scheduler/clockout_scheduler.py:95-101 | a missing key is answered 400 naming it, before any AWS call and with the event untouched |
| Scheduler.Admit | lambda_adp_scheduler/clockout_scheduler.py:95-103 | a rejected request gets a 400 answer or an escaping exception with no AWS call and the body untouched; an accepted one read all three keys, its minutes converted and its schedule time `now + minutes` is representable |
| Scheduler.Booking | lambda_adp_scheduler/clockout_scheduler.py:102-104 | AWS is called only for a complete request whose minutes convert and whose schedule time `now + minutes` stays in the calendar |
| Scheduler.CompleteRequestSchedules | lambda_adp_scheduler/clockout_scheduler.py:102-104 | a complete request with integer minutes and a representable schedule time passes every check, with schedule time `now + 60·minutes` seconds |
| Scheduler.HandleAccepted | lambda_adp_scheduler/clockout_scheduler.py:104-113 | a request that passes the checks is booked, by `schedule_event`, for its schedule time |
| Scheduler.BookEffects | lambda_adp_scheduler/clockout_scheduler.py:104-112 | booking puts the rule, the target and the permission in that order; the target's input is the event whose body is the user and key, and that body is left in the event; it answers 200 exactly when the target was added |
| Scheduler.TargetInputCarries | lambda_adp_scheduler/clockout_scheduler.py:105-109 | the target input carries exactly the request's `UserId` and `Key` |
| Scheduler.AnswerAgreesWithRule | lambda_adp_scheduler/clockout_scheduler.py:102-113 | a 200 answer comes from a booking for a schedule time a whole number of minutes after now |
| Scheduler.BookedAnswer | lambda_adp_scheduler/clockout_scheduler.py:104-113 | a 200 booking returns an ISO text that reads back as the schedule time, and its rule fires at the start of that time's minute |
| Scheduler.EscapeTouchesNothing | lambda_adp_scheduler/clockout_scheduler.py:95-104 | an escaping exception leaves AWS and the event untouched; AWS is called either not at all or with all three calls |
| Scheduler.NullBodyEscapes | lambda_adp_scheduler/clockout_scheduler.py:95-101 | a `None` body raises TypeError out of the handler with no AWS call, while an event without the key is answered 400 naming `body` |
| Scheduler.ScheduleOverflows | lambda_adp_scheduler/clockout_scheduler.py:102-103 | a schedule time outside the calendar raises OverflowError before any AWS call |
| Scheduler.TextMinutesRaise | lambda_adp_scheduler/clockout_scheduler.py:102 | `ScheduleTime` given as a string raises TypeError before any AWS call |

## Left out

- HTTP transport is left out: `login_session`, `refresh_session` and the POST in `clock_inout` are represented by the `World` answers. A `World` fixes each page and reply by call number, so the portal's answers cannot depend on what was posted within the same run. Network exceptions are not modelled.
- The lxml tree is left out. A page is a record with three fields: the raw text, the `divActivities` element (missing, childless, or the text content of its first child), and the truth value of `mainLoginWrapper`.
- `%d` in strptime also accepts a space followed by one digit (`" 5"`). The model reads only one or two digits, so a clock-event timestamp such as `01/ 5/2024 09:00 AM` fails to convert here. The portal's `\d{2}` timestamps and its `%B %d` server time never contain that form.
- Regular-expression character classes are the ASCII ones. The case folding that strptime's IGNORECASE matching applies to non-ASCII letters (for example 'ſ' matching 's' in a month name) is not modelled either.
- Configuration is left out. `read_config`, the config file and the globals are gone. `WORK_HOURS` is an integer number of seconds and `HOURS_RESOLUTION` a positive integer number of minutes, both passed as parameters; fractional values from `getfloat` are not modelled.
- Microseconds are left out. Instants are whole seconds, and the microseconds of `utcnow()` are not modelled.
- Output formatting is left out: `display_clocktable`'s text, `hours_delta`, `tformatter` and `display_summary`. Of the display, only the parenthesised-row rule is kept (`ShownProvisional`).
- In `handle_auto`, the scheduled time returned by `execute_saved_scheduler`, its `astimezone` conversion and its printout are left out, along with the scheduler client's own failures. The client's float `ScheduleTime // 60` is not modelled either.
- JSON text is left out: an event body and a response body are the decoded documents. Malformed JSON (a ValueError from `json.loads`), non-integral numbers, and the encoding rules of `json.dumps` are not modelled.
- Scheduler.ApiEvent holds only the event's `body`. The other keys of the API Gateway event, which `set_target` also serialises into the target input, are not modelled. The serialised body is recorded as the document it encodes, not as JSON text.
- Session.RefreshAndParse, Session.Fetch, Session.FetchEffects, Session.ExpiredOnce, Session.MainWithLogin and the lemmas about `Run` use the corrected `PageParser.ParseResponse`: as written, a non-empty page without `divActivities` raises TypeError, which the loop does not catch (timecalc.py:223, 433).
- Scheduler.Handle, Scheduler.LambdaHandler, Scheduler.MissingKeyAnswers400, Scheduler.BookEffects, Scheduler.AnswerAgreesWithRule and Scheduler.EscapeTouchesNothing use the corrected `Scheduler.Respond`: as written, each 400 answer raises AttributeError instead (clockout_scheduler.py:101, 112). `Scheduler.HandleAsWrittenRaises` relates the two.
- The messages `parse_response` prints (timecalc.py:218, 227, 229, 236, 242, 246) are not part of the logged effects of a pass.
- Exceptions raised by EventBridge and Lambda calls are left out. The `print` in `set_target` is left out too.
- `main`, `login_prompt`, `main_silent_clockin`, `main_silent_clockout` and `print_clocktable` are entry points outside this model. So are `scheduleout.py`, `autotimecalc.py` and the AWS client, credential and executor Lambdas.

## Findings

| source | as written | input that shows it | evidently intended | confidence | as-written member | corrected member |
|---|---|---|---|---|---|---|
| timecalc.py:223-224 | `len(div_activities)` is evaluated with `div_activities` None when the page has no `divActivities` element, and raises TypeError | a non-empty page with no `divActivities` element, such as the portal's login page after the session has expired | treat a missing container like an empty one: SessionExpired when the login form is shown, ParseFailure otherwise, so the caller's re-login runs | medium, not executed | PageParser.ExpiredPageCrashesAsWritten | PageParser.ParseResponse |
| lambda_adp_scheduler/clockout_scheduler.py:16 | `err.message` is read from a Python 3 exception, which has no such attribute, so AttributeError is raised | a request body without `UserId`, or `put_targets` reporting a failed entry | answer 400 with the exception's message as the body | high, not executed | Scheduler.MissingUserIdRaisesAsWritten | Scheduler.Respond |
