/** The interactive loop of `main_withlogin` and the command handlers
    `handle_in`, `handle_out` and `handle_auto` (timecalc.py).

    Everything the loop does to the outside goes through an `Env`: logging
    in, fetching the portal page, posting a clock event, scheduling an
    automatic clock-out, reading a command and printing a message (the
    messages `parse_response` prints itself are not logged). What the
    outside answers is fixed in advance by a `World`: the page the k-th login
    and the k-th refresh return, the reply to the k-th clock post, and the
    lines typed at the prompt. The loop is specified by `Run`, a function of
    the world and the state of the `Env` it starts from. */
module Session {
  import opened Wrappers
  import opened Text
  import opened Calendar
  import opened PageParser
  import opened TimeTable

  /** Something the loop does to the outside, in the order it does it. */
  datatype Event =
    | Login
    | Refresh(session: nat)
    | Post(session: nat, custId: string, empId: string, isIn: bool)
    | Schedule(user: string, delta: int)
    | Say(message: string)

  /** How many logins, refreshes, clock posts and prompts have happened. */
  datatype Counters = Counters(logins: nat, refreshes: nat, posts: nat, inputs: nat)

  /** The answers of the outside: the page of the n-th login, the page of a
      refresh in session s as the n-th refresh, the reply to the n-th clock
      post, and the typed lines. */
  datatype World = World(
    loginPage: nat -> Page,
    refreshPage: (nat, nat) -> Page,
    clockReply: nat -> string,
    commands: seq<string>)

  /** What an `Env` has done so far. */
  datatype Trace = Trace(used: Counters, log: seq<Event>)

  /** The user name the scheduler is called with, WORK_HOURS in seconds and
      HOURS_RESOLUTION in minutes. */
  datatype Config = Config(user: string, target: int, res: int)

  /** `main_withlogin` returns, or an exception escapes it. */
  datatype Outcome = Returned | Raised(error: ParseError)

  const ReauthMessage: string := "Session expired, reauthenticating..."
  const AlreadyInMessage: string := "Cannot clock in: you are already clocked in."
  const NotInMessage: string := "Cannot clock out: you are not clocked in."
  const NotInAutoMessage: string := "Cannot auto-clockout: you have not clocked in."
  /** What unpacking the None of an empty page into three names raises. */
  const UnpackNone: Fault := TypeError("cannot unpack non-iterable NoneType object")
  /** What `input()` raises when the typed lines run out. */
  const EndOfInput: Fault := EOFError("EOF when reading a line")
  /** What `None - datetime` raises in `handle_auto`. */
  const NoClockOutTime: Fault := TypeError("unsupported operand type(s) for -: 'NoneType' and 'datetime.datetime'")

  function ClockedMessage(isIn: bool): string {
    "You have clocked " + (if isIn then "in" else "out") + "."
  }

  function ClockErrorMessage(isIn: bool): string {
    "Error clocking " + (if isIn then "in" else "out") + "."
  }

  // ---------------------------------------------------------------------
  // Commands

  /** The prompt's vocabulary; any other line is `Quit`. */
  datatype Command = ClockIn | ClockOut | AutoOut | NextOut | Relogin | Quit

  /** `'r'` is looked at first, then the keys of the command map. */
  function ParseCommand(line: string): (c: Command)
    ensures c == Quit <==> line !in {"in", "out", "auto", "next", "r"}
  {
    if line == "r" then Relogin
    else if line == "in" then ClockIn
    else if line == "out" then ClockOut
    else if line == "auto" then AutoOut
    else if line == "next" then NextOut
    else Quit
  }

  /** The line that selects a command. */
  function CommandText(c: Command): string
    requires c != Quit
  {
    match c
    case ClockIn => "in"
    case ClockOut => "out"
    case AutoOut => "auto"
    case NextOut => "next"
    case Relogin => "r"
  }

  /** Every command but `Quit` has its line, and different commands have
      different lines. */
  lemma {:induction false} CommandTextRoundTrip(c: Command)
    requires c != Quit
    ensures ParseCommand(CommandText(c)) == c
  {
  }

  // ---------------------------------------------------------------------
  // The effects, as functions of a trace

  function AfterLogin(t: Trace): Trace {
    Trace(t.used.(logins := t.used.logins + 1), t.log + [Login])
  }

  function AfterRefresh(t: Trace, session: nat): Trace {
    Trace(t.used.(refreshes := t.used.refreshes + 1), t.log + [Refresh(session)])
  }

  function AfterPost(t: Trace, session: nat, ids: (string, string), isIn: bool): Trace {
    Trace(t.used.(posts := t.used.posts + 1), t.log + [Post(session, ids.0, ids.1, isIn)])
  }

  function AfterInput(t: Trace): Trace {
    Trace(t.used.(inputs := t.used.inputs + 1), t.log)
  }

  function Logged(t: Trace, e: Event): Trace {
    Trace(t.used, t.log + [e])
  }

  /** `clock_inout`: post the event, then report according to whether the
      reply contains 'Operation Successful'. */
  function ClockTrace(w: World, t: Trace, session: nat, ids: (string, string), isIn: bool): Trace {
    var reply := w.clockReply(t.used.posts);
    var message := if Contains(reply, "Operation Successful") then ClockedMessage(isIn) else ClockErrorMessage(isIn);
    Logged(AfterPost(t, session, ids, isIn), Say(message))
  }

  function HandleInTrace(w: World, t: Trace, session: nat, ids: (string, string), isIn: bool): Trace {
    if isIn then Logged(t, Say(AlreadyInMessage)) else ClockTrace(w, t, session, ids, true)
  }

  function HandleOutTrace(w: World, t: Trace, session: nat, ids: (string, string), isIn: bool): Trace {
    if !isIn then Logged(t, Say(NotInMessage)) else ClockTrace(w, t, session, ids, false)
  }

  /** `handle_auto`: the scheduler is asked for `time_to_out - now`, whatever
      its sign. */
  function HandleAutoTrace(t: Trace, user: string, timeToOut: Option<int>, now: int, isIn: bool): Result<Trace, Fault> {
    if !isIn then Success(Logged(t, Say(NotInAutoMessage)))
    else if timeToOut.None? then Failure(NoClockOutTime)
    else Success(Logged(t, Schedule(user, timeToOut.value - now)))
  }

  // ---------------------------------------------------------------------
  // One pass of the loop

  /** What a pass saw before dispatching: the command, the summary and the
      server time, and the clock-out `next` schedules for. */
  datatype Seen = Seen(command: Command, summary: Summary, now: int, nextOut: Option<int>)

  /** A pass ends the loop, or the loop goes on in a session. */
  datatype Step =
    | Stop(outcome: Outcome, trace: Trace)
    | Continue(trace: Trace, session: nat, seen: Seen)

  /** The page the pass works on after the refresh and, on an expired
      session, the one re-login, with what parsing it gave. */
  datatype Fetched = Fetched(parsed: Result<Option<Snapshot>, ParseError>, response: Page, session: nat, trace: Trace)

  /** A parsed day holds instants `datetime` can represent. */
  predicate DayInRange(day: Snapshot) {
    InRange(day.serverTime) && AllInRange(day.clockIns) && AllInRange(day.clockOuts)
  }

  predicate WellParsed(f: Fetched) {
    f.parsed.Success? && f.parsed.value.Some? ==> DayInRange(f.parsed.value.value)
  }

  function RefreshAndParse(w: World, t: Trace, session: nat): (f: Fetched)
    ensures f.parsed == ParseResponse(f.response)
    ensures WellParsed(f)
    ensures f.trace.used.inputs == t.used.inputs
  {
    var page := w.refreshPage(session, t.used.refreshes);
    var t1 := AfterRefresh(t, session);
    var first := ParseResponse(page);
    if first.Failure? && first.error.SessionExpired? then
      var relogged := t1.used.logins;
      var page2 := w.loginPage(relogged);
      Fetched(ParseResponse(page2), page2, relogged, AfterLogin(Logged(t1, Say(ReauthMessage))))
    else Fetched(first, page, session, t1)
  }

  /** `calculate_time_table`, `calculate_summary` and `time_next_out`: the
      summary of the parsed day and the last clock-out of its table. */
  function Summarize(day: Snapshot, cfg: Config): (r: Result<(Summary, Option<int>), Fault>)
    requires cfg.res > 0 && InRange(day.serverTime) && AllInRange(day.clockIns) && AllInRange(day.clockOuts)
    ensures r.Success? && r.value.0.isIn ==> r.value.1.Some? && r.value.0.timeToOut.Some?
    ensures r.Success? && r.value.1.Some? ==> (r.value.0.isIn <==> r.value.1.value > day.serverTime)
    ensures r.Success? && r.value.0.isIn ==> r.value.0.timeToOut.value == r.value.1.value + r.value.0.remaining
    ensures r.Success? ==> (r.value.1.None? <==> day.clockIns == [])
  {
    var rows :- CalculateTimeTable(day.clockIns, day.clockOuts, day.serverTime, cfg.res);
    var summary :- CalculateSummary(rows, day.serverTime, cfg.target);
    Success((summary, if rows == [] then None else Some(Last(rows).clockOut)))
  }

  /** The command map, for a command read as the trace `t` stands. */
  function Dispatch(w: World, cfg: Config, t: Trace, session: nat, ids: (string, string), seen: Seen): (s: Step)
    ensures s.Continue? ==> s.trace.used.inputs == t.used.inputs
    ensures s.Continue? ==> s.seen == seen
    ensures s.Stop? ==> s.trace == t
  {
    var isIn := seen.summary.isIn;
    match seen.command
    case Relogin => Continue(AfterLogin(t), t.used.logins, seen)
    case Quit => Stop(Returned, t)
    case ClockIn => Continue(HandleInTrace(w, t, session, ids, isIn), session, seen)
    case ClockOut => Continue(HandleOutTrace(w, t, session, ids, isIn), session, seen)
    case AutoOut =>
      var handled := HandleAutoTrace(t, cfg.user, seen.summary.timeToOut, seen.now, isIn);
      if handled.Failure? then Stop(Raised(Crash(handled.error)), t) else Continue(handled.value, session, seen)
    case NextOut =>
      var handled := HandleAutoTrace(t, cfg.user, seen.nextOut, seen.now, isIn);
      if handled.Failure? then Stop(Raised(Crash(handled.error)), t) else Continue(handled.value, session, seen)
  }

  /** The rest of the pass, on a parsed day. */
  function Decide(w: World, cfg: Config, t: Trace, session: nat, response: Page, day: Snapshot): (s: Step)
    requires cfg.res > 0 && InRange(day.serverTime) && AllInRange(day.clockIns) && AllInRange(day.clockOuts)
    ensures s.Continue? ==> s.trace.used.inputs == t.used.inputs + 1 <= |w.commands|
    ensures s.Stop? ==> s.trace.log == t.log
  {
    var summarized := Summarize(day, cfg);
    if summarized.Failure? then Stop(Raised(Crash(summarized.error)), t)
    else
      var ids := ParseIds(response.text);
      if ids.Failure? then Stop(Raised(Crash(ids.error)), t)
      else if t.used.inputs >= |w.commands| then Stop(Raised(Crash(EndOfInput)), t)
      else
        var command := ParseCommand(w.commands[t.used.inputs]);
        var seen := Seen(command, summarized.value.0, day.serverTime, summarized.value.1);
        Dispatch(w, cfg, AfterInput(t), session, ids.value, seen)
  }

  /** What follows the fetch: an escaping exception, the None of an empty
      page failing to unpack, or the rest of the pass. */
  function Proceed(w: World, cfg: Config, f: Fetched): (s: Step)
    requires cfg.res > 0 && WellParsed(f)
    ensures s.Continue? ==> s.trace.used.inputs == f.trace.used.inputs + 1 <= |w.commands|
  {
    if f.parsed.Failure? then Stop(Raised(f.parsed.error), f.trace)
    else if f.parsed.value.None? then Stop(Raised(Crash(UnpackNone)), f.trace)
    else Decide(w, cfg, f.trace, f.session, f.response, f.parsed.value.value)
  }

  /** One pass of the `while True` loop of `main_withlogin`. */
  function Iterate(w: World, cfg: Config, t: Trace, session: nat): (s: Step)
    requires cfg.res > 0 && t.used.inputs <= |w.commands|
    ensures s.Continue? ==> s.trace.used.inputs == t.used.inputs + 1 <= |w.commands|
  {
    Proceed(w, cfg, RefreshAndParse(w, t, session))
  }

  /** The loop from a trace and a session on, to its end. */
  function Loop(w: World, cfg: Config, t: Trace, session: nat): (Outcome, Trace)
    requires cfg.res > 0 && t.used.inputs <= |w.commands|
    decreases |w.commands| - t.used.inputs
  {
    match Iterate(w, cfg, t, session)
    case Stop(o, t1) => (o, t1)
    case Continue(t1, s1, _) => Loop(w, cfg, t1, s1)
  }

  /** `main_withlogin`: log in, then loop. */
  function Run(w: World, cfg: Config, t: Trace): (Outcome, Trace)
    requires cfg.res > 0 && t.used.inputs <= |w.commands|
  {
    Loop(w, cfg, AfterLogin(t), t.used.logins)
  }

  // ---------------------------------------------------------------------
  // The outside

  class Env {
    const world: World
    var used: Counters
    var log: seq<Event>

    constructor(world: World)
      ensures this.world == world && used == Counters(0, 0, 0, 0) && log == []
    {
      this.world := world;
      used := Counters(0, 0, 0, 0);
      log := [];
    }

    function State(): Trace
      reads this
    {
      Trace(used, log)
    }

    /** `login_session`: a new session, numbered by the logins before it. */
    method Login() returns (session: nat, page: Page)
      modifies this
      ensures session == old(used.logins) && page == world.loginPage(session)
      ensures State() == AfterLogin(old(State()))
    {
      session := used.logins;
      page := world.loginPage(session);
      used := used.(logins := used.logins + 1);
      log := log + [Event.Login];
    }

    /** `refresh_session`. */
    method Refresh(session: nat) returns (page: Page)
      modifies this
      ensures page == world.refreshPage(session, old(used.refreshes))
      ensures State() == AfterRefresh(old(State()), session)
    {
      page := world.refreshPage(session, used.refreshes);
      used := used.(refreshes := used.refreshes + 1);
      log := log + [Event.Refresh(session)];
    }

    /** The POST of `clock_inout`. */
    method Post(session: nat, ids: (string, string), isIn: bool) returns (reply: string)
      modifies this
      ensures reply == world.clockReply(old(used.posts))
      ensures State() == AfterPost(old(State()), session, ids, isIn)
    {
      reply := world.clockReply(used.posts);
      used := used.(posts := used.posts + 1);
      log := log + [Event.Post(session, ids.0, ids.1, isIn)];
    }

    /** `execute_saved_scheduler(user, delta)`. */
    method Schedule(user: string, delta: int)
      modifies this
      ensures State() == Logged(old(State()), Event.Schedule(user, delta))
    {
      log := log + [Event.Schedule(user, delta)];
    }

    /** `print`. */
    method Say(message: string)
      modifies this
      ensures State() == Logged(old(State()), Event.Say(message))
    {
      log := log + [Event.Say(message)];
    }

    /** `input()`: the next typed line, or EOFError once they have run out. */
    method Input() returns (line: Result<string, Fault>)
      modifies this
      ensures old(used.inputs) < |world.commands| ==>
        line == Success(world.commands[old(used.inputs)]) && State() == AfterInput(old(State()))
      ensures old(used.inputs) >= |world.commands| ==>
        line == Failure(EndOfInput) && State() == old(State())
    {
      if used.inputs < |world.commands| {
        line := Success(world.commands[used.inputs]);
        used := used.(inputs := used.inputs + 1);
      } else {
        line := Failure(EndOfInput);
      }
    }
  }

  // ---------------------------------------------------------------------
  // The handlers and the loop

  method ClockInOut(env: Env, session: nat, ids: (string, string), isIn: bool)
    modifies env
    ensures env.State() == ClockTrace(env.world, old(env.State()), session, ids, isIn)
  {
    var reply := env.Post(session, ids, isIn);
    if Contains(reply, "Operation Successful") {
      env.Say(ClockedMessage(isIn));
    } else {
      env.Say(ClockErrorMessage(isIn));
    }
  }

  method HandleIn(env: Env, session: nat, ids: (string, string), isIn: bool)
    modifies env
    ensures env.State() == HandleInTrace(env.world, old(env.State()), session, ids, isIn)
  {
    if isIn {
      env.Say(AlreadyInMessage);
      return;
    }
    ClockInOut(env, session, ids, true);
  }

  method HandleOut(env: Env, session: nat, ids: (string, string), isIn: bool)
    modifies env
    ensures env.State() == HandleOutTrace(env.world, old(env.State()), session, ids, isIn)
  {
    if !isIn {
      env.Say(NotInMessage);
      return;
    }
    ClockInOut(env, session, ids, false);
  }

  method HandleAuto(env: Env, timeToOut: Option<int>, now: int, user: string, isIn: bool) returns (raised: Option<Fault>)
    modifies env
    ensures var r := HandleAutoTrace(old(env.State()), user, timeToOut, now, isIn);
      if r.Success? then raised == None && env.State() == r.value
      else raised == Some(r.error) && env.State() == old(env.State())
  {
    if !isIn {
      env.Say(NotInAutoMessage);
      return None;
    }
    if timeToOut.None? {
      return Some(NoClockOutTime);
    }
    env.Schedule(user, timeToOut.value - now);
    return None;
  }

  /** The refresh that starts a pass and, when the session has expired,
      the notice, the one re-login and the second parse. */
  method Fetch(env: Env, session: nat) returns (parsed: Result<Option<Snapshot>, ParseError>, response: Page, current: nat)
    modifies env
    ensures Fetched(parsed, response, current, env.State()) == RefreshAndParse(env.world, old(env.State()), session)
  {
    response := env.Refresh(session);
    parsed := ParseResponse(response);
    current := session;
    if parsed.Failure? && parsed.error.SessionExpired? {
      env.Say(ReauthMessage);
      current, response := env.Login();
      parsed := ParseResponse(response);
    }
  }

  /** The command map of `main_withlogin`: `stop` is what ends the loop,
      `None` when it goes on in session `current`. */
  method Obey(env: Env, cfg: Config, session: nat, ids: (string, string), seen: Seen) returns (stop: Option<Outcome>, current: nat)
    modifies env
    ensures var s := Dispatch(env.world, cfg, old(env.State()), session, ids, seen);
      && (s.Stop? <==> stop.Some?)
      && (s.Stop? ==> stop.value == s.outcome)
      && (s.Continue? ==> current == s.session)
      && env.State() == s.trace
  {
    var isIn := seen.summary.isIn;
    current := session;
    stop := None;
    match seen.command
    case Relogin =>
      var page;
      current, page := env.Login();
    case Quit =>
      stop := Some(Returned);
    case ClockIn =>
      HandleIn(env, session, ids, isIn);
    case ClockOut =>
      HandleOut(env, session, ids, isIn);
    case AutoOut =>
      var raised := HandleAuto(env, seen.summary.timeToOut, seen.now, cfg.user, isIn);
      if raised.Some? {
        stop := Some(Raised(Crash(raised.value)));
      }
    case NextOut =>
      var raised := HandleAuto(env, seen.nextOut, seen.now, cfg.user, isIn);
      if raised.Some? {
        stop := Some(Raised(Crash(raised.value)));
      }
  }

  /** The rest of a pass once the page is parsed: the table, the summary,
      the identifiers, the prompt and the command. */
  method Respond(env: Env, cfg: Config, session: nat, response: Page, day: Snapshot) returns (stop: Option<Outcome>, current: nat)
    requires cfg.res > 0 && DayInRange(day)
    modifies env
    ensures var s := Decide(env.world, cfg, old(env.State()), session, response, day);
      && (s.Stop? <==> stop.Some?)
      && (s.Stop? ==> stop.value == s.outcome)
      && (s.Continue? ==> current == s.session)
      && env.State() == s.trace
  {
    ghost var t0 := env.State();
    current := session;
    var summarized := Summarize(day, cfg);
    if summarized.Failure? {
      return Some(Raised(Crash(summarized.error))), current;
    }
    var ids := ParseIds(response.text);
    if ids.Failure? {
      return Some(Raised(Crash(ids.error))), current;
    }
    var line := env.Input();
    if line.Failure? {
      return Some(Raised(Crash(line.error))), current;
    }
    var seen := Seen(ParseCommand(line.value), summarized.value.0, day.serverTime, summarized.value.1);
    DecideDispatches(env.world, cfg, t0, session, response, day);
    stop, current := Obey(env, cfg, session, ids.value, seen);
  }

  /** `main_withlogin`, run against `env` until it returns or raises. */
  method MainWithLogin(env: Env, cfg: Config) returns (outcome: Outcome)
    requires cfg.res > 0 && env.used.inputs <= |env.world.commands|
    modifies env
    ensures (outcome, env.State()) == Run(env.world, cfg, old(env.State()))
  {
    var session, response := env.Login();
    while true
      invariant env.used.inputs <= |env.world.commands|
      invariant Loop(env.world, cfg, env.State(), session) == Run(env.world, cfg, old(env.State()))
      decreases |env.world.commands| - env.used.inputs
    {
      ghost var before, session0 := env.State(), session;
      var parsed;
      parsed, response, session := Fetch(env, session);
      ghost var fetched := Fetched(parsed, response, session, env.State());
      assert Iterate(env.world, cfg, before, session0) == Proceed(env.world, cfg, fetched);
      if parsed.Failure? {
        return Raised(parsed.error);
      }
      if parsed.value.None? {
        return Raised(Crash(UnpackNone));
      }
      var stop;
      stop, session := Respond(env, cfg, session, response, parsed.value.value);
      if stop.Some? {
        return stop.value;
      }
    }
  }

  // ---------------------------------------------------------------------
  // What a pass and a run do

  predicate IsPostIn(e: Event) { e.Post? && e.isIn }
  predicate IsPostOut(e: Event) { e.Post? && !e.isIn }
  predicate IsSchedule(e: Event) { e.Schedule? }

  /** How many events of `es` satisfy `p`. */
  function Count(es: seq<Event>, p: Event -> bool): nat {
    if es == [] then 0 else Count(es[..|es| - 1], p) + (if p(es[|es| - 1]) then 1 else 0)
  }

  lemma {:induction false} CountSnoc(es: seq<Event>, e: Event, p: Event -> bool)
    ensures Count(es + [e], p) == Count(es, p) + (if p(e) then 1 else 0)
  {
    assert (es + [e])[..|es|] == es;
  }

  /** The clock posts and scheduler calls of a log. */
  function Actions(es: seq<Event>): nat {
    Count(es, IsPostIn) + Count(es, IsPostOut) + Count(es, IsSchedule)
  }

  /** The fetch refreshes first, logs in at most once more, and neither
      posts nor schedules. */
  lemma {:induction false} FetchEffects(w: World, t: Trace, session: nat)
    ensures var f := RefreshAndParse(w, t, session);
      && |f.trace.log| > |t.log| && f.trace.log[..|t.log| + 1] == t.log + [Refresh(session)]
      && f.trace.used.refreshes == t.used.refreshes + 1
      && t.used.logins <= f.trace.used.logins <= t.used.logins + 1
      && f.trace.used.inputs == t.used.inputs
      && Count(f.trace.log, IsPostIn) == Count(t.log, IsPostIn)
      && Count(f.trace.log, IsPostOut) == Count(t.log, IsPostOut)
      && Count(f.trace.log, IsSchedule) == Count(t.log, IsSchedule)
  {
    var f := RefreshAndParse(w, t, session);
    var t1 := AfterRefresh(t, session);
    QuietCounts(t.log, Refresh(session));
    if f.trace != t1 {
      var t2 := Logged(t1, Say(ReauthMessage));
      assert f.trace == AfterLogin(t2);
      QuietCounts(t1.log, Say(ReauthMessage));
      QuietCounts(t2.log, Login);
      assert (t2.log + [Login])[..|t.log| + 1] == t.log + [Refresh(session)];
    }
  }

  /** An event that neither posts nor schedules leaves those counts alone. */
  lemma {:induction false} QuietCounts(es: seq<Event>, e: Event)
    requires !IsPostIn(e) && !IsPostOut(e) && !IsSchedule(e)
    ensures Count(es + [e], IsPostIn) == Count(es, IsPostIn)
    ensures Count(es + [e], IsPostOut) == Count(es, IsPostOut)
    ensures Count(es + [e], IsSchedule) == Count(es, IsSchedule)
  {
    CountSnoc(es, e, IsPostIn);
    CountSnoc(es, e, IsPostOut);
    CountSnoc(es, e, IsSchedule);
  }

  /** Only `Quit` ends the loop; `auto` asks the scheduler for
      `time_to_out - now`, `next` for the last clock-out minus now, and `r`
      logs in again. */
  lemma {:induction false} DispatchShape(w: World, cfg: Config, t: Trace, session: nat, ids: (string, string), seen: Seen)
    requires seen.summary.isIn ==> seen.summary.timeToOut.Some? && seen.nextOut.Some?
    ensures var s := Dispatch(w, cfg, t, session, ids, seen);
      var isIn := seen.summary.isIn;
      && (s.Stop? <==> seen.command == Quit)
      && |s.trace.log| >= |t.log| && s.trace.log[..|t.log|] == t.log
      && s.trace.used.refreshes == t.used.refreshes && s.trace.used.inputs == t.used.inputs
      && t.used.logins <= s.trace.used.logins <= t.used.logins + 1
      && (seen.command == AutoOut && isIn ==> s.trace.log == t.log + [Schedule(cfg.user, seen.summary.timeToOut.value - seen.now)])
      && (seen.command == NextOut && isIn ==> s.trace.log == t.log + [Schedule(cfg.user, seen.nextOut.value - seen.now)])
      && (seen.command == Relogin ==> s == Continue(AfterLogin(t), t.used.logins, seen))
  {
    if seen.command == ClockIn && !seen.summary.isIn {
      ClockCounts(w, t, session, ids, true);
    } else if seen.command == ClockOut && seen.summary.isIn {
      ClockCounts(w, t, session, ids, false);
    }
  }

  /** The command map gates every action on the summary: a clock-in is
      posted only when not clocked in, a clock-out and a schedule only when
      clocked in, and at most one of them per command. */
  lemma {:induction false} DispatchCounts(w: World, cfg: Config, t: Trace, session: nat, ids: (string, string), seen: Seen)
    requires seen.summary.isIn ==> seen.summary.timeToOut.Some? && seen.nextOut.Some?
    ensures var s := Dispatch(w, cfg, t, session, ids, seen);
      var isIn := seen.summary.isIn;
      && Count(s.trace.log, IsPostIn) == Count(t.log, IsPostIn) + (if seen.command == ClockIn && !isIn then 1 else 0)
      && Count(s.trace.log, IsPostOut) == Count(t.log, IsPostOut) + (if seen.command == ClockOut && isIn then 1 else 0)
      && Count(s.trace.log, IsSchedule) == Count(t.log, IsSchedule) + (if seen.command in {AutoOut, NextOut} && isIn then 1 else 0)
  {
    match seen.command
    case ClockIn | ClockOut => ClockCommandCounts(w, cfg, t, session, ids, seen);
    case AutoOut | NextOut => ScheduleCommandCounts(w, cfg, t, session, ids, seen);
    case Relogin | Quit => SessionCommandCounts(w, cfg, t, session, ids, seen);
  }

  lemma {:induction false} ClockCommandCounts(w: World, cfg: Config, t: Trace, session: nat, ids: (string, string), seen: Seen)
    requires seen.command in {ClockIn, ClockOut}
    ensures var s := Dispatch(w, cfg, t, session, ids, seen);
      var isIn := seen.summary.isIn;
      && Count(s.trace.log, IsPostIn) == Count(t.log, IsPostIn) + (if seen.command == ClockIn && !isIn then 1 else 0)
      && Count(s.trace.log, IsPostOut) == Count(t.log, IsPostOut) + (if seen.command == ClockOut && isIn then 1 else 0)
      && Count(s.trace.log, IsSchedule) == Count(t.log, IsSchedule) + (if seen.command in {AutoOut, NextOut} && isIn then 1 else 0)
  {
    var isIn := seen.summary.isIn;
    var log := Dispatch(w, cfg, t, session, ids, seen).trace.log;
    if seen.command == ClockIn {
      if isIn {
        assert log == t.log + [Say(AlreadyInMessage)];
        CountsOfSay(t.log, AlreadyInMessage);
      } else {
        assert log == ClockTrace(w, t, session, ids, true).log;
        ClockCounts(w, t, session, ids, true);
      }
    } else {
      if !isIn {
        assert log == t.log + [Say(NotInMessage)];
        CountsOfSay(t.log, NotInMessage);
      } else {
        assert log == ClockTrace(w, t, session, ids, false).log;
        ClockCounts(w, t, session, ids, false);
      }
    }
  }

  lemma {:induction false} ScheduleCommandCounts(w: World, cfg: Config, t: Trace, session: nat, ids: (string, string), seen: Seen)
    requires seen.summary.isIn ==> seen.summary.timeToOut.Some? && seen.nextOut.Some?
    requires seen.command in {AutoOut, NextOut}
    ensures var s := Dispatch(w, cfg, t, session, ids, seen);
      var isIn := seen.summary.isIn;
      && Count(s.trace.log, IsPostIn) == Count(t.log, IsPostIn) + (if seen.command == ClockIn && !isIn then 1 else 0)
      && Count(s.trace.log, IsPostOut) == Count(t.log, IsPostOut) + (if seen.command == ClockOut && isIn then 1 else 0)
      && Count(s.trace.log, IsSchedule) == Count(t.log, IsSchedule) + (if seen.command in {AutoOut, NextOut} && isIn then 1 else 0)
  {
    var isIn := seen.summary.isIn;
    var log := Dispatch(w, cfg, t, session, ids, seen).trace.log;
    if !isIn {
      assert log == t.log + [Say(NotInAutoMessage)];
      CountsOfSay(t.log, NotInAutoMessage);
    } else {
      var delta := if seen.command == AutoOut then seen.summary.timeToOut.value - seen.now
                   else seen.nextOut.value - seen.now;
      assert log == t.log + [Schedule(cfg.user, delta)];
      ScheduleCounts(t.log, cfg.user, delta);
    }
  }

  lemma {:induction false} SessionCommandCounts(w: World, cfg: Config, t: Trace, session: nat, ids: (string, string), seen: Seen)
    requires seen.command in {Relogin, Quit}
    ensures var s := Dispatch(w, cfg, t, session, ids, seen);
      var isIn := seen.summary.isIn;
      && Count(s.trace.log, IsPostIn) == Count(t.log, IsPostIn) + (if seen.command == ClockIn && !isIn then 1 else 0)
      && Count(s.trace.log, IsPostOut) == Count(t.log, IsPostOut) + (if seen.command == ClockOut && isIn then 1 else 0)
      && Count(s.trace.log, IsSchedule) == Count(t.log, IsSchedule) + (if seen.command in {AutoOut, NextOut} && isIn then 1 else 0)
  {
    var log := Dispatch(w, cfg, t, session, ids, seen).trace.log;
    if seen.command == Relogin {
      assert log == t.log + [Login];
      CountSnoc(t.log, Login, IsPostIn);
      CountSnoc(t.log, Login, IsPostOut);
      CountSnoc(t.log, Login, IsSchedule);
    } else {
      assert log == t.log;
    }
  }

  lemma {:induction false} CountsOfSay(es: seq<Event>, message: string)
    ensures Count(es + [Say(message)], IsPostIn) == Count(es, IsPostIn)
    ensures Count(es + [Say(message)], IsPostOut) == Count(es, IsPostOut)
    ensures Count(es + [Say(message)], IsSchedule) == Count(es, IsSchedule)
  {
    CountSnoc(es, Say(message), IsPostIn);
    CountSnoc(es, Say(message), IsPostOut);
    CountSnoc(es, Say(message), IsSchedule);
  }

  lemma {:induction false} ScheduleCounts(es: seq<Event>, user: string, delta: int)
    ensures Count(es + [Schedule(user, delta)], IsPostIn) == Count(es, IsPostIn)
    ensures Count(es + [Schedule(user, delta)], IsPostOut) == Count(es, IsPostOut)
    ensures Count(es + [Schedule(user, delta)], IsSchedule) == Count(es, IsSchedule) + 1
  {
    CountSnoc(es, Schedule(user, delta), IsPostIn);
    CountSnoc(es, Schedule(user, delta), IsPostOut);
    CountSnoc(es, Schedule(user, delta), IsSchedule);
  }

  lemma {:induction false} ClockCounts(w: World, t: Trace, session: nat, ids: (string, string), isIn: bool)
    ensures var c := ClockTrace(w, t, session, ids, isIn);
      && |c.log| == |t.log| + 2 && c.log[..|t.log|] == t.log && c.used.logins == t.used.logins
      && Count(c.log, IsPostIn) == Count(t.log, IsPostIn) + (if isIn then 1 else 0)
      && Count(c.log, IsPostOut) == Count(t.log, IsPostOut) + (if isIn then 0 else 1)
      && Count(c.log, IsSchedule) == Count(t.log, IsSchedule)
  {
    var post := Post(session, ids.0, ids.1, isIn);
    CountSnoc(t.log, post, IsPostIn);
    CountSnoc(t.log, post, IsPostOut);
    CountSnoc(t.log, post, IsSchedule);
    var c := ClockTrace(w, t, session, ids, isIn);
    CountsOfSay(t.log + [post], c.log[|c.log| - 1].message);
    assert c.log[..|t.log|] == t.log;
  }

  /** What the rest of a pass does once the page is parsed: it reads at
      most one line and, when it reaches the prompt, dispatches the command
      on the summary of the day and the identifiers of the page. */
  lemma {:induction false} DecideReaches(w: World, cfg: Config, t: Trace, session: nat, response: Page, day: Snapshot)
    requires cfg.res > 0 && InRange(day.serverTime) && AllInRange(day.clockIns) && AllInRange(day.clockOuts)
    ensures var s := Decide(w, cfg, t, session, response, day);
      || (s.Stop? && s.trace.used == t.used && s.trace.log == t.log)
      || (&& t.used.inputs < |w.commands|
          && Summarize(day, cfg).Success? && ParseIds(response.text).Success?
          && var seen := Seen(ParseCommand(w.commands[t.used.inputs]), Summarize(day, cfg).value.0,
                              day.serverTime, Summarize(day, cfg).value.1);
          && s == Dispatch(w, cfg, AfterInput(t), session, ParseIds(response.text).value, seen)
          && (seen.summary.isIn ==> seen.summary.timeToOut.Some? && seen.nextOut.Some?)
          && (seen.nextOut.Some? ==> (seen.summary.isIn <==> seen.nextOut.value > seen.now))
          && (seen.summary.isIn ==> seen.summary.timeToOut.value == seen.nextOut.value + seen.summary.remaining))
  {
  }

  /** A pass that reaches the prompt dispatches the line typed there. */
  lemma {:induction false} DecideDispatches(w: World, cfg: Config, t: Trace, session: nat, response: Page, day: Snapshot)
    requires cfg.res > 0 && InRange(day.serverTime) && AllInRange(day.clockIns) && AllInRange(day.clockOuts)
    requires Summarize(day, cfg).Success? && ParseIds(response.text).Success? && t.used.inputs < |w.commands|
    ensures Decide(w, cfg, t, session, response, day) == Dispatch(w, cfg, AfterInput(t), session, ParseIds(response.text).value,
      Seen(ParseCommand(w.commands[t.used.inputs]), Summarize(day, cfg).value.0, day.serverTime, Summarize(day, cfg).value.1))
  {
  }

  /** The case of `DecideReaches` where the pass goes on. */
  lemma {:induction false} DecideContinues(w: World, cfg: Config, t: Trace, session: nat, response: Page, day: Snapshot)
    requires cfg.res > 0 && InRange(day.serverTime) && AllInRange(day.clockIns) && AllInRange(day.clockOuts)
    requires Decide(w, cfg, t, session, response, day).Continue?
    ensures var s := Decide(w, cfg, t, session, response, day);
      && t.used.inputs < |w.commands|
      && Summarize(day, cfg) == Success((s.seen.summary, s.seen.nextOut))
      && ParseIds(response.text).Success?
      && s.seen == Seen(ParseCommand(w.commands[t.used.inputs]), s.seen.summary, day.serverTime, s.seen.nextOut)
      && s == Dispatch(w, cfg, AfterInput(t), session, ParseIds(response.text).value, s.seen)
      && (s.seen.summary.isIn ==> s.seen.summary.timeToOut.Some? && s.seen.nextOut.Some?)
      && (s.seen.nextOut.Some? ==> (s.seen.summary.isIn <==> s.seen.nextOut.value > s.seen.now))
      && (s.seen.summary.isIn ==> s.seen.summary.timeToOut.value == s.seen.nextOut.value + s.seen.summary.remaining)
  {
    var summarized := Summarize(day, cfg);
    var ids := ParseIds(response.text);
    assert summarized.Success? && ids.Success? && t.used.inputs < |w.commands|;
    var seen := Seen(ParseCommand(w.commands[t.used.inputs]), summarized.value.0, day.serverTime, summarized.value.1);
    assert Decide(w, cfg, t, session, response, day) == Dispatch(w, cfg, AfterInput(t), session, ids.value, seen);
  }

  /** A pass that went on saw the summary of the day parsed from the
      fetched page, and the line typed next. */
  lemma {:induction false} ProceedSeen(w: World, cfg: Config, f: Fetched)
    requires cfg.res > 0 && WellParsed(f)
    requires Proceed(w, cfg, f).Continue?
    ensures var s := Proceed(w, cfg, f);
      && f.parsed.Success? && f.parsed.value.Some?
      && s.seen.now == f.parsed.value.value.serverTime
      && Summarize(f.parsed.value.value, cfg) == Success((s.seen.summary, s.seen.nextOut))
      && s.seen.command == ParseCommand(w.commands[f.trace.used.inputs])
  {
    var day := f.parsed.value.value;
    assert Proceed(w, cfg, f) == Decide(w, cfg, f.trace, f.session, f.response, day);
    DecideContinues(w, cfg, f.trace, f.session, f.response, day);
  }

  /** A pass that went on dispatched what it saw, and what it saw is
      consistent: clocked in means a clock-out time and a last clock-out
      after now, and the clock-out time is that plus the time still owed. */
  lemma {:induction false} ProceedDispatched(w: World, cfg: Config, f: Fetched)
    requires cfg.res > 0 && WellParsed(f)
    requires Proceed(w, cfg, f).Continue?
    ensures var s := Proceed(w, cfg, f);
      && f.parsed.Success? && f.parsed.value.Some?
      && ParseIds(f.response.text).Success?
      && s == Dispatch(w, cfg, AfterInput(f.trace), f.session, ParseIds(f.response.text).value, s.seen)
      && (s.seen.summary.isIn ==> s.seen.summary.timeToOut.Some? && s.seen.nextOut.Some?)
      && (s.seen.nextOut.Some? ==> (s.seen.summary.isIn <==> s.seen.nextOut.value > s.seen.now))
      && (s.seen.summary.isIn ==> s.seen.summary.timeToOut.value == s.seen.nextOut.value + s.seen.summary.remaining)
  {
    var day := f.parsed.value.value;
    assert Proceed(w, cfg, f) == Decide(w, cfg, f.trace, f.session, f.response, day);
    DecideContinues(w, cfg, f.trace, f.session, f.response, day);
  }

  /** After the fetch, a pass only appends to the log, logs in at most once
      (`r`) and reads at most one line. */
  lemma {:induction false} ProceedShape(w: World, cfg: Config, f: Fetched)
    requires cfg.res > 0 && WellParsed(f)
    ensures var s := Proceed(w, cfg, f);
      && |s.trace.log| >= |f.trace.log| && s.trace.log[..|f.trace.log|] == f.trace.log
      && s.trace.used.refreshes == f.trace.used.refreshes
      && f.trace.used.logins <= s.trace.used.logins <= f.trace.used.logins + 1
      && f.trace.used.inputs <= s.trace.used.inputs <= f.trace.used.inputs + 1
  {
    if f.parsed.Success? && f.parsed.value.Some? {
      var day := f.parsed.value.value;
      DecideReaches(w, cfg, f.trace, f.session, f.response, day);
      var s := Proceed(w, cfg, f);
      if !(s.trace == f.trace) {
        var ids := ParseIds(f.response.text).value;
        var seen := Seen(ParseCommand(w.commands[f.trace.used.inputs]), Summarize(day, cfg).value.0,
                         day.serverTime, Summarize(day, cfg).value.1);
        DispatchShape(w, cfg, AfterInput(f.trace), f.session, ids, seen);
      }
    }
  }

  /** One pass: it refreshes first, logs in at most twice (the re-login of
      an expired session and `r`), and reads at most one line. */
  lemma {:induction false} PassShape(w: World, cfg: Config, t: Trace, session: nat)
    requires cfg.res > 0 && t.used.inputs <= |w.commands|
    ensures var s := Iterate(w, cfg, t, session);
      && |s.trace.log| > |t.log| && s.trace.log[..|t.log| + 1] == t.log + [Refresh(session)]
      && s.trace.used.refreshes == t.used.refreshes + 1
      && t.used.logins <= s.trace.used.logins <= t.used.logins + 2
      && t.used.inputs <= s.trace.used.inputs <= t.used.inputs + 1
  {
    var f := RefreshAndParse(w, t, session);
    FetchEffects(w, t, session);
    ProceedShape(w, cfg, f);
    assert Iterate(w, cfg, t, session) == Proceed(w, cfg, f);
    PrefixExtends(t.log, f.trace.log, Proceed(w, cfg, f).trace.log, Refresh(session));
  }

  /** A log that starts with `a + [e]` still does once it is extended. */
  lemma {:induction false} PrefixExtends<T>(a: seq<T>, b: seq<T>, c: seq<T>, e: T)
    requires |b| > |a| && b[..|a| + 1] == a + [e]
    requires |c| >= |b| && c[..|b|] == b
    ensures |c| > |a| && c[..|a| + 1] == a + [e]
  {
    assert c[..|a| + 1] == c[..|b|][..|a| + 1];
  }

  /** The command map gates what a pass posts and schedules on the summary
      it saw, and a pass that ends the loop does neither. */
  lemma {:induction false} ProceedCounts(w: World, cfg: Config, f: Fetched)
    requires cfg.res > 0 && WellParsed(f)
    ensures var s := Proceed(w, cfg, f);
      && Count(s.trace.log, IsPostIn) == Count(f.trace.log, IsPostIn) +
           (if s.Continue? && s.seen.command == ClockIn && !s.seen.summary.isIn then 1 else 0)
      && Count(s.trace.log, IsPostOut) == Count(f.trace.log, IsPostOut) +
           (if s.Continue? && s.seen.command == ClockOut && s.seen.summary.isIn then 1 else 0)
      && Count(s.trace.log, IsSchedule) == Count(f.trace.log, IsSchedule) +
           (if s.Continue? && s.seen.command in {AutoOut, NextOut} && s.seen.summary.isIn then 1 else 0)
  {
    if f.parsed.Success? && f.parsed.value.Some? {
      var day := f.parsed.value.value;
      var s := Decide(w, cfg, f.trace, f.session, f.response, day);
      assert Proceed(w, cfg, f) == s;
      if s.Continue? {
        DecideContinues(w, cfg, f.trace, f.session, f.response, day);
        DispatchCounts(w, cfg, AfterInput(f.trace), f.session, ParseIds(f.response.text).value, s.seen);
      }
    }
  }

  /** Over a whole pass, fetch included. */
  lemma {:induction false} PassCounts(w: World, cfg: Config, t: Trace, session: nat)
    requires cfg.res > 0 && t.used.inputs <= |w.commands|
    ensures var s := Iterate(w, cfg, t, session);
      && Count(s.trace.log, IsPostIn) == Count(t.log, IsPostIn) +
           (if s.Continue? && s.seen.command == ClockIn && !s.seen.summary.isIn then 1 else 0)
      && Count(s.trace.log, IsPostOut) == Count(t.log, IsPostOut) +
           (if s.Continue? && s.seen.command == ClockOut && s.seen.summary.isIn then 1 else 0)
      && Count(s.trace.log, IsSchedule) == Count(t.log, IsSchedule) +
           (if s.Continue? && s.seen.command in {AutoOut, NextOut} && s.seen.summary.isIn then 1 else 0)
  {
    FetchEffects(w, t, session);
    ProceedCounts(w, cfg, RefreshAndParse(w, t, session));
  }

  /** The scheduler is asked, under `next`, for the positive time to the
      last clock-out and, under `auto`, for that plus the time still owed,
      which may make it negative. With `ProceedDispatched` this is what a
      pass that reads `next` or `auto` while clocked in does. */
  lemma {:induction false} DispatchSchedules(w: World, cfg: Config, t: Trace, session: nat, ids: (string, string), seen: Seen)
    requires seen.summary.isIn && seen.summary.timeToOut.Some? && seen.nextOut.Some?
    requires seen.nextOut.value > seen.now
    requires seen.summary.timeToOut.value == seen.nextOut.value + seen.summary.remaining
    requires seen.command in {NextOut, AutoOut}
    ensures var s := Dispatch(w, cfg, t, session, ids, seen);
      && s.Continue? && |s.trace.log| == |t.log| + 1 && s.trace.log[..|t.log|] == t.log
      && s.trace.used == t.used
      && (seen.command == NextOut ==> s.trace.log[|t.log|] == Schedule(cfg.user, seen.nextOut.value - seen.now))
      && (seen.command == NextOut ==> s.trace.log[|t.log|].delta > 0)
      && (seen.command == AutoOut ==>
            s.trace.log[|t.log|] == Schedule(cfg.user, seen.nextOut.value - seen.now + seen.summary.remaining))
  {
    var s := Dispatch(w, cfg, t, session, ids, seen);
    DispatchShape(w, cfg, t, session, ids, seen);
    if seen.command == NextOut {
      assert s.trace.log == t.log + [Schedule(cfg.user, seen.nextOut.value - seen.now)];
    } else {
      assert s.trace.log == t.log + [Schedule(cfg.user, seen.summary.timeToOut.value - seen.now)];
    }
  }

  /** An expired session is logged into once more and the login page is
      parsed instead; if that one is expired too, the exception escapes. */
  lemma {:induction false} ExpiredOnce(w: World, cfg: Config, t: Trace, session: nat)
    requires cfg.res > 0 && t.used.inputs <= |w.commands|
    requires ParseResponse(w.refreshPage(session, t.used.refreshes)).Failure?
    requires ParseResponse(w.refreshPage(session, t.used.refreshes)).error.SessionExpired?
    ensures var f := RefreshAndParse(w, t, session);
      && f.trace.log == t.log + [Refresh(session), Say(ReauthMessage), Login]
      && f.session == t.used.logins && f.response == w.loginPage(t.used.logins)
    ensures ParseResponse(w.loginPage(t.used.logins)).Failure? && ParseResponse(w.loginPage(t.used.logins)).error.SessionExpired? ==>
      Iterate(w, cfg, t, session) == Stop(Raised(SessionExpired(ExpiredMessage)), RefreshAndParse(w, t, session).trace)
  {
    ExpiredRelogin(w, t, session);
    var f := RefreshAndParse(w, t, session);
    if f.parsed.Failure? && f.parsed.error.SessionExpired? {
      assert f.parsed == Failure(SessionExpired(ExpiredMessage));
      assert Iterate(w, cfg, t, session) == Proceed(w, cfg, f);
    }
  }

  /** The refresh that finds the session expired logs in again and reads the
      login page under the new session. */
  lemma {:induction false} ExpiredRelogin(w: World, t: Trace, session: nat)
    requires ParseResponse(w.refreshPage(session, t.used.refreshes)).Failure?
    requires ParseResponse(w.refreshPage(session, t.used.refreshes)).error.SessionExpired?
    ensures var f := RefreshAndParse(w, t, session);
      && f.trace.log == t.log + [Refresh(session), Say(ReauthMessage), Login]
      && f.session == t.used.logins && f.response == w.loginPage(t.used.logins)
  {
    assert t.log + [Refresh(session)] + [Say(ReauthMessage)] + [Login] == t.log + [Refresh(session), Say(ReauthMessage), Login];
  }

  /** Over a stretch of the loop: at most two logins per refresh, and at
      most one post or schedule per line read. */
  lemma {:induction false} LoopBounds(w: World, cfg: Config, t: Trace, session: nat)
    requires cfg.res > 0 && t.used.inputs <= |w.commands|
    ensures var t' := Loop(w, cfg, t, session).1;
      && t'.used.refreshes > t.used.refreshes
      && t'.used.logins - t.used.logins <= 2 * (t'.used.refreshes - t.used.refreshes)
      && Actions(t'.log) - Actions(t.log) <= t'.used.inputs - t.used.inputs
    decreases |w.commands| - t.used.inputs
  {
    PassShape(w, cfg, t, session);
    PassCounts(w, cfg, t, session);
    match Iterate(w, cfg, t, session)
    case Stop(_, _) =>
    case Continue(t1, s1, _) =>
      LoopBounds(w, cfg, t1, s1);
  }

  /** A whole run of `main_withlogin`: it starts by logging in, refreshes at
      least once, logs in at most once more than twice per refresh, and
      posts or schedules at most once per line read. */
  lemma {:induction false} RunBounds(w: World, cfg: Config, t: Trace)
    requires cfg.res > 0 && t.used.inputs <= |w.commands|
    ensures var t' := Run(w, cfg, t).1;
      && t.log + [Login, Refresh(t.used.logins)] <= t'.log
      && t'.used.refreshes > t.used.refreshes
      && t'.used.logins - t.used.logins <= 1 + 2 * (t'.used.refreshes - t.used.refreshes)
      && Actions(t'.log) - Actions(t.log) <= t'.used.inputs - t.used.inputs
  {
    var t0 := AfterLogin(t);
    assert Run(w, cfg, t) == Loop(w, cfg, t0, t.used.logins);
    LoopBounds(w, cfg, t0, t.used.logins);
    LoopPrefix(w, cfg, t0, t.used.logins);
    QuietCounts(t.log, Login);
    assert Actions(t0.log) == Actions(t.log);
    assert t0.log + [Refresh(t.used.logins)] == t.log + [Login, Refresh(t.used.logins)];
  }

  /** The loop only appends to the log, starting with a refresh. */
  lemma {:induction false} LoopPrefix(w: World, cfg: Config, t: Trace, session: nat)
    requires cfg.res > 0 && t.used.inputs <= |w.commands|
    ensures t.log + [Refresh(session)] <= Loop(w, cfg, t, session).1.log
    decreases |w.commands| - t.used.inputs
  {
    var s := Iterate(w, cfg, t, session);
    PassPrefix(w, cfg, t, session);
    LoopStep(w, cfg, t, session);
    if s.Continue? {
      LoopPrefix(w, cfg, s.trace, s.session);
      PrefixChain(t.log + [Refresh(session)], s.trace.log, Loop(w, cfg, s.trace, s.session).1.log, Refresh(s.session));
    }
  }

  lemma {:induction false} PassPrefix(w: World, cfg: Config, t: Trace, session: nat)
    requires cfg.res > 0 && t.used.inputs <= |w.commands|
    ensures t.log + [Refresh(session)] <= Iterate(w, cfg, t, session).trace.log
  {
    PassShape(w, cfg, t, session);
    AsPrefix(t.log + [Refresh(session)], Iterate(w, cfg, t, session).trace.log);
  }

  lemma {:induction false} AsPrefix<T>(a: seq<T>, c: seq<T>)
    requires |c| >= |a| && c[..|a|] == a
    ensures a <= c
  {
  }

  lemma {:induction false} PrefixChain<T>(a: seq<T>, b: seq<T>, c: seq<T>, e: T)
    requires a <= b && b + [e] <= c
    ensures a <= c
  {
    assert b <= b + [e];
  }

  /** The loop ends with a pass that stops it, and a pass that goes on
      leaves the rest of the loop to the next pass. */
  lemma {:induction false} LoopStep(w: World, cfg: Config, t: Trace, session: nat)
    requires cfg.res > 0 && t.used.inputs <= |w.commands|
    ensures var s := Iterate(w, cfg, t, session);
      Loop(w, cfg, t, session) == if s.Stop? then (s.outcome, s.trace) else Loop(w, cfg, s.trace, s.session)
  {
  }

  lemma {:induction false} PrefixThrough<T>(a: seq<T>, b: seq<T>, c: seq<T>, e: T, e2: T)
    requires |b| > |a| && b[..|a| + 1] == a + [e]
    requires |c| > |b| && c[..|b| + 1] == b + [e2]
    ensures |c| > |a| && c[..|a| + 1] == a + [e]
  {
    assert c[..|b|] == c[..|b| + 1][..|b|];
    PrefixExtends(a, b, c, e);
  }
}
