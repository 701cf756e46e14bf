/**
 * The streaming executor (`safeSpawn`).  After validation the child is
 * spawned without a shell; from then on the session reacts to events:
 * output chunks on either stream, the optional timer, the child's `error`
 * and its `close`.  `SpawnSession` holds the state the handlers update;
 * `Step` and `Run` say what one event and a whole history of events do to
 * it, and the lemmas below are about every history.
 */
module Spawn {
  import opened Wrappers
  import opened Strings
  import opened JsValue
  import opened SafeCommand

  /** What the child process and the timer can do, in the order they happen. */
  datatype Event =
    | StdoutData(chunk: string)
    | StderrData(chunk: string)
    | TimerFired
    | ProcessError(error: ErrorInfo)
    | ProcessClose(code: Option<int>)

  predicate IsData(e: Event)
  {
    e.StdoutData? || e.StderrData?
  }

  /** Why the promise was rejected: the only rejection is the timeout. */
  datatype SpawnFailure = TimedOut(ms: int)

  /** The state of the returned promise. */
  datatype Settlement = Pending | Resolved(result: CommandResult) | Rejected(failure: SpawnFailure)

  /** The caller's `timeout` and whether it passed `onStdout` and `onStderr`. */
  datatype SpawnConfig = SpawnConfig(timeout: Option<int>, onStdout: bool, onStderr: bool)

  /** What `safeSpawn` hands to `spawn`. */
  datatype SpawnInvocation = SpawnInvocation(file: string, argv: seq<string>, cwd: Option<string>, env: Env, shell: bool)

  /**
   * The accumulated output, the chunks each callback has received, whether
   * the timer is still pending, whether the child was sent SIGTERM, and the
   * promise.
   */
  datatype SpawnState = SpawnState(stdout: string, stderr: string,
                                   streamedOut: seq<string>, streamedErr: seq<string>,
                                   timerArmed: bool, killed: bool, settlement: Settlement)

  /** `if (options.timeout)`: a timer exists only for a truthy timeout. */
  predicate TimeoutArmed(timeout: Option<int>)
  {
    timeout.Some? && timeout.value != 0
  }

  /** `exitCode: code`: the code of `close`, `null` when the child ended by a signal. */
  function ExitCodeValue(code: Option<int>): Value
  {
    match code
    case Some(n) => Num(n)
    case None => Null
  }

  /** The session right after `spawn`: nothing received, the timer set for a truthy timeout, the promise pending. */
  function Initial(config: SpawnConfig): (r: SpawnState)
    ensures r.settlement.Pending? && !r.killed
    ensures SpawnInvariant(config, r)
  {
    assert Concat([]) == "";
    SpawnState("", "", [], [], TimeoutArmed(config.timeout), false, Pending)
  }

  /** A promise settles once: later calls to `resolve` or `reject` are ignored. */
  function Settle(current: Settlement, next: Settlement): Settlement
  {
    if current.Pending? then next else current
  }

  /** What one event's handler does. */
  function Step(config: SpawnConfig, s: SpawnState, e: Event): (r: SpawnState)
    ensures !s.settlement.Pending? ==> r.settlement == s.settlement
    ensures StartsWith(r.stdout, s.stdout) && StartsWith(r.stderr, s.stderr)
    ensures s.killed ==> r.killed
  {
    assert s.stdout[..|s.stdout|] == s.stdout && s.stderr[..|s.stderr|] == s.stderr;
    match e
    case StdoutData(chunk) =>
      s.(stdout := s.stdout + chunk,
         streamedOut := if config.onStdout then s.streamedOut + [chunk] else s.streamedOut)
    case StderrData(chunk) =>
      s.(stderr := s.stderr + chunk,
         streamedErr := if config.onStderr then s.streamedErr + [chunk] else s.streamedErr)
    case TimerFired =>
      if s.timerArmed then
        s.(timerArmed := false, killed := true,
           settlement := Settle(s.settlement, Rejected(TimedOut(GetOr(config.timeout, 0)))))
      else s
    case ProcessError(error) =>
      s.(timerArmed := false,
         settlement := Settle(s.settlement, Resolved(CommandResult(s.stdout, s.stderr, Null, Some(error)))))
    case ProcessClose(code) =>
      s.(timerArmed := false,
         settlement := Settle(s.settlement, Resolved(CommandResult(s.stdout, s.stderr, ExitCodeValue(code), None))))
  }

  /** A history of events, delivered in order. */
  function Run(config: SpawnConfig, s: SpawnState, events: seq<Event>): (r: SpawnState)
    ensures StartsWith(r.stdout, s.stdout) && StartsWith(r.stderr, s.stderr)
    ensures s.killed ==> r.killed
    decreases |events|
  {
    if events == [] then
      assert s.stdout[..|s.stdout|] == s.stdout && s.stderr[..|s.stderr|] == s.stderr;
      s
    else
      var t := Step(config, s, events[0]);
      var r := Run(config, t, events[1..]);
      PrefixTrans(r.stdout, t.stdout, s.stdout);
      PrefixTrans(r.stderr, t.stderr, s.stderr);
      r
  }

  /** A prefix of a prefix is a prefix. */
  lemma PrefixTrans(a: string, b: string, c: string)
    requires StartsWith(a, b) && StartsWith(b, c)
    ensures StartsWith(a, c)
  {
    assert a[..|c|] == a[..|b|][..|c|];
  }

  /** What the session keeps true between events. */
  ghost predicate SpawnInvariant(config: SpawnConfig, s: SpawnState)
  {
    (config.onStdout ==> Concat(s.streamedOut) == s.stdout) &&
    (!config.onStdout ==> s.streamedOut == []) &&
    (config.onStderr ==> Concat(s.streamedErr) == s.stderr) &&
    (!config.onStderr ==> s.streamedErr == []) &&
    (s.timerArmed ==> s.settlement.Pending? && TimeoutArmed(config.timeout)) &&
    (s.killed ==> TimeoutArmed(config.timeout)) &&
    (s.settlement.Rejected? ==> s.killed && s.settlement.failure == TimedOut(config.timeout.value)) &&
    (s.settlement.Resolved? ==>
       (s.settlement.result.error.Some? ==> s.settlement.result.exitCode == Null) &&
       StartsWith(s.stdout, s.settlement.result.stdout) &&
       StartsWith(s.stderr, s.settlement.result.stderr))
  }

  lemma InitialInvariant(config: SpawnConfig)
    ensures SpawnInvariant(config, Initial(config))
  {
    assert Concat([]) == "";
  }

  lemma PrefixExtends(a: string, p: string, c: string)
    requires StartsWith(a, p)
    ensures StartsWith(a + c, p)
  {
    assert (a + c)[..|p|] == a[..|p|];
  }

  /** Every handler keeps the invariant. */
  lemma StepInvariant(config: SpawnConfig, s: SpawnState, e: Event)
    requires SpawnInvariant(config, s)
    ensures SpawnInvariant(config, Step(config, s, e))
  {
    var t := Step(config, s, e);
    match e {
      case StdoutData(chunk) =>
        if config.onStdout {
          assert (s.streamedOut + [chunk])[..|s.streamedOut|] == s.streamedOut;
        }
        if s.settlement.Resolved? {
          PrefixExtends(s.stdout, s.settlement.result.stdout, chunk);
        }
      case StderrData(chunk) =>
        if config.onStderr {
          assert (s.streamedErr + [chunk])[..|s.streamedErr|] == s.streamedErr;
        }
        if s.settlement.Resolved? {
          PrefixExtends(s.stderr, s.settlement.result.stderr, chunk);
        }
      case TimerFired =>
      case ProcessError(_) =>
        assert s.stdout[..|s.stdout|] == s.stdout && s.stderr[..|s.stderr|] == s.stderr;
      case ProcessClose(_) =>
        assert s.stdout[..|s.stdout|] == s.stdout && s.stderr[..|s.stderr|] == s.stderr;
    }
  }

  /** Every history keeps the invariant. */
  lemma {:induction false} RunInvariant(config: SpawnConfig, s: SpawnState, events: seq<Event>)
    requires SpawnInvariant(config, s)
    ensures SpawnInvariant(config, Run(config, s, events))
    decreases |events|
  {
    if events != [] {
      StepInvariant(config, s, events[0]);
      RunInvariant(config, Step(config, s, events[0]), events[1..]);
    }
  }

  lemma {:induction false} RunAppend(config: SpawnConfig, s: SpawnState, a: seq<Event>, b: seq<Event>)
    ensures Run(config, s, a + b) == Run(config, Run(config, s, a), b)
    decreases |a|
  {
    if a == [] {
      assert a + b == b;
    } else {
      assert (a + b)[0] == a[0] && (a + b)[1..] == a[1..] + b;
      RunAppend(config, Step(config, s, a[0]), a[1..], b);
    }
  }

  /** Once settled, the promise keeps its value whatever happens next. */
  lemma {:induction false} SettledStays(config: SpawnConfig, s: SpawnState, events: seq<Event>)
    requires !s.settlement.Pending?
    ensures Run(config, s, events).settlement == s.settlement
    decreases |events|
  {
    if events != [] {
      SettledStays(config, Step(config, s, events[0]), events[1..]);
    }
  }

  /** The text of the chunks one stream delivers in a history. */
  function StdoutOf(events: seq<Event>): string
    decreases |events|
  {
    if events == [] then ""
    else (if events[0].StdoutData? then events[0].chunk else "") + StdoutOf(events[1..])
  }

  function StderrOf(events: seq<Event>): string
    decreases |events|
  {
    if events == [] then ""
    else (if events[0].StderrData? then events[0].chunk else "") + StderrOf(events[1..])
  }

  /** Output chunks only accumulate: the timer, the kill flag and the promise stay as they were. */
  lemma {:induction false} DataOnlyRun(config: SpawnConfig, s: SpawnState, events: seq<Event>)
    requires forall i :: 0 <= i < |events| ==> IsData(events[i])
    ensures DataAppended(s, Run(config, s, events), events)
    decreases |events|
  {
    if events == [] {
      assert s.stdout + "" == s.stdout && s.stderr + "" == s.stderr;
    } else {
      var e, rest := events[0], events[1..];
      assert forall i :: 0 <= i < |rest| ==> IsData(rest[i]) by {
        forall i | 0 <= i < |rest| ensures IsData(rest[i]) {
          assert rest[i] == events[i + 1];
        }
      }
      DataOnlyRun(config, Step(config, s, e), rest);
      assert events == [e] + rest;
      DataRunStep(config, s, e, rest);
    }
  }

  /** `t` is `s` with the chunks of `events` appended and the timer, the kill flag and the promise untouched. */
  ghost predicate DataAppended(s: SpawnState, t: SpawnState, events: seq<Event>)
  {
    t.stdout == s.stdout + StdoutOf(events) && t.stderr == s.stderr + StderrOf(events) &&
    t.timerArmed == s.timerArmed && t.killed == s.killed && t.settlement == s.settlement
  }

  /** The induction step of DataOnlyRun. */
  lemma DataRunStep(config: SpawnConfig, s: SpawnState, e: Event, rest: seq<Event>)
    requires IsData(e)
    requires DataAppended(Step(config, s, e), Run(config, Step(config, s, e), rest), rest)
    ensures DataAppended(s, Run(config, s, [e] + rest), [e] + rest)
  {
    var out := if e.StdoutData? then e.chunk else "";
    var err := if e.StderrData? then e.chunk else "";
    DataStep(config, s, e);
    RunCons(config, s, e, rest);
    OutputsCons(e, rest);
    AppendAssoc(s.stdout, out, StdoutOf(rest));
    AppendAssoc(s.stderr, err, StderrOf(rest));
  }

  /** The chunks of a history that starts with `e`: those of `e`, then those of the rest. */
  lemma OutputsCons(e: Event, rest: seq<Event>)
    ensures StdoutOf([e] + rest) == (if e.StdoutData? then e.chunk else "") + StdoutOf(rest)
    ensures StderrOf([e] + rest) == (if e.StderrData? then e.chunk else "") + StderrOf(rest)
  {
    assert ([e] + rest)[0] == e && ([e] + rest)[1..] == rest;
  }

  lemma AppendAssoc(a: string, b: string, c: string)
    ensures (a + b) + c == a + (b + c)
  {
  }

  /** A history that starts with `e` is `e` followed by the rest. */
  lemma RunCons(config: SpawnConfig, s: SpawnState, e: Event, rest: seq<Event>)
    ensures Run(config, s, [e] + rest) == Run(config, Step(config, s, e), rest)
  {
    assert ([e] + rest)[0] == e && ([e] + rest)[1..] == rest;
  }

  /** One output chunk appends to its stream and leaves the timer, the kill flag and the promise alone. */
  lemma DataStep(config: SpawnConfig, s: SpawnState, e: Event)
    requires IsData(e)
    ensures var t := Step(config, s, e);
            t.stdout == s.stdout + (if e.StdoutData? then e.chunk else "") &&
            t.stderr == s.stderr + (if e.StderrData? then e.chunk else "") &&
            t.timerArmed == s.timerArmed && t.killed == s.killed && t.settlement == s.settlement
  {
    assert s.stdout + "" == s.stdout && s.stderr + "" == s.stderr;
  }

  /** What the first event that ends the session makes of the promise. */
  function Outcome(config: SpawnConfig, stdout: string, stderr: string, e: Event): Settlement
  {
    match e
    case TimerFired => Rejected(TimedOut(GetOr(config.timeout, 0)))
    case ProcessError(error) => Resolved(CommandResult(stdout, stderr, Null, Some(error)))
    case ProcessClose(code) => Resolved(CommandResult(stdout, stderr, ExitCodeValue(code), None))
    case _ => Pending
  }

  /**
   * The first of `error`, `close` and a due timer decides the promise, with
   * the output that arrived before it; nothing after it changes the outcome.
   */
  lemma FirstEndDecides(config: SpawnConfig, before: seq<Event>, e: Event, after: seq<Event>)
    requires forall i :: 0 <= i < |before| ==> IsData(before[i])
    requires e.ProcessError? || e.ProcessClose? || (e.TimerFired? && TimeoutArmed(config.timeout))
    ensures Run(config, Initial(config), before + [e] + after).settlement
            == Outcome(config, StdoutOf(before), StderrOf(before), e)
  {
    var s0 := Initial(config);
    RunAppend(config, s0, before + [e], after);
    RunAppend(config, s0, before, [e]);
    DataOnlyRun(config, s0, before);
    var s1 := Run(config, s0, before);
    assert "" + StdoutOf(before) == StdoutOf(before) && "" + StderrOf(before) == StderrOf(before);
    var s2 := Step(config, s1, e);
    assert Run(config, s1, [e]) == s2;
    SettledStays(config, s2, after);
  }

  /** Without a truthy timeout the timer event changes nothing. */
  lemma TimerIdleWithoutTimeout(config: SpawnConfig, s: SpawnState)
    requires SpawnInvariant(config, s)
    requires !TimeoutArmed(config.timeout)
    ensures Step(config, s, TimerFired) == s
  {
  }

  /** Without a truthy timeout the promise is never rejected. */
  lemma NeverRejectedWithoutTimeout(config: SpawnConfig, events: seq<Event>)
    requires !TimeoutArmed(config.timeout)
    ensures !Run(config, Initial(config), events).settlement.Rejected?
  {
    InitialInvariant(config);
    RunInvariant(config, Initial(config), events);
  }

  /**
   * What the callbacks received, joined, is the buffered output; a
   * resolved result holds the output that arrived before it settled.
   */
  lemma StreamedIsBuffered(config: SpawnConfig, events: seq<Event>)
    ensures var t := Run(config, Initial(config), events);
            (config.onStdout ==> Concat(t.streamedOut) == t.stdout) &&
            (config.onStderr ==> Concat(t.streamedErr) == t.stderr) &&
            (t.settlement.Resolved? ==> StartsWith(t.stdout, t.settlement.result.stdout) &&
                                        StartsWith(t.stderr, t.settlement.result.stderr))
  {
    InitialInvariant(config);
    RunInvariant(config, Initial(config), events);
  }

  /** A resolved result that carries an error has a `null` exit code. */
  lemma ErrorMeansNullExit(config: SpawnConfig, events: seq<Event>)
    ensures var t := Run(config, Initial(config), events);
            t.settlement.Resolved? && t.settlement.result.error.Some? ==> t.settlement.result.exitCode == Null
  {
    InitialInvariant(config);
    RunInvariant(config, Initial(config), events);
  }

  /** The converse fails: a child ended by a signal resolves with a `null` exit code and no error. */
  lemma NullExitWithoutError(config: SpawnConfig)
    ensures var t := Run(config, Initial(config), [ProcessClose(None)]);
            t.settlement == Resolved(CommandResult("", "", Null, None))
  {
    FirstEndDecides(config, [], ProcessClose(None), []);
    assert [] + [ProcessClose(None)] + [] == [ProcessClose(None)];
  }

  /** A session: the state the event handlers of `safeSpawn` share. */
  class SpawnSession {
    const config: SpawnConfig
    const invocation: SpawnInvocation
    var stdout: string
    var stderr: string
    var streamedOut: seq<string>
    var streamedErr: seq<string>
    var timerArmed: bool
    var killed: bool
    var settlement: Settlement

    function State(): SpawnState
      reads this
    {
      SpawnState(stdout, stderr, streamedOut, streamedErr, timerArmed, killed, settlement)
    }

    ghost predicate Valid()
      reads this
    {
      SpawnInvariant(config, State())
    }

    constructor (config: SpawnConfig, invocation: SpawnInvocation)
      ensures this.config == config && this.invocation == invocation
      ensures State() == Initial(config) && Valid()
    {
      this.config := config;
      this.invocation := invocation;
      stdout, stderr := "", "";
      streamedOut, streamedErr := [], [];
      timerArmed := TimeoutArmed(config.timeout);
      killed := false;
      settlement := Pending;
      new;
      InitialInvariant(config);
    }

    /** The `data` handler of the child's stdout. */
    method OnStdoutData(chunk: string)
      requires Valid()
      modifies this
      ensures Valid() && State() == Step(config, old(State()), StdoutData(chunk))
    {
      StepInvariant(config, State(), StdoutData(chunk));
      stdout := stdout + chunk;
      if config.onStdout {
        streamedOut := streamedOut + [chunk];
      }
    }

    /** The `data` handler of the child's stderr. */
    method OnStderrData(chunk: string)
      requires Valid()
      modifies this
      ensures Valid() && State() == Step(config, old(State()), StderrData(chunk))
    {
      StepInvariant(config, State(), StderrData(chunk));
      stderr := stderr + chunk;
      if config.onStderr {
        streamedErr := streamedErr + [chunk];
      }
    }

    /** The timer callback: SIGTERM to the child, then reject. */
    method OnTimer()
      requires Valid()
      modifies this
      ensures Valid() && State() == Step(config, old(State()), TimerFired)
    {
      StepInvariant(config, State(), TimerFired);
      if timerArmed {
        timerArmed := false;
        killed := true;
        settlement := Settle(settlement, Rejected(TimedOut(GetOr(config.timeout, 0))));
      }
    }

    /** The child's `error` handler: clear the timer, resolve with a `null` exit code. */
    method OnError(error: ErrorInfo)
      requires Valid()
      modifies this
      ensures Valid() && State() == Step(config, old(State()), ProcessError(error))
    {
      StepInvariant(config, State(), ProcessError(error));
      timerArmed := false;
      settlement := Settle(settlement, Resolved(CommandResult(stdout, stderr, Null, Some(error))));
    }

    /** The child's `close` handler: clear the timer, resolve with the exit code. */
    method OnClose(code: Option<int>)
      requires Valid()
      modifies this
      ensures Valid() && State() == Step(config, old(State()), ProcessClose(code))
    {
      StepInvariant(config, State(), ProcessClose(code));
      timerArmed := false;
      settlement := Settle(settlement, Resolved(CommandResult(stdout, stderr, ExitCodeValue(code), None)));
    }
  }

  /**
   * `safeSpawn`: validates before any process exists, then starts the child
   * without a shell and returns the session with its timer armed for a
   * truthy timeout.
   */
  method SafeSpawn(command: string, args: seq<Value>, options: Options, onStdout: bool, onStderr: bool,
                   processEnv: Env)
    returns (r: Result<SpawnSession, SafeError>)
    ensures ValidateCommand(command).Fail? ==> r == Err(InvalidCommand(command))
    ensures ValidateCommand(command).Pass? && ArgumentsCheck(args).Fail? ==> r == Err(ArgumentsCheck(args).error)
    ensures r.Ok? <==> ValidateCommand(command).Pass? && ArgumentsCheck(args).Pass?
    ensures r.Ok? ==>
              fresh(r.value) && r.value.Valid() && r.value.State() == Initial(r.value.config) &&
              r.value.config == SpawnConfig(options.timeout, onStdout, onStderr) &&
              r.value.invocation == SpawnInvocation(command, ArgStrings(args), options.cwd,
                                                    GetOr(options.env, processEnv), false)
  {
    var commandCheck := ValidateCommand(command);
    if commandCheck.Fail? {
      return Err(commandCheck.error);
    }
    var argsCheck := ValidateArguments(args);
    if argsCheck.Fail? {
      return Err(argsCheck.error);
    }
    var invocation := SpawnInvocation(command, ArgStrings(args), options.cwd, GetOr(options.env, processEnv), false);
    var session := new SpawnSession(SpawnConfig(options.timeout, onStdout, onStderr), invocation);
    return Ok(session);
  }
}
