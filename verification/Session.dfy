// The interactive session: Handler.handle, the command handler of the shell, the serial
// controller loop and the restart recursion of debug. The functions say what one call does,
// the classes do it in place; SessionSpec says what whole runs look like.
module Session {
  import opened Common
  import opened Text
  import opened Breakpoints

  // One finished op. `locs` is empty when no location is known for its vertex.
  datatype Event = Event(status: Status, locs: seq<Location>)

  // One build as its environment plays it out: the events, then what Build returns. With early
  // it returns while its handler is still busy, and nobody listens to the handler any more.
  datatype Build = Build(events: seq<Event>, failure: Option<string>, early: bool) {
    function Returned(): SessionResult {
      if failure.Some? then BuildFailed(failure.value) else Success
    }
  }

  // A parsed command line. Other stands for every line that only prints: list, log,
  // breakpoints, exec, help, an unknown command, an empty or an unparsable line.
  datatype Command =
    | Break(arg: string)
    | Clear(key: string)
    | ClearAll
    | Next
    | Continue(key: string)
    | Reload
    | Exit
    | Other

  // What one readLine call gets; running out of input is end of file.
  datatype Input = Typed(cmd: Command) | ReadFails

  datatype StopError = ExitRequested | ReloadRequested | ReadFailed

  // How a prompt ended.
  datatype Resume = ByNext | ByContinue(key: string) | Aborted(err: StopError)

  datatype Config = Config(stopOnEntry: bool, disableBreakpoints: bool)

  // The shell always stops on entry.
  const CLI := Config(true, false)

  // entried and each live in the per-build handler, table in the per-session breakpoints,
  // target in the per-shell command handler.
  datatype St = St(table: Table, entried: bool, each: bool, target: string)

  function FreshBuild(table: Table, target: string): St {
    St(table, false, false, target)
  }

  // ---- one command, one prompt, one event, one build -----------------------

  function BreakArgument(file: string, arg: string): Option<(string, Breakpoint)> {
    if arg == ON_FAIL then Some((ON_FAIL, OnFail))
    else
      match ParseInt(arg)
      case Some(line) => Some(("", Line(file, line)))
      case None => None
  }

  function DispatchCommand(st: St, file: string, cmd: Command): (St, Option<Resume>) {
    match cmd
    case Break(arg) =>
      (match BreakArgument(file, arg)
       case Some((key, bp)) => (st.(table := TableAdd(st.table, key, bp).0), None)
       case None => (st, None))
    case Clear(key) =>
      if key == "" || key !in st.table.bps then (st, None) else (st.(table := TableClear(st.table, key)), None)
    case ClearAll => (st.(table := EMPTY_TABLE), None)
    case Next => (st.(each := true), Some(ByNext))
    case Continue(key) =>
      if key != "" && key !in st.table.bps then (st, None)
      else (st.(each := false, target := if key != "" then key else st.target), Some(ByContinue(key)))
    case Reload => (st, Some(Aborted(ReloadRequested)))
    case Exit => (st, Some(Aborted(ExitRequested)))
    case Other => (st, None)
  }

  datatype PromptRun = PromptRun(st: St, rest: seq<Input>, resume: Resume)

  function ReadCommands(st: St, file: string, input: seq<Input>): (r: PromptRun)
    ensures |r.rest| <= |input|
    ensures r.resume == Aborted(ReloadRequested) ==> |r.rest| < |input|
    decreases |input|
  {
    if input == [] then PromptRun(st, [], Aborted(ExitRequested))
    else
      match input[0]
      case ReadFails => PromptRun(st, input[1..], Aborted(ReadFailed))
      case Typed(cmd) =>
        var (st1, resume) := DispatchCommand(st, file, cmd);
        if resume.Some? then PromptRun(st1, input[1..], resume.value)
        else ReadCommands(st1, file, input[1..])
  }

  // The stop decision of Handler.handle, before the shell is asked.
  predicate Stops(cfg: Config, st: St, hits: map<string, seq<Location>>) {
    !(cfg.disableBreakpoints || ((!cfg.stopOnEntry || st.entried) && !st.each && hits == map[]))
  }

  datatype EventRun = EventRun(st: St, rest: seq<Input>, resume: Option<Resume>)

  // resume is None when the event passes without a prompt.
  function HandleEvent(cfg: Config, st: St, e: Event, input: seq<Input>): (r: EventRun)
    ensures |r.rest| <= |input|
    ensures r.resume == Some(Aborted(ReloadRequested)) ==> |r.rest| < |input|
  {
    if e.locs == [] then EventRun(st, input, None)
    else
      var hits := Hits(st.table.bps, e.status, e.locs);
      if !Stops(cfg, st, hits) then EventRun(st, input, None)
      else if st.target != "" && st.target !in hits then EventRun(st.(entried := true), input, None)
      else
        var p := ReadCommands(st.(entried := true, target := ""), e.locs[0].source.filename, input);
        EventRun(p.st, p.rest, Some(p.resume))
  }

  // What one event left behind: the prompt it caused, the breakpoints after it, and whether
  // the controller released the waiting op.
  datatype Obs = Obs(event: Event, resume: Option<Resume>, table: Table, released: bool) {
    predicate Prompted() {
      resume.Some?
    }
  }

  datatype BuildRun = BuildRun(start: St, trace: seq<Obs>, final: St, rest: seq<Input>, stopped: Option<StopError>)

  function RunEvents(cfg: Config, st: St, events: seq<Event>, input: seq<Input>): (r: BuildRun)
    ensures |r.rest| <= |input|
    ensures r.stopped == Some(ReloadRequested) ==> |r.rest| < |input|
    decreases |events|
  {
    if events == [] then BuildRun(st, [], st, input, None)
    else
      var h := HandleEvent(cfg, st, events[0], input);
      if h.resume.Some? && h.resume.value.Aborted? then
        BuildRun(st, [Obs(events[0], h.resume, h.st.table, false)], h.st, h.rest, Some(h.resume.value.err))
      else
        var r := RunEvents(cfg, h.st, events[1..], h.rest);
        BuildRun(st, [Obs(events[0], h.resume, h.st.table, true)] + r.trace, r.final, r.rest, r.stopped)
  }

  // ---- the whole session ---------------------------------------------------

  datatype SessionResult = Success | BuildFailed(msg: string) | HandlerFailed(err: StopError) | HandlerBusy

  datatype SessionRun = SessionRun(builds: seq<BuildRun>, result: SessionResult, rest: seq<Input>)

  // What outlives one build: the breakpoints, the pending target and the controller's flag.
  datatype Shell = Shell(table: Table, target: string, handleStarted: bool)

  // The handler's error counts unless the build had returned before it, with or without an
  // error of its own.
  predicate Restarts(run: BuildRun, build: Build) {
    run.stopped == Some(ReloadRequested) && !build.early
  }

  function Outcome(run: BuildRun, build: Build): SessionResult
    requires !Restarts(run, build)
  {
    if run.stopped.None? || build.early then build.Returned()
    else
      match run.stopped.value
      case ReadFailed => HandlerFailed(ReadFailed)
      case _ => Success
  }

  // Build number n and its restarts. The recursion ends because a reload costs an input line.
  function RunSession(n: nat, shell: Shell, input: seq<Input>, env: nat -> Build): SessionRun
    decreases |input|
  {
    if shell.handleStarted then SessionRun([], HandlerBusy, input)
    else
      var run := RunEvents(CLI, FreshBuild(shell.table, shell.target), env(n).events, input);
      if Restarts(run, env(n)) then
        var s := RunSession(n + 1, Shell(run.final.table, run.final.target, false), run.rest, env);
        SessionRun([run] + s.builds, s.result, s.rest)
      else SessionRun([run], Outcome(run, env(n)), run.rest)
  }

  // ---- the objects -----------------------------------------------------------

  // pkg/buildkit.Handler: one per build.
  class Handler {
    const breakpoints: BreakpointSet
    const stopOnEntry: bool
    const disableBreakpoints: bool
    var breakEachVertex: bool
    var entried: bool

    constructor (breakpoints: BreakpointSet, cfg: Config)
      ensures this.breakpoints == breakpoints
      ensures stopOnEntry == cfg.stopOnEntry && disableBreakpoints == cfg.disableBreakpoints
      ensures !breakEachVertex && !entried
    {
      this.breakpoints := breakpoints;
      stopOnEntry := cfg.stopOnEntry;
      disableBreakpoints := cfg.disableBreakpoints;
      breakEachVertex := false;
      entried := false;
    }

    function Cfg(): Config {
      Config(stopOnEntry, disableBreakpoints)
    }

    // Returns the resume of the prompt, if the shell opened one.
    method Handle(e: Event, shell: CommandHandler) returns (resume: Option<Resume>)
      modifies this, breakpoints, shell
      ensures var r := HandleEvent(Cfg(), old(shell.State(this)), e, old(shell.input));
              shell.State(this) == r.st && shell.input == r.rest && resume == r.resume
    {
      if |e.locs| == 0 {
        return None;
      }
      var isBreakpoint := false;
      var hits := breakpoints.GetHitBreakpoints(e.status, e.locs);
      if |hits| > 0 {
        isBreakpoint := true;
      }
      if disableBreakpoints || ((!stopOnEntry || entried) && !breakEachVertex && !isBreakpoint) {
        return None;
      }
      if !entried {
        entried := true;
      }
      resume := shell.BreakHandler(this, hits, e.locs);
    }
  }

  // commandHandler: one per shell.
  class CommandHandler {
    var input: seq<Input>
    var targetBreakpoint: string

    constructor (input: seq<Input>)
      ensures this.input == input && targetBreakpoint == ""
    {
      this.input := input;
      targetBreakpoint := "";
    }

    function State(h: Handler): St
      reads this, h, h.breakpoints
    {
      St(h.breakpoints.View(), h.entried, h.breakEachVertex, targetBreakpoint)
    }

    method BreakHandler(h: Handler, hits: map<string, seq<Location>>, locs: seq<Location>)
      returns (resume: Option<Resume>)
      requires locs != []
      modifies this, h, h.breakpoints
      ensures if old(targetBreakpoint) != "" && old(targetBreakpoint) !in hits then
                resume == None && State(h) == old(State(h)) && input == old(input)
              else
                var p := ReadCommands(old(State(h)).(target := ""), locs[0].source.filename, old(input));
                State(h) == p.st && input == p.rest && resume == Some(p.resume)
    {
      if targetBreakpoint != "" {
        if targetBreakpoint !in hits {
          return None;
        }
      }
      targetBreakpoint := "";
      ghost var start, script := State(h), input;
      while true
        invariant ReadCommands(State(h), locs[0].source.filename, input) ==
                  ReadCommands(start, locs[0].source.filename, script)
        decreases |input|
      {
        if input == [] {
          return Some(Aborted(ExitRequested));
        }
        var ln := input[0];
        input := input[1..];
        if ln.ReadFails? {
          return Some(Aborted(ReadFailed));
        }
        var r := Dispatch(h, locs, ln.cmd);
        if r.Some? {
          return r;
        }
      }
    }

    method Dispatch(h: Handler, locs: seq<Location>, cmd: Command) returns (resume: Option<Resume>)
      requires locs != []
      modifies this`targetBreakpoint, h, h.breakpoints
      ensures (State(h), resume) == DispatchCommand(old(State(h)), locs[0].source.filename, cmd)
    {
      var target := "";
      resume := None;
      match cmd {
        case Break(arg) =>
          if arg == ON_FAIL {
            var _ := h.breakpoints.Add(ON_FAIL, OnFail);
          } else {
            var l := ParseInt(arg);
            if l.Some? {
              var _ := h.breakpoints.Add("", Line(locs[0].source.filename, l.value));
            }
          }
        case Clear(key) =>
          if key != "" {
            var bp := h.breakpoints.Get(key);
            if bp.Some? {
              h.breakpoints.Clear(key);
            }
          }
        case ClearAll =>
          h.breakpoints.ClearAll();
        case Next =>
          h.breakEachVertex := true;
          resume := Some(ByNext);
        case Continue(key) =>
          if key != "" {
            var bp := h.breakpoints.Get(key);
            if bp.None? {
              return None;
            }
            target := key;
          }
          h.breakEachVertex := false;
          resume := Some(ByContinue(key));
        case Reload =>
          resume := Some(Aborted(ReloadRequested));
        case Exit =>
          resume := Some(Aborted(ExitRequested));
        case Other =>
      }
      if target != "" {
        targetBreakpoint := target;
      }
    }
  }

  // The serial loop of debugController.handle, and debug around it.
  class Debugger {
    const breakpoints: BreakpointSet
    const shell: CommandHandler
    var handleStarted: bool

    constructor (input: seq<Input>)
      ensures fresh(breakpoints) && fresh(shell)
      ensures View() == Shell(INITIAL_TABLE, "", false) && shell.input == input
    {
      breakpoints := new BreakpointSet();
      shell := new CommandHandler(input);
      handleStarted := false;
      new;
      var _ := breakpoints.Add(ON_FAIL, OnFail);
    }

    function View(): Shell
      reads this, breakpoints, shell
    {
      Shell(breakpoints.View(), shell.targetBreakpoint, handleStarted)
    }

    // Consumes the events of one build until a prompt aborts it.
    method HandleEvents(h: Handler, events: seq<Event>) returns (run: BuildRun)
      requires h.breakpoints == breakpoints
      modifies breakpoints, shell, h
      ensures run == RunEvents(h.Cfg(), old(shell.State(h)), events, old(shell.input))
      ensures run.final == shell.State(h) && run.rest == shell.input
    {
      var start := shell.State(h);
      var trace: seq<Obs> := [];
      ghost var script := shell.input;
      for i := 0 to |events|
        invariant var r := RunEvents(h.Cfg(), shell.State(h), events[i..], shell.input);
                  RunEvents(h.Cfg(), start, events, script) ==
                  BuildRun(start, trace + r.trace, r.final, r.rest, r.stopped)
      {
        assert events[i..][1..] == events[i + 1..];
        var resume := h.Handle(events[i], shell);
        var aborted := resume.Some? && resume.value.Aborted?;
        trace := trace + [Obs(events[i], resume, breakpoints.View(), !aborted)];
        if aborted {
          return BuildRun(start, trace, shell.State(h), shell.input, Some(resume.value.err));
        }
      }
      run := BuildRun(start, trace, shell.State(h), shell.input, None);
    }

    method Debug(n: nat, env: nat -> Build) returns (s: SessionRun)
      modifies this, breakpoints, shell
      ensures s == RunSession(n, old(View()), old(shell.input), env)
      ensures shell.input == s.rest
      // the breakpoints and the pending target are those of the last build; the flag stays set
      // after a build whose handler was not stopped, because its loop keeps listening
      ensures s.builds != [] ==>
                var last := s.builds[|s.builds| - 1];
                View() == Shell(last.final.table, last.final.target, last.stopped.None?)
      ensures s.builds == [] ==> old(handleStarted) && View() == old(View())
      decreases |shell.input|
    {
      if handleStarted {
        return SessionRun([], HandlerBusy, shell.input);
      }
      handleStarted := true;
      var h := new Handler(breakpoints, CLI);
      var build := env(n);
      var run := HandleEvents(h, build.events);
      if run.stopped.None? {
        return SessionRun([run], build.Returned(), run.rest);
      }
      handleStarted := false;
      if build.early {
        return SessionRun([run], build.Returned(), run.rest);
      }
      match run.stopped.value {
        case ExitRequested => s := SessionRun([run], Success, run.rest);
        case ReadFailed => s := SessionRun([run], HandlerFailed(ReadFailed), run.rest);
        case ReloadRequested =>
          var again := Debug(n + 1, env);
          s := SessionRun([run] + again.builds, again.result, again.rest);
      }
    }
  }
}
