// What each typed command does, said by its effect: on what hits later, on how the prompt ends,
// and on where the build prompts next.
module Commands {
  import opened Common
  import opened Text
  import opened Breakpoints
  import opened Session
  import opened SessionSpec

  function TableAfter(st: St, file: string, cmd: Command): Table {
    DispatchCommand(st, file, cmd).0.table
  }

  // ---- the breakpoints ------------------------------------------------------------------

  // A new session has one breakpoint, on failed ops.
  lemma FreshBreakpoints(e: Event)
    ensures HitsOf(INITIAL_TABLE, e).Keys == if e.status.err.Some? then {ON_FAIL} else {}
  {
  }

  // After `clearall` nothing hits, whatever was registered.
  lemma ClearAllForgets(st: St, file: string, e: Event)
    ensures HitsOf(TableAfter(st, file, ClearAll), e) == map[]
  {
  }

  // `clear KEY` takes exactly this key away, and an unknown key changes nothing.
  lemma ClearTakesKey(st: St, file: string, key: string, e: Event)
    ensures key != "" && key in st.table.bps ==>
              forall k :: k in HitsOf(TableAfter(st, file, Clear(key)), e) <==> k != key && k in HitsOf(st.table, e)
    ensures key == "" || key !in st.table.bps ==> TableAfter(st, file, Clear(key)) == st.table
  {
  }

  // `break on-fail` makes exactly the failed ops hit on-fail, uses up no number, and leaves all
  // other hits alone; when on-fail is there already it changes nothing.
  lemma BreakOnFail(st: St, file: string, e: Event)
    ensures var t := TableAfter(st, file, Break(ON_FAIL));
            && ON_FAIL in t.bps && t.index == st.table.index
            && (ON_FAIL !in st.table.bps ==> (ON_FAIL in HitsOf(t, e) <==> e.status.err.Some?))
            && (ON_FAIL in st.table.bps ==> t == st.table)
            && forall k :: k != ON_FAIL ==> (k in HitsOf(t, e) <==> k in HitsOf(st.table, e))
  {
  }

  predicate TouchesBreakpoints(cmd: Command) {
    || cmd.Clear?
    || cmd.ClearAll?
    || (cmd.Break? && (cmd.arg == ON_FAIL || ParseInt(cmd.arg).Some?))
  }

  // No other command touches the breakpoints, nor does a `break` whose argument is no line.
  lemma OthersKeepBreakpoints(st: St, file: string, cmd: Command)
    requires !TouchesBreakpoints(cmd)
    ensures TableAfter(st, file, cmd) == st.table
  {
  }

  // A line typed at the prompt of an event is a line of the file of that event's first location.
  lemma BreakAtPrompt(cfg: Config, st: St, e: Event, input: seq<Input>, arg: string, line: int, later: Event)
    requires KeysBelowIndex(st.table) && arg != ON_FAIL && ParseInt(arg) == Some(line)
    requires HandleEvent(cfg, st, e, [Typed(Break(arg)), Typed(Continue(""))] + input).resume.Some?
    ensures e.locs != []
    ensures var h := HandleEvent(cfg, st, e, [Typed(Break(arg)), Typed(Continue(""))] + input);
            var key := Decimal(st.table.index);
            && h.rest == input && h.resume == Some(ByContinue(""))
            && (key in HitsOf(h.st.table, later) <==>
                  exists i, j :: CoveredAt(e.locs[0].source.filename, line, later.locs, i, j))
            && forall k :: k != key ==> (k in HitsOf(h.st.table, later) <==> k in HitsOf(st.table, later))
  {
    var lines := [Typed(Break(arg)), Typed(Continue(""))] + input;
    var st1, file := st.(entried := true, target := ""), e.locs[0].source.filename;
    BreakThenHit(st1, file, arg, line, later);
    var st2 := DispatchCommand(st1, file, Break(arg)).0;
    assert lines[1..] == [Typed(Continue(""))] + input && lines[1..][1..] == input;
    assert ReadCommands(st1, file, lines) == ReadCommands(st2, file, lines[1..]);
  }

  // ---- how a prompt ends --------------------------------------------------------------------

  // Which commands keep the prompt open.
  lemma KeepsPromptIff(st: St, file: string, cmd: Command)
    ensures DispatchCommand(st, file, cmd).1.None? <==>
              || cmd.Break? || cmd.Clear? || cmd.ClearAll? || cmd.Other?
              || (cmd.Continue? && cmd.key != "" && cmd.key !in st.table.bps)
  {
  }

  // A line that a prompt always ends with.
  predicate AlwaysEnds(line: Input) {
    line.ReadFails? || line.cmd.Next? || line.cmd.Reload? || line.cmd.Exit? || line == Typed(Continue(""))
  }

  // A prompt that reads lines from..to ends as its last line says, and at the end of the input
  // as `exit` says.
  ghost predicate EndsAs(input: seq<Input>, from: nat, to: nat, r: Resume, t: Table) {
    && from <= to <= |input|
    && (forall i :: from <= i < to - 1 ==> !AlwaysEnds(input[i]))
    && match r
       case ByNext => from < to && input[to - 1] == Typed(Next)
       case ByContinue(key) =>
         from < to && input[to - 1] == Typed(Continue(key)) && (key != "" ==> key in t.bps)
       case Aborted(ReloadRequested) => from < to && input[to - 1] == Typed(Reload)
       case Aborted(ReadFailed) => from < to && input[to - 1] == ReadFails
       case Aborted(ExitRequested) =>
         || (from < to && input[to - 1] == Typed(Exit))
         || (to == |input| && (from < to ==> !AlwaysEnds(input[to - 1])))
  }

  lemma OneMoreLine(input: seq<Input>, n: nat, r: Resume, t: Table)
    requires input != [] && !AlwaysEnds(input[0]) && EndsAs(input[1..], 0, n, r, t)
    ensures EndsAs(input, 0, n + 1, r, t) && input[1..][n..] == input[n + 1..]
  {
    assert forall i :: 1 <= i <= n ==> input[i] == input[1..][i - 1];
  }

  lemma {:induction false} PromptEndsAsTyped(st: St, file: string, input: seq<Input>)
    ensures var p := ReadCommands(st, file, input);
            var n := |input| - |p.rest|;
            p.rest == input[n..] && EndsAs(input, 0, n, p.resume, p.st.table)
    decreases |input|
  {
    if input == [] || input[0].ReadFails? {
    } else {
      var (st1, resume) := DispatchCommand(st, file, input[0].cmd);
      if resume.None? {
        PromptEndsAsTyped(st1, file, input[1..]);
        var p := ReadCommands(st1, file, input[1..]);
        OneMoreLine(input, |input[1..]| - |p.rest|, p.resume, p.st.table);
      } else {
        assert input[1..] == input[|input| - |input[1..]|..];
      }
    }
  }

  ghost predicate ReadsFrom(input: seq<Input>, pos: seq<nat>, trace: seq<Obs>, i: int)
    requires 0 <= i < |trace| && |pos| == |trace| + 1
  {
    if trace[i].Prompted() then EndsAs(input, pos[i], pos[i + 1], trace[i].resume.value, trace[i].table)
    else pos[i + 1] == pos[i]
  }

  // The prompts of a build read its script from the front, one after the other, each up to the
  // line that ends it; events without a prompt read nothing.
  ghost predicate ReadsScript(run: BuildRun, input: seq<Input>, pos: seq<nat>) {
    && |pos| == |run.trace| + 1
    && pos[0] == 0 && pos[|run.trace|] <= |input| && run.rest == input[pos[|run.trace|]..]
    && forall i :: 0 <= i < |run.trace| ==> ReadsFrom(input, pos, run.trace, i)
  }

  lemma {:induction false} PromptsReadScript(cfg: Config, st: St, events: seq<Event>, input: seq<Input>)
    returns (pos: seq<nat>)
    ensures ReadsScript(RunEvents(cfg, st, events, input), input, pos)
    decreases |events|
  {
    if events == [] {
      pos := [0];
    } else {
      var h := HandleEvent(cfg, st, events[0], input);
      UnfoldRun(cfg, st, events, input);
      if h.resume.Some? {
        PromptEndsAsTyped(st.(entried := true, target := ""), events[0].locs[0].source.filename, input);
      }
      var n: nat := |input| - |h.rest|;
      var later := [0];
      if !Aborts(h) {
        later := PromptsReadScript(cfg, h.st, events[1..], h.rest);
      }
      pos := [0] + Shift(later, n);
      ScriptCons(input, n, ObsOf(events[0], h), RestOfRun(cfg, h, events[1..]), later, pos,
                 RunEvents(cfg, st, events, input));
    }
  }

  function Shift(pos: seq<nat>, n: nat): seq<nat> {
    seq(|pos|, i requires 0 <= i < |pos| => pos[i] + n)
  }

  lemma ScriptCons(input: seq<Input>, n: nat, o: Obs, r: BuildRun, later: seq<nat>, pos: seq<nat>, run: BuildRun)
    requires n <= |input| && ReadsScript(r, input[n..], later)
    requires pos == [0] + Shift(later, n) && ConsRun(run, o, r)
    requires if o.Prompted() then EndsAs(input, 0, n, o.resume.value, o.table) else n == 0
    ensures ReadsScript(run, input, pos)
  {
    forall i | 0 <= i < |run.trace|
      ensures ReadsFrom(input, pos, run.trace, i)
    {
      if i > 0 {
        assert ReadsFrom(input[n..], later, r.trace, i - 1);
        assert run.trace[i] == r.trace[i - 1];
        assert pos[i] == later[i - 1] + n && pos[i + 1] == later[i] + n;
        if run.trace[i].Prompted() {
          EndsAsShift(input, n, later[i - 1], later[i], run.trace[i].resume.value, run.trace[i].table);
        }
      }
    }
    assert input[n..][later[|r.trace|]..] == input[n + later[|r.trace|]..];
  }

  lemma EndsAsShift(input: seq<Input>, n: nat, from: nat, to: nat, r: Resume, t: Table)
    requires n <= |input| && EndsAs(input[n..], from, to, r, t)
    ensures EndsAs(input, from + n, to + n, r, t)
  {
    forall i | from + n <= i < to + n - 1
      ensures !AlwaysEnds(input[i])
    {
      assert input[i] == input[n..][i - n];
    }
    assert from < to ==> input[n..][to - 1] == input[to + n - 1];
  }

  // ---- where the build prompts next ------------------------------------------------------------

  // After `next` the first later event with a location prompts.
  lemma NextStopsAtLocated(table: Table, events: seq<Event>, input: seq<Input>, i: nat, j: nat)
    requires var trace := RunEvents(CLI, FreshBuild(table, ""), events, input).trace;
             && i < j < |trace| && trace[i].resume == Some(ByNext)
             && forall m :: i < m < j ==> trace[m].event.locs == []
    ensures var trace := RunEvents(CLI, FreshBuild(table, ""), events, input).trace;
            NoPromptBetween(trace, i, j) && (trace[j].Prompted() <==> trace[j].event.locs != [])
  {
    var trace := RunEvents(CLI, FreshBuild(table, ""), events, input).trace;
    BuildRefinesSpec(CLI, table, events, input);
    forall m | i < m < j
      ensures !trace[m].Prompted()
    {
      assert PromptRule(CLI, table, trace, m);
    }
    HistorySince(table, trace, i, j);
    assert PromptRule(CLI, table, trace, j);
  }

  ghost predicate HitsAny(t: Table, e: Event) {
    e.locs != [] && HitsOf(t, e) != map[]
  }

  // After `continue` without a key the next prompt is at the first later event that hits anything.
  lemma {:induction false} ContinueStopsAtHit(table: Table, events: seq<Event>, input: seq<Input>, i: nat, j: nat)
    requires var trace := RunEvents(CLI, FreshBuild(table, ""), events, input).trace;
             && i < j < |trace| && trace[i].resume == Some(ByContinue(""))
             && forall m :: i < m < j ==> !HitsAny(trace[i].table, trace[m].event)
    ensures var trace := RunEvents(CLI, FreshBuild(table, ""), events, input).trace;
            NoPromptBetween(trace, i, j) && (trace[j].Prompted() <==> HitsAny(trace[i].table, trace[j].event))
    decreases j
  {
    var trace := RunEvents(CLI, FreshBuild(table, ""), events, input).trace;
    BuildRefinesSpec(CLI, table, events, input);
    forall m: nat | i < m < j
      ensures !trace[m].Prompted()
    {
      ContinueStopsAtHit(table, events, input, i, m);
    }
    HistorySince(table, trace, i, j);
    assert PromptRule(CLI, table, trace, i) && PromptRule(CLI, table, trace, j);
    assert trace[..j][i] == trace[i];
  }

  // `clearall` and `continue` at the entry prompt: the build runs to its end without another
  // prompt, whatever fails.
  lemma ClearAllThenContinue(table: Table, e: Event, events: seq<Event>, rest: seq<Input>)
    requires e.locs != []
    ensures var run := RunEvents(CLI, FreshBuild(table, ""), [e] + events,
                                 [Typed(ClearAll), Typed(Continue(""))] + rest);
            && run.trace[0].Prompted()
            && (forall i :: 0 < i < |run.trace| ==> !run.trace[i].Prompted())
            && run.stopped.None? && |run.trace| == 1 + |events|
  {
    var input := [Typed(ClearAll), Typed(Continue(""))] + rest;
    var run := RunEvents(CLI, FreshBuild(table, ""), [e] + events, input);
    BuildRefinesSpec(CLI, table, [e] + events, input);
    UnfoldRun(CLI, FreshBuild(table, ""), [e] + events, input);
    var st := FreshBuild(table, "").(entried := true);
    assert input[1..] == [Typed(Continue(""))] + rest;
    assert ReadCommands(st, e.locs[0].source.filename, input)
        == ReadCommands(st.(table := EMPTY_TABLE), e.locs[0].source.filename, input[1..]);
    assert run.trace[0].resume == Some(ByContinue("")) && run.trace[0].table.bps == map[];
    forall i: nat | 0 < i < |run.trace|
      ensures !run.trace[i].Prompted()
    {
      forall m | 0 < m < |run.trace|
        ensures !HitsAny(run.trace[0].table, run.trace[m].event)
      {
      }
      ContinueStopsAtHit(table, [e] + events, input, 0, i);
    }
  }
}
