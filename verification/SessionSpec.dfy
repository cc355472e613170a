// What whole debug sessions look like, said from the history of a build alone: which events
// prompt, where `continue KEY` stops, what a reload keeps, and how input lines are used up.
module SessionSpec {
  import opened Common
  import opened Text
  import opened Breakpoints
  import opened Session

  // ---- reading a history -----------------------------------------------------

  // How the most recent prompt of this build ended.
  function LastResume(past: seq<Obs>): Option<Resume> {
    if past == [] then None
    else if past[|past| - 1].Prompted() then past[|past| - 1].resume
    else LastResume(past[..|past| - 1])
  }

  // The breakpoints as the most recent prompt of this build left them.
  function CurrentTable(initial: Table, past: seq<Obs>): Table {
    if past == [] then initial
    else if past[|past| - 1].Prompted() then past[|past| - 1].table
    else CurrentTable(initial, past[..|past| - 1])
  }

  ghost predicate SeenLocated(past: seq<Obs>) {
    exists i :: 0 <= i < |past| && past[i].event.locs != []
  }

  function HitsOf(t: Table, e: Event): map<string, seq<Location>> {
    Hits(t.bps, e.status, e.locs)
  }

  // The declarative rule. It mentions neither entried, nor breakEachVertex, nor
  // targetBreakpoint: only the events so far and what the user typed last.
  ghost predicate ShouldPrompt(cfg: Config, initial: Table, past: seq<Obs>, e: Event) {
    && !cfg.disableBreakpoints
    && e.locs != []
    && (|| (cfg.stopOnEntry && !SeenLocated(past))
        || LastResume(past) == Some(ByNext)
        || (var hits := HitsOf(CurrentTable(initial, past), e);
            && hits != map[]
            && match LastResume(past) {
                 case Some(ByContinue(key)) => key != "" ==> key in hits
                 case _ => true
               }))
  }

  // ---- the state is the history ------------------------------------------------

  ghost predicate Corresponds(cfg: Config, initial: Table, past: seq<Obs>, st: St) {
    && st.table == CurrentTable(initial, past)
    && (st.each <==> LastResume(past) == Some(ByNext))
    && st.target == (match LastResume(past) case Some(ByContinue(key)) => key case _ => "")
    && (cfg.stopOnEntry && !cfg.disableBreakpoints ==> (st.entried <==> SeenLocated(past)))
    // nothing is resumed before something was entered; a pending target is still registered
    && (LastResume(past).Some? ==> SeenLocated(past))
    && (st.target != "" ==> st.target in st.table.bps && !st.each)
  }

  // A prompt entered without a target leaves exactly what the last line asked for.
  lemma {:induction false} PromptEffect(st: St, file: string, input: seq<Input>)
    requires st.target == ""
    ensures var p := ReadCommands(st, file, input);
            && p.st.entried == st.entried
            && (p.resume == ByNext ==> p.st.each && p.st.target == "")
            && (p.resume.ByContinue? ==>
                  !p.st.each && p.st.target == p.resume.key && (p.resume.key != "" ==> p.resume.key in p.st.table.bps))
            && (p.resume.Aborted? ==> p.st.target == "" && p.st.each == st.each)
    decreases |input|
  {
    if input == [] || input[0].ReadFails? {
    } else {
      var (st1, resume) := DispatchCommand(st, file, input[0].cmd);
      if resume.None? {
        PromptEffect(st1, file, input[1..]);
      }
    }
  }

  lemma SnocHistory(initial: Table, past: seq<Obs>, o: Obs)
    ensures LastResume(past + [o]) == if o.Prompted() then o.resume else LastResume(past)
    ensures CurrentTable(initial, past + [o]) == if o.Prompted() then o.table else CurrentTable(initial, past)
    ensures SeenLocated(past + [o]) <==> o.event.locs != [] || SeenLocated(past)
  {
    var after := past + [o];
    assert after[..|past|] == past && after[|past|] == o;
    if SeenLocated(past) {
      var i :| 0 <= i < |past| && past[i].event.locs != [];
      assert after[i] == past[i];
    }
    if o.event.locs != [] {
      assert after[|past|].event.locs != [];
    }
  }

  // One event: the code prompts iff the history says so, and the correspondence goes on.
  lemma EventMeetsSpec(cfg: Config, initial: Table, past: seq<Obs>, st: St, e: Event, input: seq<Input>, released: bool)
    requires Corresponds(cfg, initial, past, st)
    ensures var h := HandleEvent(cfg, st, e, input);
            && (h.resume.Some? <==> ShouldPrompt(cfg, initial, past, e))
            && (!(h.resume.Some? && h.resume.value.Aborted?) ==>
                  Corresponds(cfg, initial, past + [Obs(e, h.resume, h.st.table, released)], h.st))
            && (h.resume.Some? && h.resume.value.Aborted? ==> h.st.target == "")
            && (h.resume.None? ==> h.st.table == st.table && h.rest == input)
  {
    var h := HandleEvent(cfg, st, e, input);
    var o := Obs(e, h.resume, h.st.table, released);
    SnocHistory(initial, past, o);
    if h.resume.Some? {
      PromptEffect(st.(entried := true, target := ""), e.locs[0].source.filename, input);
    }
  }

  // ---- whole builds ------------------------------------------------------------

  ghost predicate PromptRule(cfg: Config, initial: Table, trace: seq<Obs>, i: int)
    requires 0 <= i < |trace|
  {
    trace[i].Prompted() <==> ShouldPrompt(cfg, initial, trace[..i], trace[i].event)
  }

  ghost predicate PromptRuleFrom(cfg: Config, initial: Table, trace: seq<Obs>, from: nat) {
    forall i :: from <= i < |trace| ==> PromptRule(cfg, initial, trace, i)
  }

  // Every op is released, except the one whose prompt aborted the build; it is the last one.
  ghost predicate ReleaseRule(trace: seq<Obs>, i: int)
    requires 0 <= i < |trace|
  {
    && (trace[i].released <==> !(trace[i].Prompted() && trace[i].resume.value.Aborted?))
    && (!trace[i].released ==> i == |trace| - 1)
  }

  ghost predicate TraceOf(run: BuildRun, events: seq<Event>) {
    && |run.trace| <= |events|
    && (forall i :: 0 <= i < |run.trace| ==> run.trace[i].event == events[i])
    && (run.stopped.None? <==> forall i :: 0 <= i < |run.trace| ==> run.trace[i].released)
    && (run.stopped.None? ==> |run.trace| == |events|)
    && (run.stopped.Some? ==>
          run.trace != [] && run.trace[|run.trace| - 1].resume == Some(Aborted(run.stopped.value)))
  }

  predicate Aborts(h: EventRun) {
    h.resume.Some? && h.resume.value.Aborted?
  }

  function ObsOf(e: Event, h: EventRun): Obs {
    Obs(e, h.resume, h.st.table, !Aborts(h))
  }

  // The rest of the build after one event; nothing of it happens after an abort.
  function RestOfRun(cfg: Config, h: EventRun, events: seq<Event>): BuildRun {
    if Aborts(h) then BuildRun(h.st, [], h.st, h.rest, Some(h.resume.value.err))
    else RunEvents(cfg, h.st, events, h.rest)
  }

  ghost predicate ConsRun(run: BuildRun, o: Obs, r: BuildRun) {
    run.trace == [o] + r.trace && run.final == r.final && run.rest == r.rest && run.stopped == r.stopped
  }

  lemma UnfoldRun(cfg: Config, st: St, events: seq<Event>, input: seq<Input>)
    requires events != []
    ensures var h := HandleEvent(cfg, st, events[0], input);
            ConsRun(RunEvents(cfg, st, events, input), ObsOf(events[0], h), RestOfRun(cfg, h, events[1..]))
  {
  }

  ghost predicate ShapedLike(run: BuildRun, events: seq<Event>) {
    TraceOf(run, events) && forall i :: 0 <= i < |run.trace| ==> ReleaseRule(run.trace, i)
  }

  lemma ConsShape(run: BuildRun, h: EventRun, r: BuildRun, events: seq<Event>)
    requires events != [] && ConsRun(run, ObsOf(events[0], h), r)
    requires if Aborts(h) then r.trace == [] && r.stopped == Some(h.resume.value.err) else ShapedLike(r, events[1..])
    ensures ShapedLike(run, events)
  {
    var o := ObsOf(events[0], h);
    forall i | 0 <= i < |run.trace|
      ensures run.trace[i].event == events[i] && ReleaseRule(run.trace, i)
      ensures run.stopped.None? ==> run.trace[i].released
    {
      if i > 0 {
        assert run.trace[i] == r.trace[i - 1] && events[i] == events[1..][i - 1];
        assert ReleaseRule(r.trace, i - 1);
      }
    }
    if run.stopped.Some? && !Aborts(h) {
      assert ReleaseRule(r.trace, |r.trace| - 1);
      assert run.trace[|run.trace| - 1] == r.trace[|r.trace| - 1];
    }
  }

  lemma {:induction false} TraceShape(cfg: Config, st: St, events: seq<Event>, input: seq<Input>)
    ensures ShapedLike(RunEvents(cfg, st, events, input), events)
    decreases |events|
  {
    if events == [] {
    } else {
      var h := HandleEvent(cfg, st, events[0], input);
      UnfoldRun(cfg, st, events, input);
      if !Aborts(h) {
        TraceShape(cfg, h.st, events[1..], h.rest);
      }
      ConsShape(RunEvents(cfg, st, events, input), h, RestOfRun(cfg, h, events[1..]), events);
    }
  }

  ghost predicate RunFollowsRules(cfg: Config, initial: Table, past: seq<Obs>, run: BuildRun) {
    && PromptRuleFrom(cfg, initial, past + run.trace, |past|)
    && run.final.table == CurrentTable(initial, past + run.trace)
    && (run.stopped.Some? ==> run.final.target == "")
  }

  lemma ConsFollowsRules(cfg: Config, initial: Table, past: seq<Obs>, run: BuildRun, o: Obs, r: BuildRun)
    requires ConsRun(run, o, r)
    requires o.Prompted() <==> ShouldPrompt(cfg, initial, past, o.event)
    requires r.trace == [] || RunFollowsRules(cfg, initial, past + [o], r)
    requires r.trace == [] ==> r.final.table == CurrentTable(initial, past + [o])
    requires r.trace == [] && r.stopped.Some? ==> r.final.target == ""
    ensures RunFollowsRules(cfg, initial, past, run)
  {
    OneMoreObs(cfg, initial, past, o, r.trace);
    assert past + run.trace == past + [o] + r.trace;
    if r.trace == [] {
      assert past + [o] + r.trace == past + [o];
    }
  }

  lemma {:induction false} RunMeetsSpec(cfg: Config, initial: Table, past: seq<Obs>, st: St, events: seq<Event>,
                                        input: seq<Input>)
    requires Corresponds(cfg, initial, past, st)
    ensures RunFollowsRules(cfg, initial, past, RunEvents(cfg, st, events, input))
    decreases |events|
  {
    var run := RunEvents(cfg, st, events, input);
    if events == [] {
      assert past + run.trace == past;
    } else {
      var h := HandleEvent(cfg, st, events[0], input);
      var o := ObsOf(events[0], h);
      EventMeetsSpec(cfg, initial, past, st, events[0], input, o.released);
      SnocHistory(initial, past, o);
      UnfoldRun(cfg, st, events, input);
      var r := RestOfRun(cfg, h, events[1..]);
      if !Aborts(h) {
        RunMeetsSpec(cfg, initial, past + [o], h.st, events[1..], h.rest);
        assert past + [o] + r.trace == past + [o] || r.trace != [];
      }
      ConsFollowsRules(cfg, initial, past, run, o, r);
    }
  }

  lemma OneMoreObs(cfg: Config, initial: Table, past: seq<Obs>, o: Obs, later: seq<Obs>)
    requires o.Prompted() <==> ShouldPrompt(cfg, initial, past, o.event)
    requires later == [] || PromptRuleFrom(cfg, initial, past + [o] + later, |past| + 1)
    ensures PromptRuleFrom(cfg, initial, past + [o] + later, |past|)
  {
    var trace := past + [o] + later;
    assert trace[..|past|] == past && trace[|past|] == o;
  }

  // Over every list of events and every script, from any breakpoints: an event prompts iff the
  // declarative rule says so, and every event is released except the one whose prompt aborted
  // the build, which is the last one handled.
  lemma BuildRefinesSpec(cfg: Config, table: Table, events: seq<Event>, input: seq<Input>)
    ensures var run := RunEvents(cfg, FreshBuild(table, ""), events, input);
            && TraceOf(run, events)
            && PromptRuleFrom(cfg, table, run.trace, 0)
            && (forall i :: 0 <= i < |run.trace| ==> ReleaseRule(run.trace, i))
            && run.final.table == CurrentTable(table, run.trace)
            && (run.stopped.Some? ==> run.final.target == "")
  {
    TraceShape(cfg, FreshBuild(table, ""), events, input);
    RunMeetsSpec(cfg, table, [], FreshBuild(table, ""), events, input);
    var run := RunEvents(cfg, FreshBuild(table, ""), events, input);
    assert [] + run.trace == run.trace;
  }

  // Events without a location never prompt and are always released.
  lemma UnlocatedPassThrough(cfg: Config, table: Table, events: seq<Event>, input: seq<Input>, i: nat)
    requires i < |RunEvents(cfg, FreshBuild(table, ""), events, input).trace|
    requires RunEvents(cfg, FreshBuild(table, ""), events, input).trace[i].event.locs == []
    ensures var o := RunEvents(cfg, FreshBuild(table, ""), events, input).trace[i];
            !o.Prompted() && o.released
  {
    BuildRefinesSpec(cfg, table, events, input);
    var trace := RunEvents(cfg, FreshBuild(table, ""), events, input).trace;
    assert PromptRule(cfg, table, trace, i) && ReleaseRule(trace, i);
  }

  // ---- continue KEY --------------------------------------------------------------

  ghost predicate Reaches(key: string, t: Table, e: Event) {
    e.locs != [] && key in HitsOf(t, e)
  }

  ghost predicate NoPromptBetween(trace: seq<Obs>, i: nat, j: nat)
    requires i <= j <= |trace|
  {
    forall m :: i < m < j ==> !trace[m].Prompted()
  }

  // Without a prompt in between, the history still ends with that prompt.
  lemma {:induction false} HistorySince(initial: Table, trace: seq<Obs>, i: nat, j: nat)
    requires i < j <= |trace|
    requires trace[i].Prompted() && NoPromptBetween(trace, i, j)
    ensures LastResume(trace[..j]) == trace[i].resume
    ensures CurrentTable(initial, trace[..j]) == trace[i].table
    decreases j
  {
    assert trace[..j][..j - 1] == trace[..j - 1];
    if i == j - 1 {
    } else {
      HistorySince(initial, trace, i, j - 1);
    }
  }

  // After `continue KEY` at prompt i, up to and including the first later event that hits KEY,
  // an event prompts iff it hits KEY: the next prompt is exactly there, if there is one.
  lemma {:induction false} ContinueReachesTarget(table: Table, events: seq<Event>, input: seq<Input>, i: nat, j: nat,
                                                 key: string)
    requires var trace := RunEvents(CLI, FreshBuild(table, ""), events, input).trace;
             && i < j < |trace|
             && trace[i].resume == Some(ByContinue(key)) && key != ""
             && forall m :: i < m < j ==> !Reaches(key, trace[i].table, trace[m].event)
    ensures var trace := RunEvents(CLI, FreshBuild(table, ""), events, input).trace;
            && (trace[j].Prompted() <==> Reaches(key, trace[i].table, trace[j].event))
            && NoPromptBetween(trace, i, j)
            && forall m :: i < m < j ==> trace[m].released
    decreases j
  {
    var trace := RunEvents(CLI, FreshBuild(table, ""), events, input).trace;
    BuildRefinesSpec(CLI, table, events, input);
    forall m: nat | i < m < j
      ensures !trace[m].Prompted()
    {
      ContinueReachesTarget(table, events, input, i, m, key);
    }
    HistorySince(table, trace, i, j);
    assert PromptRule(CLI, table, trace, i) && PromptRule(CLI, table, trace, j);
    assert trace[..j][i] == trace[i];
    forall m: nat | i < m < j
      ensures trace[m].released
    {
      assert ReleaseRule(trace, m);
    }
  }

  // The key of an accepted `continue KEY` is registered at that moment.
  lemma {:induction false} ContinueKeyIsRegistered(cfg: Config, st: St, events: seq<Event>, input: seq<Input>, i: nat)
    requires i < |RunEvents(cfg, st, events, input).trace|
    ensures var o := RunEvents(cfg, st, events, input).trace[i];
            o.resume.Some? && o.resume.value.ByContinue? && o.resume.value.key != "" ==>
              o.resume.value.key in o.table.bps
    decreases i
  {
    var h := HandleEvent(cfg, st, events[0], input);
    if h.resume.Some? {
      PromptEffect(st.(entried := true, target := ""), events[0].locs[0].source.filename, input);
    }
    if i == 0 {
    } else {
      ContinueKeyIsRegistered(cfg, h.st, events[1..], h.rest, i - 1);
    }
  }

  // ---- reload and termination ------------------------------------------------------

  // Every build of a session starts fresh: not entered, not stepping, no pending target, with
  // the breakpoints the previous build was left with, on the input that one left over.
  ghost predicate ChainedAt(builds: seq<BuildRun>, j: int, n: nat, table: Table, input: seq<Input>, env: nat -> Build)
    requires 0 <= j < |builds|
  {
    && builds[j].start == FreshBuild(if j == 0 then table else builds[j - 1].final.table, "")
    && builds[j] == RunEvents(CLI, builds[j].start, env(n + j).events, if j == 0 then input else builds[j - 1].rest)
    && (Restarts(builds[j], env(n + j)) <==> j < |builds| - 1)
  }

  ghost predicate Chained(builds: seq<BuildRun>, n: nat, table: Table, input: seq<Input>, env: nat -> Build) {
    forall j :: 0 <= j < |builds| ==> ChainedAt(builds, j, n, table, input, env)
  }

  // The busy handler never shows up as a result.
  ghost predicate WellRun(s: SessionRun, n: nat, table: Table, input: seq<Input>, env: nat -> Build) {
    && s.builds != []
    && Chained(s.builds, n, table, input, env)
    && !Restarts(s.builds[|s.builds| - 1], env(n + |s.builds| - 1))
    && s.result == Outcome(s.builds[|s.builds| - 1], env(n + |s.builds| - 1))
    && s.rest == s.builds[|s.builds| - 1].rest
  }

  lemma {:induction false} ReloadsStartFresh(n: nat, table: Table, input: seq<Input>, env: nat -> Build)
    ensures WellRun(RunSession(n, Shell(table, "", false), input, env), n, table, input, env)
    decreases |input|
  {
    var run := RunEvents(CLI, FreshBuild(table, ""), env(n).events, input);
    if Restarts(run, env(n)) {
      BuildRefinesSpec(CLI, table, env(n).events, input);
      ReloadsStartFresh(n + 1, run.final.table, run.rest, env);
      PrependBuild(run, RunSession(n + 1, Shell(run.final.table, "", false), run.rest, env), n, table, input, env);
    } else {
      LastBuild(run, n, table, input, env);
    }
  }

  // How builds and sessions end: a build is followed by another one iff its prompt asked for a
  // reload before the build had returned. The last build ends the session: with success if its
  // prompt asked to exit, with the read error if its prompt could not read, and as the build
  // itself returned in all other cases.
  lemma SessionEnds(n: nat, table: Table, input: seq<Input>, env: nat -> Build, j: nat)
    ensures RunSession(n, Shell(table, "", false), input, env).builds != []
    ensures var s := RunSession(n, Shell(table, "", false), input, env);
            j < |s.builds| ==>
              var stopped, build := s.builds[j].stopped, env(n + j);
              && (j + 1 < |s.builds| <==> stopped == Some(ReloadRequested) && !build.early)
              && (j + 1 == |s.builds| ==>
                    s.result == if stopped == Some(ExitRequested) && !build.early then Success
                                else if stopped == Some(ReadFailed) && !build.early then HandlerFailed(ReadFailed)
                                else if build.failure.Some? then BuildFailed(build.failure.value)
                                else Success)
  {
    ReloadsStartFresh(n, table, input, env);
    var s := RunSession(n, Shell(table, "", false), input, env);
    if j < |s.builds| {
      assert ChainedAt(s.builds, j, n, table, input, env);
      OneBuildEnds(s.builds[j], env(n + j));
    }
  }

  lemma OneBuildEnds(run: BuildRun, build: Build)
    ensures Restarts(run, build) <==> run.stopped == Some(ReloadRequested) && !build.early
    ensures !Restarts(run, build) ==>
              Outcome(run, build) ==
              if run.stopped == Some(ExitRequested) && !build.early then Success
              else if run.stopped == Some(ReadFailed) && !build.early then HandlerFailed(ReadFailed)
              else if build.failure.Some? then BuildFailed(build.failure.value)
              else Success
  {
  }

  lemma LastBuild(run: BuildRun, n: nat, table: Table, input: seq<Input>, env: nat -> Build)
    requires run == RunEvents(CLI, FreshBuild(table, ""), env(n).events, input)
    requires !Restarts(run, env(n))
    ensures WellRun(SessionRun([run], Outcome(run, env(n)), run.rest), n, table, input, env)
  {
  }

  lemma PrependBuild(run: BuildRun, tail: SessionRun, n: nat, table: Table, input: seq<Input>, env: nat -> Build)
    requires run == RunEvents(CLI, FreshBuild(table, ""), env(n).events, input)
    requires run.start == FreshBuild(table, "") && Restarts(run, env(n))
    requires WellRun(tail, n + 1, run.final.table, run.rest, env)
    ensures WellRun(SessionRun([run] + tail.builds, tail.result, tail.rest), n, table, input, env)
  {
    var builds := [run] + tail.builds;
    assert builds[|builds| - 1] == tail.builds[|tail.builds| - 1];
    assert n + 1 + |tail.builds| - 1 == n + |builds| - 1;
    forall j | 0 <= j < |builds|
      ensures ChainedAt(builds, j, n, table, input, env)
    {
      if j > 0 {
        assert ChainedAt(tail.builds, j - 1, n + 1, run.final.table, run.rest, env);
        assert builds[j] == tail.builds[j - 1];
        assert n + 1 + (j - 1) == n + j;
        assert builds[j - 1] == if j == 1 then run else tail.builds[j - 2];
      } else {
        assert n + 0 == n;
      }
    }
  }

  // The entry stop survives any number of reloads, whatever `continue KEY` came before them:
  // the first located event of every build prompts.
  lemma EveryBuildStopsOnEntry(n: nat, table: Table, input: seq<Input>, env: nat -> Build, j: nat, i: nat)
    requires var s := RunSession(n, Shell(table, "", false), input, env);
             && j < |s.builds| && i < |s.builds[j].trace|
             && s.builds[j].trace[i].event.locs != []
             && forall m :: 0 <= m < i ==> s.builds[j].trace[m].event.locs == []
    ensures RunSession(n, Shell(table, "", false), input, env).builds[j].trace[i].Prompted()
  {
    ReloadsStartFresh(n, table, input, env);
    var builds := RunSession(n, Shell(table, "", false), input, env).builds;
    assert ChainedAt(builds, j, n, table, input, env);
    var t := builds[j].start.table;
    BuildRefinesSpec(CLI, t, env(n + j).events, if j == 0 then input else builds[j - 1].rest);
    assert PromptRule(CLI, t, builds[j].trace, i);
  }

  // ---- accounting for input lines -----------------------------------------------------

  function Reloads(input: seq<Input>): nat {
    if input == [] then 0 else (if input[0] == Typed(Reload) then 1 else 0) + Reloads(input[1..])
  }

  // input is what was read followed by rest; `reloads` of the lines read were reload.
  ghost predicate Consumed(input: seq<Input>, rest: seq<Input>, reloads: nat) {
    && |rest| <= |input|
    && input[|input| - |rest|..] == rest
    && Reloads(input) == reloads + Reloads(rest)
  }

  lemma ConsumedTransitive(a: seq<Input>, b: seq<Input>, c: seq<Input>, m: nat, n: nat)
    requires Consumed(a, b, m) && Consumed(b, c, n)
    ensures Consumed(a, c, m + n)
  {
  }

  lemma {:induction false} PromptConsumes(st: St, file: string, input: seq<Input>)
    ensures var p := ReadCommands(st, file, input);
            Consumed(input, p.rest, if p.resume == Aborted(ReloadRequested) then 1 else 0)
            && (p.resume != Aborted(ExitRequested) ==> |p.rest| < |input|)
    decreases |input|
  {
    if input == [] || input[0].ReadFails? {
    } else {
      var (st1, resume) := DispatchCommand(st, file, input[0].cmd);
      assert Consumed(input, input[1..], if resume == Some(Aborted(ReloadRequested)) then 1 else 0);
      if resume.None? {
        PromptConsumes(st1, file, input[1..]);
        var p := ReadCommands(st1, file, input[1..]);
        ConsumedTransitive(input, input[1..], p.rest, 0, if p.resume == Aborted(ReloadRequested) then 1 else 0);
      }
    }
  }

  lemma {:induction false} EventsConsume(cfg: Config, st: St, events: seq<Event>, input: seq<Input>)
    ensures var run := RunEvents(cfg, st, events, input);
            Consumed(input, run.rest, if run.stopped == Some(ReloadRequested) then 1 else 0)
    decreases |events|
  {
    if events == [] {
    } else {
      var e := events[0];
      var h := HandleEvent(cfg, st, e, input);
      if h.resume.Some? {
        PromptConsumes(st.(entried := true, target := ""), e.locs[0].source.filename, input);
      }
      if !(h.resume.Some? && h.resume.value.Aborted?) {
        EventsConsume(cfg, h.st, events[1..], h.rest);
        var r := RunEvents(cfg, h.st, events[1..], h.rest);
        ConsumedTransitive(input, h.rest, r.rest, 0, if r.stopped == Some(ReloadRequested) then 1 else 0);
      }
    }
  }

  // A reload that came too late: the build had returned before.
  function LateReload(last: BuildRun): nat {
    if last.stopped == Some(ReloadRequested) then 1 else 0
  }

  // Every session ends, on a prefix of its input: each reload line it read restarted the build,
  // except one that came after the last build had returned. (That it ends is the lexicographic
  // recursion of RunSession and RunEvents.)
  lemma SessionAccounting(n: nat, table: Table, input: seq<Input>, env: nat -> Build)
    ensures var s := RunSession(n, Shell(table, "", false), input, env);
            && Accounted(s, input)
            && (LateReload(s.builds[|s.builds| - 1]) > 0 ==> env(n + |s.builds| - 1).early)
  {
    ReloadsAccount(n, table, input, env);
    SessionEnds(n, table, input, env, |RunSession(n, Shell(table, "", false), input, env).builds| - 1);
  }

  lemma {:induction false} ReloadsAccount(n: nat, table: Table, input: seq<Input>, env: nat -> Build)
    ensures Accounted(RunSession(n, Shell(table, "", false), input, env), input)
    decreases |input|
  {
    var run := RunEvents(CLI, FreshBuild(table, ""), env(n).events, input);
    EventsConsume(CLI, FreshBuild(table, ""), env(n).events, input);
    if !Restarts(run, env(n)) {
    } else {
      BuildRefinesSpec(CLI, table, env(n).events, input);
      ReloadsAccount(n + 1, run.final.table, run.rest, env);
      PrependAccount(run, RunSession(n + 1, Shell(run.final.table, "", false), run.rest, env), input);
    }
  }

  ghost predicate Accounted(s: SessionRun, input: seq<Input>) {
    |s.builds| >= 1 && Consumed(input, s.rest, |s.builds| - 1 + LateReload(s.builds[|s.builds| - 1]))
  }

  lemma PrependAccount(run: BuildRun, tail: SessionRun, input: seq<Input>)
    requires Consumed(input, run.rest, 1) && Accounted(tail, run.rest)
    ensures Accounted(SessionRun([run] + tail.builds, tail.result, tail.rest), input)
  {
    var reloads := |tail.builds| - 1 + LateReload(tail.builds[|tail.builds| - 1]);
    ConsumedTransitive(input, run.rest, tail.rest, 1, reloads);
    assert ([run] + tail.builds)[|tail.builds|] == tail.builds[|tail.builds| - 1];
  }

  // ---- the break and clear commands over whole sessions -------------------------------

  // `break NUMBER` always gets a fresh key; the key then hits exactly the events that cover
  // that line of the file shown at the prompt, and `clear` of that key undoes it.
  lemma BreakThenHit(st: St, file: string, arg: string, line: int, e: Event)
    requires KeysBelowIndex(st.table)
    requires arg != ON_FAIL && ParseInt(arg) == Some(line)
    ensures var t := DispatchCommand(st, file, Break(arg)).0.table;
            var key := Decimal(st.table.index);
            && key !in st.table.bps
            && t.bps == st.table.bps[key := Line(file, line)]
            && (key in HitsOf(t, e) <==> exists i, j :: CoveredAt(file, line, e.locs, i, j))
            && (forall k :: k != key ==> (k in HitsOf(t, e) <==> k in HitsOf(st.table, e)))
            && DispatchCommand(st.(table := t), file, Clear(key)).0.table.bps == st.table.bps
  {
    NextKeyIsNew(st.table.index);
    var t := DispatchCommand(st, file, Break(arg)).0.table;
    var key := Decimal(st.table.index);
    LineTargetIffCovered(file, line, e.status, e.locs);
    assert TableClear(t, key).bps == st.table.bps;
  }

  lemma {:induction false} PromptKeepsKeys(st: St, file: string, input: seq<Input>)
    requires KeysBelowIndex(st.table)
    ensures KeysBelowIndex(ReadCommands(st, file, input).st.table)
    decreases |input|
  {
    if input == [] || input[0].ReadFails? {
    } else {
      var (st1, resume) := DispatchCommand(st, file, input[0].cmd);
      NextKeyIsNew(st.table.index);
      if resume.None? {
        PromptKeepsKeys(st1, file, input[1..]);
      }
    }
  }

  lemma {:induction false} EventsKeepKeys(cfg: Config, st: St, events: seq<Event>, input: seq<Input>)
    requires KeysBelowIndex(st.table)
    ensures var run := RunEvents(cfg, st, events, input);
            KeysBelowIndex(run.final.table) && forall i :: 0 <= i < |run.trace| ==> KeysBelowIndex(run.trace[i].table)
    decreases |events|
  {
    if events == [] {
    } else {
      var h := HandleEvent(cfg, st, events[0], input);
      if h.resume.Some? {
        PromptKeepsKeys(st.(entried := true, target := ""), events[0].locs[0].source.filename, input);
      }
      UnfoldRun(cfg, st, events, input);
      if !Aborts(h) {
        EventsKeepKeys(cfg, h.st, events[1..], h.rest);
      }
    }
  }

  // At every point of every session all keys are on-fail or automatic keys already passed, so
  // no `break NUMBER` ever fails.
  lemma {:induction false} SessionKeepsKeys(n: nat, table: Table, input: seq<Input>, env: nat -> Build, j: nat)
    requires KeysBelowIndex(table)
    requires j < |RunSession(n, Shell(table, "", false), input, env).builds|
    ensures var b := RunSession(n, Shell(table, "", false), input, env).builds[j];
            && KeysBelowIndex(b.start.table)
            && KeysBelowIndex(b.final.table)
            && forall i :: 0 <= i < |b.trace| ==> KeysBelowIndex(b.trace[i].table)
    decreases j
  {
    ReloadsStartFresh(n, table, input, env);
    var builds := RunSession(n, Shell(table, "", false), input, env).builds;
    assert ChainedAt(builds, j, n, table, input, env);
    if j == 0 {
    } else {
      SessionKeepsKeys(n, table, input, env, j - 1);
    }
    EventsKeepKeys(CLI, builds[j].start, env(n + j).events, if j == 0 then input else builds[j - 1].rest);
  }

  // ---- within one prompt -----------------------------------------------------------------

  // The state after some commands that keep the prompt.
  function AfterCommands(st: St, file: string, cmds: seq<Command>): St
    decreases |cmds|
  {
    if cmds == [] then st else AfterCommands(DispatchCommand(st, file, cmds[0]).0, file, cmds[1..])
  }

  predicate KeepPrompt(st: St, file: string, cmds: seq<Command>)
    decreases |cmds|
  {
    cmds == [] ||
    (DispatchCommand(st, file, cmds[0]).1.None? && KeepPrompt(DispatchCommand(st, file, cmds[0]).0, file, cmds[1..]))
  }

  function TypedLines(cmds: seq<Command>): seq<Input> {
    seq(|cmds|, i requires 0 <= i < |cmds| => Typed(cmds[i]))
  }

  // Commands that keep the prompt are read one by one, and the prompt goes on from there; every
  // state in between has all its automatic keys below the index.
  lemma {:induction false} PromptGoesOn(st: St, file: string, cmds: seq<Command>, rest: seq<Input>)
    requires KeepPrompt(st, file, cmds)
    ensures ReadCommands(st, file, TypedLines(cmds) + rest) == ReadCommands(AfterCommands(st, file, cmds), file, rest)
    ensures KeysBelowIndex(st.table) ==> KeysBelowIndex(AfterCommands(st, file, cmds).table)
    decreases |cmds|
  {
    if cmds == [] {
      assert TypedLines(cmds) + rest == rest;
    } else {
      NextKeyIsNew(st.table.index);
      PromptGoesOn(DispatchCommand(st, file, cmds[0]).0, file, cmds[1..], rest);
      assert (TypedLines(cmds) + rest)[1..] == TypedLines(cmds[1..]) + rest;
    }
  }

  // The breakpoints event i of a build meets.
  function TableBefore(b: BuildRun, i: nat): Table
    requires i <= |b.trace|
  {
    if i == 0 then b.start.table else b.trace[i - 1].table
  }

  // No `break NUMBER` ever fails: at any event of any session, after any commands typed at its
  // prompt, the next automatic key is free.
  lemma BreakNeverFails(n: nat, table: Table, input: seq<Input>, env: nat -> Build, j: nat, i: nat,
                        st: St, file: string, cmds: seq<Command>, bp: Breakpoint)
    requires KeysBelowIndex(table)
    requires j < |RunSession(n, Shell(table, "", false), input, env).builds|
    requires i <= |RunSession(n, Shell(table, "", false), input, env).builds[j].trace|
    requires st.table == TableBefore(RunSession(n, Shell(table, "", false), input, env).builds[j], i)
    requires KeepPrompt(st, file, cmds)
    ensures TableAdd(AfterCommands(st, file, cmds).table, "", bp).1.Ok?
  {
    SessionKeepsKeys(n, table, input, env, j);
    PromptGoesOn(st, file, cmds, []);
    NextKeyIsNew(AfterCommands(st, file, cmds).table.index);
  }
}
