// The channel handshakes of the DAP front end: launch, the stop of breakHandler on stoppedCh,
// the resume requests on mesCh, and the forwarder that turns stops into StoppedEvents. Client
// requests arrive at any moment; SetBreakpoints is one atomic step. The guard of launch and the
// assignment it protects are one step here; Launches.dfy takes them apart and says when that is
// the same.
module Handshake {
  import opened Common
  import opened Text
  import opened Breakpoints
  import opened Session
  import opened Dap

  type Request = nat

  datatype Message =
    | ThreadStarted
    | LaunchResponse
    | LaunchError(q: Request)
    | ResumeResponse(q: Request)
    | Stopped(ids: set<int>)

  datatype LaunchPhase =
    | NotLaunched
    | Configured    // the guard passed and the configuration is stored
    | Announced     // thread-started is sent, startedCh closed, the build may run
    | Answered      // LaunchResponse is sent, the forwarder runs

  datatype HandlerPhase =
    | Idle
    | Offering(ids: set<int>)   // blocked on sending to stoppedCh
    | Storing                   // sent, bCtx not assigned yet
    | Waiting                   // blocked on mesCh

  datatype ForwarderPhase = Off | Receiving | Sending(ids: set<int>)

  // A continue or next request.
  datatype ResumePhase = Asked(next: bool) | Ignored | Offered | Consumed

  // The last SetBreakpoints request.
  datatype Requested = Requested(name: string, lines: seq<int>)

  datatype Stop = Stop(event: Event, req: Requested, ids: set<int>)

  // stops, taken, resumed, accepted and since are history: the stops breakHandler was called for,
  // those received from stoppedCh, the requests consumed from mesCh, for every request that
  // passed its check whether it was a next, and how many stops had been received by then.
  datatype State = State(
    cfg: Config,
    launch: LaunchPhase,
    handler: HandlerPhase,
    forwarder: ForwarderPhase,
    hasBCtx: bool,
    resumes: map<Request, ResumePhase>,
    table: Table,
    req: Requested,
    entried: bool,
    each: bool,
    out: seq<Message>,
    stops: seq<Stop>,
    taken: seq<set<int>>,
    resumed: seq<Request>,
    accepted: seq<bool>,
    since: map<Request, nat>)

  const INIT := State(
    Config(false, false), NotLaunched, Idle, Off, false, map[], INITIAL_TABLE, Requested("", []), false, false,
    [], [], [], [], [], map[])

  datatype Step =
    // launch: accepted or answered with an error
    | Launch(q: Request, valid: bool, cfg: Config)
    | Announce
    | Answer
    // the build and breakHandler
    | OpFinished(e: Event)
    | TakeStop
    | StoreCtx
    | TakeResume(q: Request)
    // the forwarder
    | SendStopped
    // client requests
    | AskResume(q: Request, next: bool)
    | CheckCtx(q: Request)
    | SetBreakpoints(name: string, lines: seq<int>, table: Table)

  // None when the step is not enabled.
  function Next(s: State, step: Step): Option<State> {
    match step
    case Launch(q, valid, cfg) =>
      if s.launch.NotLaunched? && valid then Some(s.(launch := Configured, cfg := cfg))
      else Some(s.(out := s.out + [LaunchError(q)]))
    case Announce =>
      if !s.launch.Configured? then None
      else Some(s.(launch := Announced, out := s.out + [ThreadStarted]))
    case Answer =>
      if !s.launch.Announced? then None
      else Some(s.(launch := Answered, forwarder := Receiving, out := s.out + [LaunchResponse]))
    case OpFinished(e) =>
      if !(s.handler.Idle? && (s.launch.Announced? || s.launch.Answered?)) then None
      else
        var hits := Hits(s.table.bps, e.status, e.locs);
        if e.locs == [] || !Stops(s.cfg, St(s.table, s.entried, s.each, ""), hits) then Some(s)
        else Some(s.(entried := true, handler := Offering(HitIdSet(hits)),
                     stops := s.stops + [Stop(e, s.req, HitIdSet(hits))]))
    case TakeStop =>
      if !(s.handler.Offering? && s.forwarder.Receiving?) then None
      else Some(s.(handler := Storing, forwarder := Sending(s.handler.ids), taken := s.taken + [s.handler.ids]))
    case StoreCtx =>
      if !s.handler.Storing? then None else Some(s.(handler := Waiting, hasBCtx := true))
    case TakeResume(q) =>
      if !(s.handler.Waiting? && q in s.resumes && s.resumes[q].Offered?) then None
      else Some(s.(handler := Idle, resumes := s.resumes[q := Consumed], resumed := s.resumed + [q]))
    case SendStopped =>
      if !s.forwarder.Sending? then None
      else Some(s.(forwarder := Receiving, out := s.out + [Stopped(s.forwarder.ids)]))
    case AskResume(q, next) =>
      if q in s.resumes then None
      else Some(s.(resumes := s.resumes[q := Asked(next)], out := s.out + [ResumeResponse(q)]))
    case CheckCtx(q) =>
      if !(q in s.resumes && s.resumes[q].Asked?) then None
      else if !s.hasBCtx then Some(s.(resumes := s.resumes[q := Ignored]))
      else Some(s.(resumes := s.resumes[q := Offered], each := s.resumes[q].next,
                   accepted := s.accepted + [s.resumes[q].next], since := s.since[q := |s.taken|]))
    case SetBreakpoints(name, lines, table) =>
      Some(s.(table := table, req := Requested(name, lines)))
  }

  // SetBreakpoints leaves the registry OnSetBreakpoints leaves.
  ghost predicate Legal(step: Step) {
    step.SetBreakpoints? ==> HoldsRequest(step.table, step.name, step.lines) && |step.lines| <= INT64_LIMIT
  }

  ghost predicate AllLegal(steps: seq<Step>) {
    forall i :: 0 <= i < |steps| ==> Legal(steps[i])
  }

  function Run(s: State, steps: seq<Step>): Option<State>
    decreases |steps|
  {
    if steps == [] then Some(s)
    else
      var t := Next(s, steps[0]);
      if t.None? then None else Run(t.value, steps[1..])
  }

  lemma {:induction false} RunAppend(s: State, a: seq<Step>, b: seq<Step>)
    requires Run(s, a).Some?
    ensures Run(s, a + b) == Run(Run(s, a).value, b)
    decreases |a|
  {
    if a == [] {
      assert a + b == b;
    } else {
      RunAppend(Next(s, a[0]).value, a[1..], b);
      assert (a + b)[1..] == a[1..] + b;
    }
  }

  // ---- the handshake ---------------------------------------------------------------

  function Taken(h: HandlerPhase): nat {
    if h.Storing? || h.Waiting? then 1 else 0
  }

  // Stops and resumes keep in step.
  ghost predicate CountsOk(s: State) {
    && |s.taken| == |s.resumed| + Taken(s.handler)
    && |s.stops| == |s.taken| + (if s.handler.Offering? then 1 else 0)
    && (forall i :: 0 <= i < |s.taken| ==> s.taken[i] == s.stops[i].ids)
    && (s.handler.Offering? ==> s.stops[|s.stops| - 1].ids == s.handler.ids)
    && (s.hasBCtx <==> |s.taken| > 1 || (|s.taken| == 1 && !s.handler.Storing?))
    && (!s.handler.Idle? || |s.taken| > 0 ==> s.launch.Announced? || s.launch.Answered?)
  }

  // A message is offered only after a stop, and consumed at most once.
  ghost predicate ResumesOk(s: State) {
    && (forall q :: q in s.resumes && (s.resumes[q].Offered? || s.resumes[q].Consumed?) ==> s.hasBCtx)
    && (forall q :: q in s.resumed <==> q in s.resumes && s.resumes[q].Consumed?)
    && (forall i, j :: 0 <= i < j < |s.resumed| ==> s.resumed[i] != s.resumed[j])
  }

  // Accepted requests that no stop has consumed yet.
  function Pending(s: State): set<Request> {
    set q | q in s.resumes && s.resumes[q].Offered?
  }

  predicate Accepted(s: State, q: Request) {
    q in s.resumes && (s.resumes[q].Offered? || s.resumes[q].Consumed?)
  }

  ghost predicate SinceOk(s: State) {
    && (forall q :: q in s.since <==> Accepted(s, q))
    && (forall q :: q in s.since ==> s.since[q] <= |s.taken|)
  }

  ghost predicate PendingOk(s: State) {
    |s.accepted| == |s.resumed| + |Pending(s)|
  }

  // The ids of the StoppedEvents, in the order sent.
  function Reported(out: seq<Message>): seq<set<int>> {
    if out == [] then []
    else
      var m := out[|out| - 1];
      Reported(out[..|out| - 1]) + if m.Stopped? then [m.ids] else []
  }

  // Every stop taken is reported once, in order; at most the last one is still on its way.
  ghost predicate ForwarderOk(s: State) {
    && InTransit(s, Reported(s.out))
    && (s.forwarder.Off? <==> !s.launch.Answered?)
  }

  predicate InTransit(s: State, reported: seq<set<int>>) {
    s.taken == reported + (if s.forwarder.Sending? then [s.forwarder.ids] else [])
  }

  ghost predicate OutOrdered(out: seq<Message>) {
    forall k :: 0 <= k < |out| ==>
      && (out[k].ThreadStarted? ==> ThreadStarted !in out[..k])
      && (out[k].LaunchResponse? ==> ThreadStarted in out[..k] && LaunchResponse !in out[..k])
      && (out[k].Stopped? ==> LaunchResponse in out[..k])
  }

  ghost predicate OutOk(s: State) {
    && OutOrdered(s.out)
    && (ThreadStarted in s.out <==> s.launch.Announced? || s.launch.Answered?)
    && (LaunchResponse in s.out <==> s.launch.Answered?)
  }

  // The registry is that of the last request, and every stop has the ids of its own request.
  ghost predicate IdsOk(s: State) {
    && HoldsRequest(s.table, s.req.name, s.req.lines) && |s.req.lines| <= INT64_LIMIT
    && (forall i :: 0 <= i < |s.stops| ==> ExactIds(s.stops[i]))
  }

  ghost predicate ExactIds(stop: Stop) {
    stop.ids == set i | 0 <= i < |stop.req.lines| && LineHit(
                          stop.req.name, stop.req.lines, stop.event.status, stop.event.locs, i)
  }

  // The handler's flags are the history of stops and accepted requests.
  ghost predicate FlagsOk(s: State) {
    && (s.entried <==> s.stops != [])
    && (s.each <==> s.accepted != [] && s.accepted[|s.accepted| - 1])
    && (s.stops != [] ==> !s.cfg.disableBreakpoints && !s.launch.NotLaunched?)
    && (s.taken != [] ==> s.launch.Answered?)
  }

  ghost predicate Inv(s: State) {
    CountsOk(s) && ResumesOk(s) && ForwarderOk(s) && OutOk(s) && IdsOk(s) && FlagsOk(s) && SinceOk(s) && PendingOk(s)
  }

  lemma StepKeepsFlags(s: State, step: Step, t: State)
    requires FlagsOk(s) && ForwarderOk(s) && Next(s, step) == Some(t)
    ensures FlagsOk(t)
  {
  }

  // Only accepting and consuming a request change which ones are pending.
  function PendingAfter(s: State, step: Step): set<Request> {
    match step
    case CheckCtx(q) => if s.hasBCtx then Pending(s) + {q} else Pending(s)
    case TakeResume(q) => Pending(s) - {q}
    case _ => Pending(s)
  }

  lemma StepPending(s: State, step: Step, t: State)
    requires Next(s, step) == Some(t)
    ensures Pending(t) == PendingAfter(s, step)
    ensures step.TakeResume? ==> step.q in Pending(s)
    ensures step.CheckCtx? ==> step.q !in Pending(s)
  {
  }

  lemma StepKeepsSince(s: State, step: Step, t: State)
    requires SinceOk(s) && Next(s, step) == Some(t)
    ensures SinceOk(t)
  {
    if step.TakeResume? || step.AskResume? || step.CheckCtx? {
      assert t.taken == s.taken;
    } else {
      assert t.since == s.since && t.resumes == s.resumes && |t.taken| >= |s.taken|;
      assert forall q :: Accepted(t, q) <==> Accepted(s, q);
    }
  }

  lemma StepKeepsPending(s: State, step: Step, t: State)
    requires PendingOk(s) && Next(s, step) == Some(t)
    ensures PendingOk(t)
  {
    StepPending(s, step, t);
    if step.CheckCtx? {
      assert s.hasBCtx ==> |Pending(t)| == |Pending(s)| + 1;
    } else if step.TakeResume? {
      assert |Pending(t)| == |Pending(s)| - 1;
    } else {
      assert t.accepted == s.accepted && t.resumed == s.resumed;
    }
  }

  lemma StepKeepsCounts(s: State, step: Step, t: State)
    requires CountsOk(s) && Next(s, step) == Some(t)
    requires s.launch.NotLaunched? || s.launch.Configured? ==> s.forwarder.Off?
    ensures CountsOk(t)
  {
    if step.OpFinished? || step.TakeStop? {
    } else {
      assert t.stops == s.stops && t.taken == s.taken;
    }
  }

  lemma StepKeepsResumes(s: State, step: Step, t: State)
    requires ResumesOk(s) && Next(s, step) == Some(t)
    ensures ResumesOk(t)
  {
    if step.TakeResume? {
      assert step.q !in s.resumed;
      assert forall q :: q in t.resumed <==> q in s.resumed || q == step.q;
    } else if step.AskResume? || step.CheckCtx? {
      assert t.resumed == s.resumed;
    } else {
      assert t.resumed == s.resumed && t.resumes == s.resumes;
    }
  }

  lemma ReportedSnoc(out: seq<Message>, m: Message)
    ensures Reported(out + [m]) == Reported(out) + if m.Stopped? then [m.ids] else []
  {
  }

  function NewlyReported(s: State, step: Step): seq<set<int>> {
    if step.SendStopped? && s.forwarder.Sending? then [s.forwarder.ids] else []
  }

  lemma StepReports(s: State, step: Step, t: State)
    requires Next(s, step) == Some(t)
    ensures Reported(t.out) == Reported(s.out) + NewlyReported(s, step)
  {
    match step {
      case Launch(q, _, _) => ReportedSnoc(s.out, LaunchError(q));
      case Announce => ReportedSnoc(s.out, ThreadStarted);
      case Answer => ReportedSnoc(s.out, LaunchResponse);
      case AskResume(q, _) => ReportedSnoc(s.out, ResumeResponse(q));
      case SendStopped => ReportedSnoc(s.out, Stopped(s.forwarder.ids));
      case _ => assert t.out == s.out;
    }
  }

  lemma StepForwards(s: State, step: Step, t: State, reported: seq<set<int>>)
    requires Next(s, step) == Some(t) && InTransit(s, reported)
    requires s.forwarder.Off? <==> !s.launch.Answered?
    ensures InTransit(t, reported + NewlyReported(s, step))
    ensures t.forwarder.Off? <==> !t.launch.Answered?
  {
  }

  lemma StepKeepsForwarder(s: State, step: Step, t: State)
    requires ForwarderOk(s) && Next(s, step) == Some(t)
    ensures ForwarderOk(t)
  {
    StepReports(s, step, t);
    StepForwards(s, step, t, Reported(s.out));
  }

  lemma OutSnoc(out: seq<Message>, m: Message)
    requires OutOrdered(out)
    requires m.ThreadStarted? ==> ThreadStarted !in out
    requires m.LaunchResponse? ==> ThreadStarted in out && LaunchResponse !in out
    requires m.Stopped? ==> LaunchResponse in out
    ensures OutOrdered(out + [m])
    ensures forall x :: x in out + [m] <==> x in out || x == m
  {
    var after := out + [m];
    assert after[..|out|] == out;
    forall k | 0 <= k < |out|
      ensures after[..k] == out[..k] && after[k] == out[k]
    {
    }
  }

  lemma StepKeepsOut(s: State, step: Step, t: State)
    requires OutOk(s) && ForwarderOk(s) && Next(s, step) == Some(t)
    ensures OutOk(t)
  {
    match step {
      case Launch(q, _, _) => OutSnoc(s.out, LaunchError(q));
      case Announce => OutSnoc(s.out, ThreadStarted);
      case Answer => OutSnoc(s.out, LaunchResponse);
      case AskResume(q, _) => OutSnoc(s.out, ResumeResponse(q));
      case SendStopped => OutSnoc(s.out, Stopped(s.forwarder.ids));
      case _ =>
    }
  }

  lemma StepKeepsIds(s: State, step: Step, t: State)
    requires IdsOk(s) && Legal(step) && Next(s, step) == Some(t)
    ensures IdsOk(t)
  {
    if step.OpFinished? {
      HitIdsAreIndices(s.table, s.req.name, s.req.lines, step.e.status, step.e.locs);
    }
  }

  lemma StepKeepsInv(s: State, step: Step, t: State)
    requires Inv(s) && Legal(step) && Next(s, step) == Some(t)
    ensures Inv(t)
  {
    StepKeepsCounts(s, step, t);
    StepKeepsResumes(s, step, t);
    StepKeepsForwarder(s, step, t);
    StepKeepsOut(s, step, t);
    StepKeepsIds(s, step, t);
    StepKeepsFlags(s, step, t);
    StepKeepsSince(s, step, t);
    StepKeepsPending(s, step, t);
  }

  lemma {:induction false} RunKeepsInv(s: State, steps: seq<Step>)
    requires Inv(s) && AllLegal(steps) && Run(s, steps).Some?
    ensures Inv(Run(s, steps).value)
    decreases |steps|
  {
    if steps == [] {
    } else {
      StepKeepsInv(s, steps[0], Next(s, steps[0]).value);
      RunKeepsInv(Next(s, steps[0]).value, steps[1..]);
    }
  }

  lemma InitOk()
    ensures Inv(INIT)
  {
  }

  // In every run stops and consumed resume messages differ by at most one; no message is
  // offered before the first stop; every breakHandler call consumes one message, of its own.
  lemma ResumesMatchStops(steps: seq<Step>)
    requires AllLegal(steps) && Run(INIT, steps).Some?
    ensures var s := Run(INIT, steps).value;
            && 0 <= |s.taken| - |s.resumed| <= 1
            && (|s.taken| == |s.resumed| <==> s.handler.Idle? || s.handler.Offering?)
            && (s.handler.Idle? ==> |s.stops| == |s.resumed|)
            && (forall q :: q in s.resumes && (s.resumes[q].Offered? || s.resumes[q].Consumed?) ==> |s.taken| > 0)
            && (forall q :: q in s.resumed <==> q in s.resumes && s.resumes[q].Consumed?)
            && (forall i, j :: 0 <= i < j < |s.resumed| ==> s.resumed[i] != s.resumed[j])
  {
    InitOk();
    RunKeepsInv(INIT, steps);
  }

  // thread-started comes once at most and precedes LaunchResponse, which comes once at most and
  // precedes every StoppedEvent.
  ghost predicate LaunchOrdered(out: seq<Message>) {
    && (forall i, j :: 0 <= i < j < |out| && out[i].ThreadStarted? ==> !out[j].ThreadStarted?)
    && (forall i, j :: 0 <= i < j < |out| && out[i].LaunchResponse? ==> !out[j].LaunchResponse?)
    && (forall j :: 0 <= j < |out| && out[j].LaunchResponse? ==> exists i :: 0 <= i < j && out[i].ThreadStarted?)
    && (forall k :: 0 <= k < |out| && out[k].Stopped? ==> exists j :: 0 <= j < k && out[j].LaunchResponse?)
  }

  // Every run sends its messages in that order, and has sent those its launch has come to.
  lemma LaunchOrder(steps: seq<Step>)
    requires AllLegal(steps) && Run(INIT, steps).Some?
    ensures var s := Run(INIT, steps).value;
            && LaunchOrdered(s.out)
            && (ThreadStarted in s.out <==> s.launch.Announced? || s.launch.Answered?)
            && (LaunchResponse in s.out <==> s.launch.Answered?)
  {
    InitOk();
    RunKeepsInv(INIT, steps);
    OrderedOutput(Run(INIT, steps).value.out);
  }

  lemma OrderedOutput(out: seq<Message>)
    requires OutOrdered(out)
    ensures LaunchOrdered(out)
  {
    forall i, j | 0 <= i < j < |out|
      ensures out[i] == out[..j][i]
      ensures out[i].ThreadStarted? ==> !out[j].ThreadStarted?
      ensures out[i].LaunchResponse? ==> !out[j].LaunchResponse?
    {
      assert out[..j][i] in out[..j];
    }
    forall j | 0 <= j < |out| && out[j].LaunchResponse?
      ensures exists i :: 0 <= i < j && out[i].ThreadStarted?
    {
      var i :| 0 <= i < j && out[..j][i] == ThreadStarted;
      assert out[i].ThreadStarted?;
    }
    forall k | 0 <= k < |out| && out[k].Stopped?
      ensures exists j :: 0 <= j < k && out[j].LaunchResponse?
    {
      var j :| 0 <= j < k && out[..k][j] == LaunchResponse;
      assert out[j].LaunchResponse?;
    }
  }

  // The client sees every stop once and in order (the last may still be on its way), and the
  // ids of each are exactly the request indices of the lines that event hit.
  lemma StopsReportedWithIds(steps: seq<Step>, i: nat)
    requires AllLegal(steps) && Run(INIT, steps).Some?
    requires i < |Reported(Run(INIT, steps).value.out)|
    ensures var s := Run(INIT, steps).value;
            && |Reported(s.out)| <= |s.stops| <= |Reported(s.out)| + 2
            && Reported(s.out)[i] == s.stops[i].ids
            && ExactIds(s.stops[i])
  {
    InitOk();
    RunKeepsInv(INIT, steps);
    var s := Run(INIT, steps).value;
    assert s.taken[i] == Reported(s.out)[i];
  }
}
