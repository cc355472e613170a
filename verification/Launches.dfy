// Launch requests that overlap. Every request runs on its own, and the guard that admits a
// single session is checked some time before the configuration it checks is stored. This is
// the handshake with any number of launches in flight; when no second one passes the guard
// before the first is stored it is exactly the handshake of one session.
module Launches {
  import opened Common
  import opened Breakpoints
  import opened Dap
  import Text
  import Session
  import H = Handshake
  import HR = HandshakeRuns

  type Request = H.Request

  datatype LanePhase =
    | Passed      // the guard has been passed
    | Stored      // the configuration is stored
    | Announced   // thread-started is sent
    | Answered    // LaunchResponse is sent, a forwarder runs

  // A launch request that passed the guard: its build, its handler and its forwarder.
  datatype Lane = Lane(
    phase: LanePhase,
    cfg: Session.Config,
    handler: H.HandlerPhase,
    forwarder: H.ForwarderPhase,
    entried: bool,
    each: bool)

  // bCtx is the lane of the last stop; the other fields are those of the handshake.
  datatype State = State(
    lConfigSet: bool,
    lanes: map<Request, Lane>,
    bCtx: Option<Request>,
    resumes: map<Request, H.ResumePhase>,
    table: Table,
    req: H.Requested,
    out: seq<H.Message>,
    stops: seq<H.Stop>,
    taken: seq<set<int>>,
    resumed: seq<Request>,
    accepted: seq<bool>,
    since: map<Request, nat>)

  const INIT := State(false, map[], None, map[], INITIAL_TABLE, H.Requested("", []), [], [], [], [], [], map[])

  datatype Step =
    | Check(q: Request, valid: bool, cfg: Session.Config)
    | Store(q: Request)
    | Announce(q: Request)
    | Answer(q: Request)
    | OpFinished(q: Request, e: Session.Event)
    | TakeStop(q: Request, f: Request)
    | StoreCtx(q: Request)
    | TakeResume(q: Request, r: Request)
    | SendStopped(f: Request)
    | AskResume(r: Request, next: bool)
    | CheckCtx(r: Request)
    | SetBreakpoints(name: string, lines: seq<int>, table: Table)

  predicate InPhase(s: State, q: Request, phase: LanePhase) {
    q in s.lanes && s.lanes[q].phase == phase
  }

  // None when the step is not enabled.
  function Next(s: State, step: Step): Option<State> {
    match step
    case Check(q, valid, cfg) =>
      if q in s.lanes then None
      else if s.lConfigSet || !valid then Some(s.(out := s.out + [H.LaunchError(q)]))
      else Some(s.(lanes := s.lanes[q := Lane(Passed, cfg, H.Idle, H.Off, false, false)]))
    case Store(q) =>
      if !InPhase(s, q, Passed) then None
      else Some(s.(lConfigSet := true, lanes := s.lanes[q := s.lanes[q].(phase := Stored)]))
    case Announce(q) =>
      if !InPhase(s, q, Stored) then None
      else Some(s.(lanes := s.lanes[q := s.lanes[q].(phase := Announced)], out := s.out + [H.ThreadStarted]))
    case Answer(q) =>
      if !InPhase(s, q, Announced) then None
      else Some(s.(lanes := s.lanes[q := s.lanes[q].(phase := Answered, forwarder := H.Receiving)],
                   out := s.out + [H.LaunchResponse]))
    case OpFinished(q, e) =>
      if !((InPhase(s, q, Announced) || InPhase(s, q, Answered)) && s.lanes[q].handler.Idle?) then None
      else
        var lane := s.lanes[q];
        var hits := Hits(s.table.bps, e.status, e.locs);
        if e.locs == [] || !Session.Stops(lane.cfg, Session.St(s.table, lane.entried, lane.each, ""), hits) then Some(s)
        else Some(s.(lanes := s.lanes[q := lane.(entried := true, handler := H.Offering(HitIdSet(hits)))],
                     stops := s.stops + [H.Stop(e, s.req, HitIdSet(hits))]))
    case TakeStop(q, f) =>
      if !(q in s.lanes && s.lanes[q].handler.Offering? && f in s.lanes && s.lanes[f].forwarder.Receiving?) then None
      else
        var ids := s.lanes[q].handler.ids;
        var lanes := s.lanes[q := s.lanes[q].(handler := H.Storing)];
        Some(s.(lanes := lanes[f := lanes[f].(forwarder := H.Sending(ids))], taken := s.taken + [ids]))
    case StoreCtx(q) =>
      if !(q in s.lanes && s.lanes[q].handler.Storing?) then None
      else Some(s.(lanes := s.lanes[q := s.lanes[q].(handler := H.Waiting)], bCtx := Some(q)))
    case TakeResume(q, r) =>
      if !(q in s.lanes && s.lanes[q].handler.Waiting? && r in s.resumes && s.resumes[r].Offered?) then None
      else Some(s.(lanes := s.lanes[q := s.lanes[q].(handler := H.Idle)],
                   resumes := s.resumes[r := H.Consumed], resumed := s.resumed + [r]))
    case SendStopped(f) =>
      if !(f in s.lanes && s.lanes[f].forwarder.Sending?) then None
      else Some(s.(lanes := s.lanes[f := s.lanes[f].(forwarder := H.Receiving)],
                   out := s.out + [H.Stopped(s.lanes[f].forwarder.ids)]))
    case AskResume(r, next) =>
      if r in s.resumes then None
      else Some(s.(resumes := s.resumes[r := H.Asked(next)], out := s.out + [H.ResumeResponse(r)]))
    case CheckCtx(r) =>
      if !(r in s.resumes && s.resumes[r].Asked?) then None
      else if s.bCtx.None? || s.bCtx.value !in s.lanes then Some(s.(resumes := s.resumes[r := H.Ignored]))
      else
        var q, next := s.bCtx.value, s.resumes[r].next;
        Some(s.(resumes := s.resumes[r := H.Offered], lanes := s.lanes[q := s.lanes[q].(each := next)],
                accepted := s.accepted + [next], since := s.since[r := |s.taken|]))
    case SetBreakpoints(name, lines, table) =>
      Some(s.(table := table, req := H.Requested(name, lines)))
  }

  ghost predicate Legal(step: Step) {
    step.SetBreakpoints? ==> HoldsRequest(step.table, step.name, step.lines) && |step.lines| <= Text.INT64_LIMIT
  }

  ghost predicate AllLegal(steps: seq<Step>) {
    forall i :: 0 <= i < |steps| ==> Legal(steps[i])
  }

  function Run(s: State, steps: seq<Step>): Option<State>
    decreases |steps|
  {
    if steps == [] then Some(s)
    else
      var t := Next(s, steps[0]);
      if t.None? then None else Run(t.value, steps[1..])
  }

  // ---- one launch: the handshake -------------------------------------------------------

  // No other launch than q has passed the guard.
  ghost predicate Only(s: State, q: Request) {
    forall p :: p in s.lanes ==> p == q
  }

  // The configuration of this launch is stored.
  predicate Live(s: State, q: Request) {
    q in s.lanes && !s.lanes[q].phase.Passed?
  }

  ghost predicate GuardOk(s: State) {
    s.lConfigSet <==> exists q :: Live(s, q)
  }

  ghost predicate LanesOk(s: State) {
    && (s.bCtx.Some? ==> Live(s, s.bCtx.value))
    && (forall q :: q in s.lanes ==> LaneOk(s.lanes[q]))
  }

  // Nothing of a session happens before its configuration is stored.
  predicate LaneOk(lane: Lane) {
    lane.phase.Passed? ==> lane == Lane(Passed, lane.cfg, H.Idle, H.Off, false, false)
  }

  ghost predicate WellFormed(s: State) {
    GuardOk(s) && LanesOk(s)
  }

  lemma StepKeepsGuard(s: State, step: Step, t: State)
    requires GuardOk(s) && Next(s, step) == Some(t)
    ensures GuardOk(t)
  {
    if s.lConfigSet {
      var q :| Live(s, q);
      assert Live(t, q);
    } else if step.Store? {
      assert Live(t, step.q);
    } else {
      assert forall q :: Live(t, q) ==> Live(s, q);
    }
  }

  lemma StepKeepsLanes(s: State, step: Step, t: State)
    requires LanesOk(s) && Next(s, step) == Some(t)
    ensures LanesOk(t)
  {
  }

  lemma StepKeepsWellFormed(s: State, step: Step, t: State)
    requires WellFormed(s) && Next(s, step) == Some(t)
    ensures WellFormed(t)
    ensures s.lanes.Keys <= t.lanes.Keys
  {
    StepKeepsGuard(s, step, t);
    StepKeepsLanes(s, step, t);
    StepLanes(s, step, t);
  }

  // The state of the handshake that lane q is in.
  function Project(s: State, q: Request): H.State {
    if Live(s, q) then
      var lane := s.lanes[q];
      var launch := match lane.phase
                    case Announced => H.Announced
                    case Answered => H.Answered
                    case _ => H.Configured;
      H.State(lane.cfg, launch, lane.handler, lane.forwarder, s.bCtx.Some?, s.resumes, s.table, s.req,
              lane.entried, lane.each, s.out, s.stops, s.taken, s.resumed, s.accepted, s.since)
    else
      H.State(Session.Config(false, false), H.NotLaunched, H.Idle, H.Off, s.bCtx.Some?, s.resumes, s.table, s.req,
              false, false, s.out, s.stops, s.taken, s.resumed, s.accepted, s.since)
  }

  // The step of the handshake a step stands for; passing the guard is none.
  function StepOf(s: State, step: Step): seq<H.Step> {
    match step
    case Check(q, valid, cfg) => if s.lConfigSet || !valid then [H.Launch(q, valid, cfg)] else []
    case Store(q) => if q in s.lanes then [H.Launch(q, true, s.lanes[q].cfg)] else []
    case Announce(_) => [H.Announce]
    case Answer(_) => [H.Answer]
    case OpFinished(_, e) => [H.OpFinished(e)]
    case TakeStop(_, _) => [H.TakeStop]
    case StoreCtx(_) => [H.StoreCtx]
    case TakeResume(_, r) => [H.TakeResume(r)]
    case SendStopped(_) => [H.SendStopped]
    case AskResume(r, next) => [H.AskResume(r, next)]
    case CheckCtx(r) => [H.CheckCtx(r)]
    case SetBreakpoints(name, lines, table) => [H.SetBreakpoints(name, lines, table)]
  }

  lemma LaunchStepProjects(s: State, step: Step, t: State, q: Request)
    requires WellFormed(s) && Only(t, q) && Next(s, step) == Some(t)
    requires step.Check? || step.Store? || step.Announce? || step.Answer?
    ensures H.Run(Project(s, q), StepOf(s, step)) == Some(Project(t, q))
  {
    RunOne(Project(s, q), step, s);
    assert !step.Check? ==> step.q in t.lanes;
  }

  predicate OfClient(step: Step) {
    step.AskResume? || step.CheckCtx? || step.SetBreakpoints?
  }

  lemma ClientStepProjects(s: State, step: Step, t: State, q: Request)
    requires WellFormed(s) && Only(t, q) && Next(s, step) == Some(t) && OfClient(step)
    ensures H.Run(Project(s, q), StepOf(s, step)) == Some(Project(t, q))
  {
    RunOne(Project(s, q), step, s);
    assert s.bCtx.Some? ==> s.bCtx.value in t.lanes;
  }

  lemma OpFinishedProjects(s: State, p: Request, e: Session.Event, t: State, q: Request)
    requires WellFormed(s) && Only(t, q) && Next(s, OpFinished(p, e)) == Some(t)
    ensures H.Run(Project(s, q), StepOf(s, OpFinished(p, e))) == Some(Project(t, q))
  {
    RunOne(Project(s, q), OpFinished(p, e), s);
    assert p in t.lanes;
  }

  lemma TakeStopProjects(s: State, p: Request, f: Request, t: State, q: Request)
    requires WellFormed(s) && Only(t, q) && Next(s, TakeStop(p, f)) == Some(t)
    ensures H.Run(Project(s, q), StepOf(s, TakeStop(p, f))) == Some(Project(t, q))
  {
    RunOne(Project(s, q), TakeStop(p, f), s);
    assert p in t.lanes && f in t.lanes;
  }

  lemma StoreCtxProjects(s: State, p: Request, t: State, q: Request)
    requires WellFormed(s) && Only(t, q) && Next(s, StoreCtx(p)) == Some(t)
    ensures H.Run(Project(s, q), StepOf(s, StoreCtx(p))) == Some(Project(t, q))
  {
    RunOne(Project(s, q), StoreCtx(p), s);
    assert p in t.lanes;
  }

  lemma TakeResumeProjects(s: State, p: Request, r: Request, t: State, q: Request)
    requires WellFormed(s) && Only(t, q) && Next(s, TakeResume(p, r)) == Some(t)
    ensures H.Run(Project(s, q), StepOf(s, TakeResume(p, r))) == Some(Project(t, q))
  {
    RunOne(Project(s, q), TakeResume(p, r), s);
    assert p in t.lanes;
  }

  lemma SendStoppedProjects(s: State, f: Request, t: State, q: Request)
    requires WellFormed(s) && Only(t, q) && Next(s, SendStopped(f)) == Some(t)
    ensures H.Run(Project(s, q), StepOf(s, SendStopped(f))) == Some(Project(t, q))
  {
    RunOne(Project(s, q), SendStopped(f), s);
    assert f in t.lanes;
  }

  // Running a step list of length one or zero.
  lemma RunOne(h: H.State, step: Step, s: State)
    ensures H.Run(h, StepOf(s, step)) == if StepOf(s, step) == [] then Some(h) else H.Next(h, StepOf(s, step)[0])
  {
    var hs := StepOf(s, step);
    if hs != [] {
      assert hs[1..] == [];
      var t := H.Next(h, hs[0]);
      assert t.Some? ==> H.Run(t.value, []) == t;
    }
  }

  lemma StepProjects(s: State, step: Step, t: State, q: Request)
    requires WellFormed(s) && Only(t, q) && Legal(step) && Next(s, step) == Some(t)
    ensures H.Run(Project(s, q), StepOf(s, step)) == Some(Project(t, q))
    ensures H.AllLegal(StepOf(s, step))
  {
    match step {
      case OpFinished(p, e) => OpFinishedProjects(s, p, e, t, q);
      case TakeStop(p, f) => TakeStopProjects(s, p, f, t, q);
      case StoreCtx(p) => StoreCtxProjects(s, p, t, q);
      case TakeResume(p, r) => TakeResumeProjects(s, p, r, t, q);
      case SendStopped(f) => SendStoppedProjects(s, f, t, q);
      case _ =>
        if OfClient(step) {
          ClientStepProjects(s, step, t, q);
        } else {
          LaunchStepProjects(s, step, t, q);
        }
    }
  }

  lemma {:induction false} LanesGrow(s: State, steps: seq<Step>)
    requires WellFormed(s) && Run(s, steps).Some?
    ensures WellFormed(Run(s, steps).value)
    ensures s.lanes.Keys <= Run(s, steps).value.lanes.Keys
    decreases |steps|
  {
    if steps == [] {
    } else {
      var t := Next(s, steps[0]).value;
      StepKeepsWellFormed(s, steps[0], t);
      LanesGrow(t, steps[1..]);
    }
  }

  // ---- the run of the handshake -----------------------------------------------------------

  // Some launch has been stored.
  predicate AnyStored(past: seq<Step>) {
    past != [] && (past[|past| - 1].Store? || AnyStored(past[..|past| - 1]))
  }

  // The configuration this launch passed the guard with.
  function Checked(past: seq<Step>, q: Request): Session.Config {
    if past == [] then Session.Config(false, false)
    else
      match past[|past| - 1]
      case Check(p, true, cfg) => if p == q then cfg else Checked(past[..|past| - 1], q)
      case _ => Checked(past[..|past| - 1], q)
  }

  // What a step is to the client of one launch: a guard that is passed is nothing yet, storing
  // is the launch, and a refused guard is a refused launch.
  function Image(past: seq<Step>, step: Step): seq<H.Step> {
    match step
    case Check(q, valid, cfg) => if !valid || AnyStored(past) then [H.Launch(q, valid, cfg)] else []
    case Store(q) => [H.Launch(q, true, Checked(past, q))]
    case Announce(_) => [H.Announce]
    case Answer(_) => [H.Answer]
    case OpFinished(_, e) => [H.OpFinished(e)]
    case TakeStop(_, _) => [H.TakeStop]
    case StoreCtx(_) => [H.StoreCtx]
    case TakeResume(_, r) => [H.TakeResume(r)]
    case SendStopped(_) => [H.SendStopped]
    case AskResume(r, next) => [H.AskResume(r, next)]
    case CheckCtx(r) => [H.CheckCtx(r)]
    case SetBreakpoints(name, lines, table) => [H.SetBreakpoints(name, lines, table)]
  }

  function ImageOf(steps: seq<Step>): seq<H.Step> {
    if steps == [] then [] else ImageOf(steps[..|steps| - 1]) + Image(steps[..|steps| - 1], steps[|steps| - 1])
  }

  ghost predicate Told(s: State, past: seq<Step>) {
    && (s.lConfigSet <==> AnyStored(past))
    && (forall q :: q in s.lanes ==> s.lanes[q].cfg == Checked(past, q))
  }

  lemma StepTells(s: State, front: seq<Step>, step: Step, t: State)
    requires Told(s, front) && Next(s, step) == Some(t)
    ensures Told(t, front + [step])
  {
    assert (front + [step])[..|front|] == front;
    forall q | q in t.lanes
      ensures t.lanes[q].cfg == Checked(front + [step], q)
    {
      assert !(step.Check? && step.q == q) ==> q in s.lanes && t.lanes[q].cfg == s.lanes[q].cfg;
    }
  }

  lemma ImageIsStepOf(s: State, front: seq<Step>, step: Step)
    requires Told(s, front) && Next(s, step).Some?
    ensures Image(front, step) == StepOf(s, step)
  {
  }

  lemma {:induction false} RunSnoc(s: State, a: seq<Step>, step: Step)
    ensures Run(s, a + [step]) == if Run(s, a).None? then None else Next(Run(s, a).value, step)
    decreases |a|
  {
    if a == [] {
      assert [step][1..] == [];
      var t := Next(s, step);
      assert t.Some? ==> Run(t.value, []) == t;
    } else {
      var t := Next(s, a[0]);
      assert (a + [step])[0] == a[0] && (a + [step])[1..] == a[1..] + [step];
      if t.Some? {
        RunSnoc(t.value, a[1..], step);
      }
    }
  }

  lemma {:induction false} RunIsTold(steps: seq<Step>)
    requires Run(INIT, steps).Some?
    ensures Told(Run(INIT, steps).value, steps) && WellFormed(Run(INIT, steps).value)
    decreases |steps|
  {
    if steps == [] {
    } else {
      var front, step := steps[..|steps| - 1], steps[|steps| - 1];
      assert steps == front + [step];
      RunSnoc(INIT, front, step);
      RunIsTold(front);
      StepTells(Run(INIT, front).value, front, step, Run(INIT, steps).value);
      StepKeepsWellFormed(Run(INIT, front).value, step, Run(INIT, steps).value);
    }
  }

  // As long as one launch at most has passed the guard, every run is a run of the handshake,
  // step by step: same messages, same stops, same requests, in the same order.
  lemma {:induction false} SingleLaunchIsHandshake(steps: seq<Step>, q: Request)
    requires AllLegal(steps) && Run(INIT, steps).Some? && Only(Run(INIT, steps).value, q)
    ensures H.AllLegal(ImageOf(steps))
    ensures H.Run(H.INIT, ImageOf(steps)) == Some(Project(Run(INIT, steps).value, q))
    decreases |steps|
  {
    if steps == [] {
      assert Project(INIT, q) == H.INIT;
    } else {
      var front, step := steps[..|steps| - 1], steps[|steps| - 1];
      assert steps == front + [step];
      RunSnoc(INIT, front, step);
      RunIsTold(front);
      var s, t := Run(INIT, front).value, Run(INIT, steps).value;
      StepKeepsWellFormed(s, step, t);
      assert forall p :: p in s.lanes ==> p in t.lanes.Keys;
      SingleLaunchIsHandshake(front, q);
      ImageIsStepOf(s, front, step);
      StepProjects(s, step, t, q);
      H.RunAppend(H.INIT, ImageOf(front), StepOf(s, step));
    }
  }

  // The step of lane q that a step of the handshake stands for.
  function OwnStep(q: Request, h: H.Step): Step
    requires !h.Launch?
  {
    match h
    case Announce => Announce(q)
    case Answer => Answer(q)
    case OpFinished(e) => OpFinished(q, e)
    case TakeStop => TakeStop(q, q)
    case StoreCtx => StoreCtx(q)
    case TakeResume(r) => TakeResume(q, r)
    case SendStopped => SendStopped(q)
    case AskResume(r, next) => AskResume(r, next)
    case CheckCtx(r) => CheckCtx(r)
    case SetBreakpoints(name, lines, table) => SetBreakpoints(name, lines, table)
  }

  // The other way round: a launch that is stored can do whatever the handshake can.
  lemma LaneCanDoTheSame(steps: seq<Step>, q: Request, h: H.Step)
    requires Run(INIT, steps).Some? && Live(Run(INIT, steps).value, q) && !h.Launch?
    ensures var s := Run(INIT, steps).value;
            Next(s, OwnStep(q, h)).Some? <==> H.Next(Project(s, q), h).Some?
  {
    RunIsTold(steps);
  }

  // In particular its messages are ordered as the handshake orders them, and its stops and
  // messages are those the handshake reads off the same steps.
  lemma SingleLaunchOrder(steps: seq<Step>, q: Request)
    requires AllLegal(steps) && Run(INIT, steps).Some? && Only(Run(INIT, steps).value, q)
    ensures var s := Run(INIT, steps).value;
            && H.LaunchOrdered(s.out)
            && s.out == HR.OutOf(ImageOf(steps))
            && s.stops == HR.StopsOf(ImageOf(steps))
            && s.accepted == HR.AcceptedOf(ImageOf(steps))
  {
    SingleLaunchIsHandshake(steps, q);
    H.LaunchOrder(ImageOf(steps));
    HR.MessagesAreTheSteps(ImageOf(steps));
    HR.StopsAreAsRuled(ImageOf(steps));
    HR.AcceptedAsAsked(ImageOf(steps));
  }

  // ---- how many launches are answered ----------------------------------------------------

  function Responses(out: seq<H.Message>): nat {
    if out == [] then 0
    else Responses(out[..|out| - 1]) + if out[|out| - 1].LaunchResponse? then 1 else 0
  }

  function AnsweredLanes(s: State): set<Request> {
    set q | q in s.lanes && s.lanes[q].phase.Answered?
  }

  ghost predicate Counted(s: State) {
    Responses(s.out) == |AnsweredLanes(s)|
  }

  lemma ResponsesSnoc(out: seq<H.Message>, m: H.Message)
    ensures Responses(out + [m]) == Responses(out) + if m.LaunchResponse? then 1 else 0
  {
    assert (out + [m])[..|out|] == out;
  }

  lemma StepResponds(s: State, step: Step, t: State)
    requires Next(s, step) == Some(t)
    ensures Responses(t.out) == Responses(s.out) + if step.Answer? then 1 else 0
  {
    match step {
      case Check(q, _, _) => ResponsesSnoc(s.out, H.LaunchError(q));
      case Announce(_) => ResponsesSnoc(s.out, H.ThreadStarted);
      case Answer(_) => ResponsesSnoc(s.out, H.LaunchResponse);
      case SendStopped(f) => ResponsesSnoc(s.out, H.Stopped(s.lanes[f].forwarder.ids));
      case AskResume(r, _) => ResponsesSnoc(s.out, H.ResumeResponse(r));
      case _ => assert t.out == s.out;
    }
  }

  lemma StepKeepsCount(s: State, step: Step, t: State)
    requires Counted(s) && Next(s, step) == Some(t)
    ensures Counted(t)
  {
    StepAnswers(s, step, t);
    StepResponds(s, step, t);
  }

  lemma StepAnswers(s: State, step: Step, t: State)
    requires Next(s, step) == Some(t)
    ensures AnsweredLanes(t) == if step.Answer? then AnsweredLanes(s) + {step.q} else AnsweredLanes(s)
    ensures step.Answer? ==> step.q !in AnsweredLanes(s)
  {
  }

  lemma {:induction false} RunKeepsCount(s: State, steps: seq<Step>)
    requires Counted(s) && Run(s, steps).Some?
    ensures Counted(Run(s, steps).value)
    decreases |steps|
  {
    if steps == [] {
    } else {
      var t := Next(s, steps[0]).value;
      StepKeepsCount(s, steps[0], t);
      RunKeepsCount(t, steps[1..]);
    }
  }

  // ---- when there is a single response -----------------------------------------------------

  // This step lets a launch pass while an earlier one has passed and is not stored.
  predicate Overlaps(s: State, step: Step) {
    step.Check? && step.q !in s.lanes && step.valid && !s.lConfigSet && s.lanes != map[]
  }

  ghost predicate NoOverlap(s: State, steps: seq<Step>)
    decreases |steps|
  {
    steps == [] ||
    (!Overlaps(s, steps[0]) && (Next(s, steps[0]).Some? ==> NoOverlap(Next(s, steps[0]).value, steps[1..])))
  }

  lemma StepLanes(s: State, step: Step, t: State)
    requires Next(s, step) == Some(t)
    ensures t.lanes.Keys ==
            if step.Check? && step.valid && !s.lConfigSet then s.lanes.Keys + {step.q} else s.lanes.Keys
    ensures step.Check? ==> step.q !in s.lanes
  {
  }

  lemma {:induction false} OneLaneIff(s: State, steps: seq<Step>)
    requires WellFormed(s) && Run(s, steps).Some? && |s.lanes.Keys| <= 1
    ensures |Run(s, steps).value.lanes.Keys| <= 1 <==> NoOverlap(s, steps)
    decreases |steps|
  {
    if steps == [] {
    } else {
      var t := Next(s, steps[0]).value;
      StepKeepsWellFormed(s, steps[0], t);
      StepLanes(s, steps[0], t);
      if Overlaps(s, steps[0]) {
        assert s.lanes.Keys != {};
        assert |t.lanes.Keys| == |s.lanes.Keys| + 1 >= 2;
        LanesGrow(t, steps[1..]);
        SubsetCard(t.lanes.Keys, Run(s, steps).value.lanes.Keys);
      } else {
        assert s.lanes == map[] ==> s.lanes.Keys == {};
        OneLaneIff(t, steps[1..]);
      }
    }
  }

  lemma {:induction false} SubsetCard<T>(a: set<T>, b: set<T>)
    requires a <= b
    ensures |a| <= |b|
    decreases |a|
  {
    if a == {} {
    } else {
      var x :| x in a;
      SubsetCard(a - {x}, b - {x});
    }
  }

  ghost predicate NoneChecked(steps: seq<Step>) {
    forall i :: 0 <= i < |steps| ==> !steps[i].Check?
  }

  // The launches now in flight can lead to several responses.
  ghost predicate CanAnswerTwice(s: State) {
    exists more :: NoneChecked(more) && Run(s, more).Some? && Responses(Run(s, more).value.out) >= 2
  }

  lemma {:induction false} RunAppend(s: State, a: seq<Step>, b: seq<Step>)
    requires Run(s, a).Some?
    ensures Run(s, a + b) == Run(Run(s, a).value, b)
    decreases |a|
  {
    if a == [] {
      assert a + b == b;
    } else {
      RunAppend(Next(s, a[0]).value, a[1..], b);
      assert (a + b)[1..] == a[1..] + b;
    }
  }

  function Rank(phase: LanePhase): nat {
    match phase
    case Passed => 3
    case Stored => 2
    case Announced => 1
    case Answered => 0
  }

  function NextLaunchStep(s: State, q: Request): Step
    requires q in s.lanes
  {
    match s.lanes[q].phase
    case Passed => Store(q)
    case Stored => Announce(q)
    case _ => Answer(q)
  }

  // A launch that has passed the guard can always go on to its response.
  lemma {:induction false} FinishLane(s: State, q: Request) returns (more: seq<Step>)
    requires q in s.lanes
    ensures NoneChecked(more) && Run(s, more).Some?
    ensures var t := Run(s, more).value;
            && t.lanes.Keys == s.lanes.Keys
            && t.lanes[q].phase.Answered?
            && forall p :: p in s.lanes && p != q ==> t.lanes[p] == s.lanes[p]
    decreases Rank(s.lanes[q].phase)
  {
    if s.lanes[q].phase.Answered? {
      more := [];
    } else {
      var step := NextLaunchStep(s, q);
      var t := Next(s, step).value;
      var rest := FinishLane(t, q);
      more := [step] + rest;
      assert more[1..] == rest;
    }
  }

  lemma TwoLanesAnswerTwice(s: State, p: Request, q: Request)
    requires Counted(s) && p in s.lanes && q in s.lanes && p != q
    ensures CanAnswerTwice(s)
  {
    var first := FinishLane(s, p);
    var t := Run(s, first).value;
    var second := FinishLane(t, q);
    RunAppend(s, first, second);
    RunKeepsCount(s, first + second);
    SubsetCard({p, q}, AnsweredLanes(Run(s, first + second).value));
    assert NoneChecked(first + second);
  }

  lemma {:induction false} UncheckedLanes(s: State, steps: seq<Step>)
    requires NoneChecked(steps) && Run(s, steps).Some?
    ensures Run(s, steps).value.lanes.Keys == s.lanes.Keys
    decreases |steps|
  {
    if steps == [] {
    } else {
      var t := Next(s, steps[0]).value;
      StepLanes(s, steps[0], t);
      UncheckedLanes(t, steps[1..]);
    }
  }

  // In every reachable state: the launches in flight lead to a single response at most iff no
  // second launch ever passed the guard before the first was stored.
  lemma SingleResponseIff(steps: seq<Step>)
    requires Run(INIT, steps).Some?
    ensures var s := Run(INIT, steps).value;
            && (!CanAnswerTwice(s) <==> |s.lanes.Keys| <= 1)
            && (!CanAnswerTwice(s) <==> NoOverlap(INIT, steps))
  {
    var s := Run(INIT, steps).value;
    assert AnsweredLanes(INIT) == {};
    RunKeepsCount(INIT, steps);
    OneLaneIff(INIT, steps);
    if |s.lanes.Keys| <= 1 {
      forall more | NoneChecked(more) && Run(s, more).Some?
        ensures Responses(Run(s, more).value.out) < 2
      {
        UncheckedLanes(s, more);
        RunKeepsCount(s, more);
        SubsetCard(AnsweredLanes(Run(s, more).value), s.lanes.Keys);
      }
    } else {
      var p :| p in s.lanes.Keys;
      assert s.lanes.Keys != {p};
      var q :| q in s.lanes.Keys && q != p;
      TwoLanesAnswerTwice(s, p, q);
    }
  }

  // Two launches that are both checked before either is stored are both answered.
  lemma TwoLaunchesAnswered(cfg: Session.Config)
    ensures var steps := [Check(0, true, cfg), Check(1, true, cfg)];
            Run(INIT, steps).Some? && CanAnswerTwice(Run(INIT, steps).value)
  {
    var s1 := Next(INIT, Check(0, true, cfg)).value;
    var s2 := Next(s1, Check(1, true, cfg)).value;
    var steps := [Check(0, true, cfg), Check(1, true, cfg)];
    assert steps[1..] == [Check(1, true, cfg)] && steps[1..][1..] == [];
    assert Run(s1, steps[1..]) == Run(s2, []);
    assert AnsweredLanes(s2) == {};
    TwoLanesAnswerTwice(s2, 0, 1);
  }
}
