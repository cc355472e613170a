// The DAP handshake read off a run: its messages, its stops and what the client asked for, said
// from the list of steps alone, and that every stop can be ended.
module HandshakeRuns {
  import opened Common
  import opened Breakpoints
  import Session
  import opened Dap
  import opened Handshake

  lemma LastStep(steps: seq<Step>) returns (front: seq<Step>, step: Step)
    requires steps != [] && AllLegal(steps) && Run(INIT, steps).Some?
    ensures steps == front + [step] && front == steps[..|steps| - 1] && step == steps[|steps| - 1]
    ensures AllLegal(front) && Legal(step)
    ensures Run(INIT, front).Some? && Next(Run(INIT, front).value, step) == Run(INIT, steps)
  {
    front, step := steps[..|steps| - 1], steps[|steps| - 1];
    assert steps == front + [step];
    RunSnoc(INIT, front, step);
  }

  lemma {:induction false} RunSnoc(s: State, a: seq<Step>, step: Step)
    ensures Run(s, a + [step]) == if Run(s, a).None? then None else Next(Run(s, a).value, step)
    decreases |a|
  {
    if a == [] {
      assert [step][1..] == [];
      var t := Next(s, step);
      assert t.Some? ==> Run(t.value, []) == t;
    } else {
      var t := Next(s, a[0]);
      assert (a + [step])[0] == a[0] && (a + [step])[1..] == a[1..] + [step];
      if t.Some? {
        RunSnoc(t.value, a[1..], step);
      }
    }
  }

  // ---- what the client said -----------------------------------------------------------

  // The last SetBreakpoints request.
  function LastRequest(steps: seq<Step>): Requested {
    if steps == [] then Requested("", [])
    else
      match steps[|steps| - 1]
      case SetBreakpoints(name, lines, _) => Requested(name, lines)
      case _ => LastRequest(steps[..|steps| - 1])
  }

  // The configuration of the first valid launch.
  function LaunchCfg(steps: seq<Step>): Option<Session.Config> {
    if steps == [] then None
    else
      var before := LaunchCfg(steps[..|steps| - 1]);
      match steps[|steps| - 1]
      case Launch(_, valid, cfg) => if before.None? && valid then Some(cfg) else before
      case _ => before
  }

  // Whether this request asked for next (and not for continue).
  function AskedNext(steps: seq<Step>, q: Request): bool {
    if steps == [] then false
    else
      match steps[|steps| - 1]
      case AskResume(r, next) => if r == q then next else AskedNext(steps[..|steps| - 1], q)
      case _ => AskedNext(steps[..|steps| - 1], q)
  }

  // What the accepted requests asked for, in the order of their checks. A check is accepted once
  // some stop has stored its context.
  function AcceptedOf(steps: seq<Step>): seq<bool> {
    if steps == [] then []
    else
      var front := steps[..|steps| - 1];
      AcceptedOf(front) + match steps[|steps| - 1] {
        case CheckCtx(q) => if StoreCtx in front then [AskedNext(front, q)] else []
        case _ => []
      }
  }

  function ResumedOf(steps: seq<Step>): seq<Request> {
    if steps == [] then []
    else
      ResumedOf(steps[..|steps| - 1]) + match steps[|steps| - 1] {
        case TakeResume(q) => [q]
        case _ => []
      }
  }

  function TakesOf(steps: seq<Step>): nat {
    if steps == [] then 0 else TakesOf(steps[..|steps| - 1]) + if steps[|steps| - 1].TakeStop? then 1 else 0
  }

  // For every accepted request how many stops had been received at its check.
  function SinceOf(steps: seq<Step>): map<Request, nat> {
    if steps == [] then map[]
    else
      var front := steps[..|steps| - 1];
      match steps[|steps| - 1]
      case CheckCtx(q) => if StoreCtx in front then SinceOf(front)[q := TakesOf(front)] else SinceOf(front)
      case _ => SinceOf(front)
  }

  ghost predicate AsksTold(s: State, steps: seq<Step>) {
    && (s.hasBCtx <==> StoreCtx in steps)
    && (forall q :: q in s.resumes && s.resumes[q].Asked? ==> s.resumes[q].next == AskedNext(steps, q))
  }

  ghost predicate ClientTold(s: State, steps: seq<Step>) {
    && s.req == LastRequest(steps)
    && (if s.launch.NotLaunched? then LaunchCfg(steps).None? else LaunchCfg(steps) == Some(s.cfg))
  }

  ghost predicate HistoryTold(s: State, steps: seq<Step>) {
    && s.accepted == AcceptedOf(steps)
    && s.resumed == ResumedOf(steps)
    && |s.taken| == TakesOf(steps)
    && s.since == SinceOf(steps)
  }

  lemma StepTellsAsks(s: State, front: seq<Step>, step: Step, t: State)
    requires AsksTold(s, front) && Next(s, step) == Some(t)
    ensures AsksTold(t, front + [step])
  {
    assert (front + [step])[..|front|] == front;
    forall q | q in t.resumes && t.resumes[q].Asked?
      ensures t.resumes[q].next == AskedNext(front + [step], q)
    {
      assert !(step.AskResume? && step.q == q) ==> q in s.resumes && s.resumes[q] == t.resumes[q];
    }
  }

  lemma StepTellsClient(s: State, front: seq<Step>, step: Step, t: State)
    requires ClientTold(s, front) && Next(s, step) == Some(t)
    ensures ClientTold(t, front + [step])
  {
    assert (front + [step])[..|front|] == front;
  }

  lemma StepTellsHistory(s: State, front: seq<Step>, step: Step, t: State)
    requires HistoryTold(s, front) && AsksTold(s, front) && Next(s, step) == Some(t)
    ensures HistoryTold(t, front + [step])
  {
    assert (front + [step])[..|front|] == front;
  }

  // ---- the stops and the messages ----------------------------------------------------------

  function LineHits(req: Requested, e: Session.Event): set<int> {
    set i | 0 <= i < |req.lines| && LineHit(req.name, req.lines, e.status, e.locs, i)
  }

  // Whether an op that finishes after these steps stops the build: it has a location, debugging
  // is on, and it is the entry stop, or the last accepted request asked for next, or the op
  // failed, or it hits a line of the last SetBreakpoints request.
  predicate ShouldStop(steps: seq<Step>, e: Session.Event)
    decreases |steps|, 1
  {
    && e.locs != []
    && LaunchCfg(steps).Some? && !LaunchCfg(steps).value.disableBreakpoints
    && (|| (LaunchCfg(steps).value.stopOnEntry && StopsOf(steps) == [])
        || (AcceptedOf(steps) != [] && AcceptedOf(steps)[|AcceptedOf(steps)| - 1])
        || e.status.err.Some?
        || LineHits(LastRequest(steps), e) != {})
  }

  // The stops of a run, with the request in force and the lines of it that were hit.
  function StopsOf(steps: seq<Step>): seq<Stop>
    decreases |steps|, 0
  {
    if steps == [] then []
    else
      var front := steps[..|steps| - 1];
      StopsOf(front) + match steps[|steps| - 1] {
        case OpFinished(e) =>
          if ShouldStop(front, e) then [Stop(e, LastRequest(front), LineHits(LastRequest(front), e))] else []
        case _ => []
      }
  }

  // The ids of the stop that was received last.
  function TakenIds(steps: seq<Step>): set<int> {
    if steps == [] then {}
    else
      var front := steps[..|steps| - 1];
      if steps[|steps| - 1].TakeStop? && StopsOf(front) != [] then StopsOf(front)[|StopsOf(front)| - 1].ids
      else TakenIds(front)
  }

  // The message a step sends: every launch but the first valid one is refused, every resume
  // request is answered, and a StoppedEvent has the ids of the stop received last.
  function Sends(front: seq<Step>, step: Step): seq<Message> {
    match step
    case Launch(q, valid, _) => if valid && LaunchCfg(front).None? then [] else [LaunchError(q)]
    case Announce => [ThreadStarted]
    case Answer => [LaunchResponse]
    case SendStopped => [Stopped(TakenIds(front))]
    case AskResume(q, _) => [ResumeResponse(q)]
    case _ => []
  }

  function OutOf(steps: seq<Step>): seq<Message> {
    if steps == [] then [] else OutOf(steps[..|steps| - 1]) + Sends(steps[..|steps| - 1], steps[|steps| - 1])
  }

  ghost predicate StopsTold(s: State, steps: seq<Step>) {
    && s.stops == StopsOf(steps)
    && (s.forwarder.Sending? ==> s.forwarder.ids == TakenIds(steps))
  }

  lemma HitsOfRequest(s: State, e: Session.Event)
    requires IdsOk(s)
    ensures HitIdSet(Hits(s.table.bps, e.status, e.locs)) == LineHits(s.req, e)
    ensures Hits(s.table.bps, e.status, e.locs) != map[] <==> e.status.err.Some? || LineHits(s.req, e) != {}
  {
    HitsIffFailedOrLineHit(s.table, s.req.name, s.req.lines, e.status, e.locs);
    HitIdsAreIndices(s.table, s.req.name, s.req.lines, e.status, e.locs);
    if i :| LineHit(s.req.name, s.req.lines, e.status, e.locs, i) {
      assert i in LineHits(s.req, e);
    }
    if LineHits(s.req, e) != {} {
      var i :| i in LineHits(s.req, e);
      assert LineHit(s.req.name, s.req.lines, e.status, e.locs, i);
    }
  }

  // The handler's own decision is the rule.
  lemma StopsWhenItShould(s: State, front: seq<Step>, e: Session.Event)
    requires IdsOk(s) && FlagsOk(s) && !s.launch.NotLaunched?
    requires ClientTold(s, front) && s.accepted == AcceptedOf(front) && s.stops == StopsOf(front)
    ensures var hits := Hits(s.table.bps, e.status, e.locs);
            e.locs != [] && Session.Stops(s.cfg, Session.St(s.table, s.entried, s.each, ""), hits) <==>
              ShouldStop(front, e)
  {
    HitsOfRequest(s, e);
  }

  lemma OpStops(s: State, front: seq<Step>, e: Session.Event, t: State)
    requires IdsOk(s) && FlagsOk(s)
    requires ClientTold(s, front) && s.accepted == AcceptedOf(front) && s.stops == StopsOf(front)
    requires Next(s, OpFinished(e)) == Some(t)
    ensures t.stops == StopsOf(front + [OpFinished(e)]) && t.forwarder == s.forwarder
  {
    assert (front + [OpFinished(e)])[..|front|] == front;
    StopsWhenItShould(s, front, e);
    HitsOfRequest(s, e);
  }

  lemma StepTellsStops(s: State, front: seq<Step>, step: Step, t: State)
    requires IdsOk(s) && FlagsOk(s) && CountsOk(s)
    requires ClientTold(s, front) && s.accepted == AcceptedOf(front) && StopsTold(s, front)
    requires Next(s, step) == Some(t)
    ensures StopsTold(t, front + [step])
  {
    assert (front + [step])[..|front|] == front;
    if step.OpFinished? {
      OpStops(s, front, step.e, t);
    } else if step.TakeStop? {
      assert t.forwarder.ids == s.stops[|s.stops| - 1].ids;
    } else {
      assert t.stops == s.stops;
    }
  }

  lemma StepSends(s: State, front: seq<Step>, step: Step, t: State)
    requires ClientTold(s, front) && StopsTold(s, front) && Next(s, step) == Some(t)
    ensures t.out == s.out + Sends(front, step)
  {
  }

  lemma {:induction false} RunIsTold(steps: seq<Step>)
    requires AllLegal(steps) && Run(INIT, steps).Some?
    ensures var s := Run(INIT, steps).value;
            Inv(s) && AsksTold(s, steps) && ClientTold(s, steps) && HistoryTold(s, steps) && StopsTold(s, steps)
    ensures Run(INIT, steps).value.out == OutOf(steps)
    decreases |steps|
  {
    if steps == [] {
      InitOk();
    } else {
      var front, step := LastStep(steps);
      RunIsTold(front);
      var s, t := Run(INIT, front).value, Run(INIT, steps).value;
      StepKeepsInv(s, step, t);
      StepTellsAsks(s, front, step, t);
      StepTellsClient(s, front, step, t);
      StepTellsHistory(s, front, step, t);
      StepTellsStops(s, front, step, t);
      StepSends(s, front, step, t);
    }
  }

  // In every run the stops are those of the rule, said with the client's own requests: the
  // configuration it launched with, its last SetBreakpoints request and the last of its resume
  // requests that was accepted.
  lemma StopsAreAsRuled(steps: seq<Step>)
    requires AllLegal(steps) && Run(INIT, steps).Some?
    ensures Run(INIT, steps).value.stops == StopsOf(steps)
  {
    RunIsTold(steps);
  }

  // When the next op stops the build.
  lemma StopRule(steps: seq<Step>, e: Session.Event)
    requires AllLegal(steps) && Run(INIT, steps).Some?
    requires Next(Run(INIT, steps).value, OpFinished(e)).Some?
    ensures Next(Run(INIT, steps).value, OpFinished(e)).value.stops ==
            StopsOf(steps) + if ShouldStop(steps, e) then [Stop(e, LastRequest(steps), LineHits(LastRequest(steps), e))]
                             else []
  {
    RunIsTold(steps);
    OpStops(Run(INIT, steps).value, steps, e, Next(Run(INIT, steps).value, OpFinished(e)).value);
    assert (steps + [OpFinished(e)])[..|steps|] == steps;
  }

  // The messages of every run, one by one.
  lemma MessagesAreTheSteps(steps: seq<Step>)
    requires AllLegal(steps) && Run(INIT, steps).Some?
    ensures Run(INIT, steps).value.out == OutOf(steps)
  {
    RunIsTold(steps);
  }

  // The accepted requests are those the client asked for: next is next and continue is continue.
  lemma AcceptedAsAsked(steps: seq<Step>)
    requires AllLegal(steps) && Run(INIT, steps).Some?
    ensures var s := Run(INIT, steps).value;
            && s.accepted == AcceptedOf(steps)
            && s.resumed == ResumedOf(steps)
            && |s.taken| == TakesOf(steps)
            && s.since == SinceOf(steps)
  {
    RunIsTold(steps);
  }

  // ---- every stop can be ended -------------------------------------------------------------

  ghost predicate CanGoOn(s: State) {
    exists more :: Run(s, more).Some? && Run(s, more).value.handler.Idle?
  }

  lemma StepToGoOn(s: State, step: Step, t: State)
    requires Next(s, step) == Some(t) && CanGoOn(t)
    ensures CanGoOn(s)
  {
    var more :| Run(t, more).Some? && Run(t, more).value.handler.Idle?;
    assert ([step] + more)[1..] == more;
    assert Run(s, [step] + more) == Run(t, more);
  }

  lemma IdleGoesOn(s: State)
    requires s.handler.Idle?
    ensures CanGoOn(s)
  {
    assert Run(s, []) == Some(s);
  }

  lemma OfferedGoesOn(s: State, q: Request)
    requires s.handler.Waiting? && q in s.resumes && s.resumes[q].Offered?
    ensures CanGoOn(s)
  {
    IdleGoesOn(Next(s, TakeResume(q)).value);
    StepToGoOn(s, TakeResume(q), Next(s, TakeResume(q)).value);
  }

  lemma {:induction false} Unused(used: set<nat>) returns (n: nat)
    ensures forall m :: m in used ==> m < n
    decreases |used|
  {
    if used == {} {
      n := 0;
    } else {
      var m :| m in used;
      var rest := Unused(used - {m});
      n := if rest <= m then m + 1 else rest;
      assert forall k :: k in used ==> k == m || k in used - {m};
    }
  }

  lemma WaitingGoesOn(s: State)
    requires s.handler.Waiting? && s.hasBCtx
    ensures CanGoOn(s)
  {
    var q := Unused(s.resumes.Keys);
    assert q !in s.resumes.Keys;
    var s1 := Next(s, AskResume(q, false)).value;
    var s2 := Next(s1, CheckCtx(q)).value;
    OfferedGoesOn(s2, q);
    StepToGoOn(s1, CheckCtx(q), s2);
    StepToGoOn(s, AskResume(q, false), s1);
  }

  lemma StoringGoesOn(s: State)
    requires s.handler.Storing?
    ensures CanGoOn(s)
  {
    WaitingGoesOn(Next(s, StoreCtx).value);
    StepToGoOn(s, StoreCtx, Next(s, StoreCtx).value);
  }

  lemma ReceivedGoesOn(s: State)
    requires s.handler.Offering? && s.forwarder.Receiving?
    ensures CanGoOn(s)
  {
    StoringGoesOn(Next(s, TakeStop).value);
    StepToGoOn(s, TakeStop, Next(s, TakeStop).value);
  }

  lemma ReportedGoesOn(s: State)
    requires s.handler.Offering? && !s.forwarder.Off?
    ensures CanGoOn(s)
  {
    if s.forwarder.Receiving? {
      ReceivedGoesOn(s);
    } else {
      ReceivedGoesOn(Next(s, SendStopped).value);
      StepToGoOn(s, SendStopped, Next(s, SendStopped).value);
    }
  }

  // From every reachable state the stop at hand can be ended and the build can go on, even when
  // an answer was lost: one more request is enough.
  lemma EveryStopCanEnd(steps: seq<Step>)
    requires AllLegal(steps) && Run(INIT, steps).Some?
    ensures CanGoOn(Run(INIT, steps).value)
  {
    RunIsTold(steps);
    var s := Run(INIT, steps).value;
    match s.handler {
      case Idle => IdleGoesOn(s);
      case Storing => StoringGoesOn(s);
      case Waiting => WaitingGoesOn(s);
      case Offering(_) =>
        if s.launch.Answered? {
          ReportedGoesOn(s);
        } else {
          var t := Next(s, Answer).value;
          ReportedGoesOn(t);
          StepToGoOn(s, Answer, t);
        }
    }
  }
}
