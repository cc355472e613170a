// When a DAP stop lasts until the client answers it. A resume request that is accepted while no
// stop is waiting for one stays in the channel, and the next stop consumes it at once.
module EarlyResume {
  import opened Common
  import opened Breakpoints
  import Session
  import opened Dap
  import opened Handshake

  // Some stop was ended by a request accepted before that stop was even received: the request
  // that ended stop number i had been accepted with at most i stops received.
  ghost predicate Early(s: State) {
    exists i :: EndedEarly(s, i)
  }

  ghost predicate EndedEarly(s: State, i: int) {
    0 <= i < |s.resumed| && s.resumed[i] in s.since && s.since[s.resumed[i]] <= i
  }

  // At most one accepted request is waiting, and it was accepted for the stop at hand.
  ghost predicate Calm(s: State) {
    || Pending(s) == {}
    || (|Pending(s)| == 1 && |s.taken| == |s.resumed| + 1
        && forall q :: q in Pending(s) ==> q in s.since && s.since[q] == |s.taken|)
  }

  // No accepted request is waiting, and there is a stop that no request has ended.
  predicate Unanswered(s: State) {
    |s.accepted| == |s.resumed| < |s.taken|
  }

  lemma ConsumeStaysCalm(s: State, q: Request, t: State)
    requires Inv(s) && Calm(s) && !Early(s) && Next(s, TakeResume(q)) == Some(t)
    ensures Calm(t) && !Early(t)
  {
    StepPending(s, TakeResume(q), t);
    assert |Pending(t)| == |Pending(s)| - 1 == 0;
    assert Pending(t) == {};
    forall i
      ensures !EndedEarly(t, i)
    {
      assert !EndedEarly(s, i);
    }
  }

  lemma UnchangedStaysCalm(s: State, t: State)
    requires Calm(s) && !Early(s)
    requires t.resumed == s.resumed && t.since == s.since && Pending(t) == Pending(s)
    requires t.taken == s.taken || Pending(s) == {}
    ensures Calm(t) && !Early(t)
  {
    assert forall i :: EndedEarly(t, i) ==> EndedEarly(s, i);
  }

  lemma QuietStepStaysCalm(s: State, step: Step, t: State)
    requires Inv(s) && Calm(s) && !Early(s) && Next(s, step) == Some(t) && !step.CheckCtx?
    ensures Calm(t) && !Early(t)
  {
    if step.TakeResume? {
      ConsumeStaysCalm(s, step.q, t);
    } else {
      StepPending(s, step, t);
      OthersChangeNothing(s, step, t);
      UnchangedStaysCalm(s, t);
    }
  }

  lemma OthersChangeNothing(s: State, step: Step, t: State)
    requires CountsOk(s) && Calm(s) && Next(s, step) == Some(t) && !step.CheckCtx? && !step.TakeResume?
    ensures t.resumed == s.resumed && t.since == s.since
    ensures t.taken == s.taken || Pending(s) == {}
  {
  }

  // Accepting a request keeps the session calm iff the client had an unanswered stop.
  lemma AcceptStaysCalmIff(s: State, q: Request, t: State)
    requires Inv(s) && Calm(s) && !Early(s) && Next(s, CheckCtx(q)) == Some(t)
    ensures !Early(t)
    ensures Calm(t) <==> !s.hasBCtx || Unanswered(s)
  {
    StepPending(s, CheckCtx(q), t);
    assert q !in s.resumed;
    assert s.hasBCtx ==> |Pending(t)| == |Pending(s)| + 1;
    assert Pending(s) == {} <==> |Pending(s)| == 0;
    forall i
      ensures !EndedEarly(t, i)
    {
      assert !EndedEarly(s, i);
    }
  }

  // ---- clients that answer stops --------------------------------------------------------

  // Every request is accepted while there is an unanswered stop.
  ghost predicate Polite(s: State, steps: seq<Step>)
    decreases |steps|
  {
    steps == [] ||
    (var t := Next(s, steps[0]);
     && (steps[0].CheckCtx? && s.hasBCtx ==> Unanswered(s))
     && (t.Some? ==> Polite(t.value, steps[1..])))
  }

  lemma {:induction false} PoliteStaysCalm(s: State, steps: seq<Step>)
    requires Inv(s) && Calm(s) && !Early(s)
    requires AllLegal(steps) && Run(s, steps).Some? && Polite(s, steps)
    ensures Calm(Run(s, steps).value) && !Early(Run(s, steps).value)
    decreases |steps|
  {
    if steps == [] {
    } else {
      var t := Next(s, steps[0]).value;
      if steps[0].CheckCtx? {
        AcceptStaysCalmIff(s, steps[0].q, t);
      } else {
        QuietStepStaysCalm(s, steps[0], t);
      }
      StepKeepsInv(s, steps[0], t);
      PoliteStaysCalm(t, steps[1..]);
    }
  }

  // If every request is accepted while there is an unanswered stop, every stop that has ended
  // was ended by a request accepted after it.
  lemma PoliteClientEndsItsStops(steps: seq<Step>)
    requires AllLegal(steps) && Run(INIT, steps).Some? && Polite(INIT, steps)
    ensures var s := Run(INIT, steps).value;
            forall i :: 0 <= i < |s.resumed| ==> s.resumed[i] in s.since && s.since[s.resumed[i]] > i
  {
    InitOk();
    assert Pending(INIT) == {};
    assert forall i :: !EndedEarly(INIT, i);
    PoliteStaysCalm(INIT, steps);
    RunKeepsInv(INIT, steps);
    var s := Run(INIT, steps).value;
    forall i | 0 <= i < |s.resumed|
      ensures s.resumed[i] in s.since && s.since[s.resumed[i]] > i
    {
      assert s.resumed[i] in s.resumed;
      assert !EndedEarly(s, i);
    }
  }

  // What a client can check by itself: it sends one request at most per StoppedEvent it was sent.
  ghost predicate OneAnswerEach(s: State, steps: seq<Step>)
    decreases |steps|
  {
    steps == [] ||
    (var t := Next(s, steps[0]);
     && (steps[0].AskResume? ==> |s.resumes.Keys| < |Reported(s.out)|)
     && (t.Some? ==> OneAnswerEach(t.value, steps[1..])))
  }

  // Requests whose check is still to come, and requests that failed it.
  function InFlight(s: State): set<Request> {
    set q | q in s.resumes && s.resumes[q].Asked?
  }

  function Lost(s: State): set<Request> {
    set q | q in s.resumes && s.resumes[q].Ignored?
  }

  function Elements(rs: seq<Request>): set<Request> {
    set q | q in rs
  }

  lemma {:induction false} DistinctCard(rs: seq<Request>)
    requires forall i, j :: 0 <= i < j < |rs| ==> rs[i] != rs[j]
    ensures |Elements(rs)| == |rs|
  {
    if rs == [] {
      assert Elements(rs) == {};
    } else {
      var last := |rs| - 1;
      DistinctCard(rs[..last]);
      assert rs == rs[..last] + [rs[last]];
      assert Elements(rs) == Elements(rs[..last]) + {rs[last]};
      assert rs[last] !in rs[..last];
    }
  }

  // Every request asked for is in flight, lost, waiting, or has ended a stop.
  lemma RequestsAddUp(s: State)
    requires ResumesOk(s)
    ensures |s.resumes.Keys| == |InFlight(s)| + |Lost(s)| + |Pending(s)| + |s.resumed|
  {
    DistinctCard(s.resumed);
    PhasesPartition(s);
    FourParts(InFlight(s), Lost(s), Pending(s), Elements(s.resumed));
  }

  lemma PhasesPartition(s: State)
    requires ResumesOk(s)
    ensures s.resumes.Keys == InFlight(s) + Lost(s) + Pending(s) + Elements(s.resumed)
    ensures InFlight(s) !! Lost(s) !! Pending(s) !! Elements(s.resumed)
  {
    forall q
      ensures q in s.resumes.Keys <==> q in InFlight(s) + Lost(s) + Pending(s) + Elements(s.resumed)
    {
      if q in s.resumes {
        match s.resumes[q] {
          case Asked(_) => assert q in InFlight(s);
          case Ignored => assert q in Lost(s);
          case Offered => assert q in Pending(s);
          case Consumed => assert q in Elements(s.resumed);
        }
      }
    }
  }

  lemma FourParts<T>(a: set<T>, b: set<T>, c: set<T>, d: set<T>)
    requires a !! b !! c !! d
    ensures |a + b + c + d| == |a| + |b| + |c| + |d|
  {
    assert |a + b + c + d| == |a + b + c| + |d|;
    assert |a + b + c| == |a + b| + |c|;
  }

  // No more requests than stops reported, and if one was lost there has been one stop only.
  ghost predicate Answering(s: State) {
    && |s.resumes.Keys| <= |Reported(s.out)|
    && (Lost(s) != {} ==> |s.taken| == 1)
  }

  lemma ReportedAreTaken(s: State)
    requires ForwarderOk(s)
    ensures |Reported(s.out)| <= |s.taken|
  {
  }

  // With a stop reported, a request is ignored iff it is checked before the first stop has
  // stored its context.
  lemma AnswerIsLostIff(steps: seq<Step>, q: Request)
    requires AllLegal(steps) && Run(INIT, steps).Some?
    requires var s := Run(INIT, steps).value;
             Reported(s.out) != [] && Next(s, CheckCtx(q)).Some?
    ensures var s := Run(INIT, steps).value;
            Next(s, CheckCtx(q)).value.resumes[q].Ignored? <==> |s.taken| == 1 && s.handler.Storing?
  {
    InitOk();
    RunKeepsInv(INIT, steps);
    CheckIsLostIff(Run(INIT, steps).value, q);
  }

  lemma CheckIsLostIff(s: State, q: Request)
    requires CountsOk(s) && ForwarderOk(s) && Reported(s.out) != [] && Next(s, CheckCtx(q)).Some?
    ensures Next(s, CheckCtx(q)).value.resumes[q].Ignored? <==> |s.taken| == 1 && s.handler.Storing?
  {
    ReportedAreTaken(s);
  }

  // At a check one request at least is in flight, so no more are accepted than stops reported.
  lemma CheckIsPolite(s: State, q: Request)
    requires Inv(s) && Answering(s) && Next(s, CheckCtx(q)).Some?
    ensures s.hasBCtx ==> Unanswered(s)
  {
    assert q in InFlight(s);
    RequestsAddUp(s);
    ReportedAreTaken(s);
  }

  // Once the answer to the first stop is lost, this stop stays.
  lemma LostAnswerStays(s: State, step: Step, t: State)
    requires Inv(s) && Answering(s) && Lost(s) != {} && Next(s, step) == Some(t)
    ensures |t.taken| == 1
  {
    RequestsAddUp(s);
    ReportedAreTaken(s);
  }

  lemma StepAsks(s: State, step: Step, t: State)
    requires Next(s, step) == Some(t)
    ensures t.resumes.Keys == if step.AskResume? then s.resumes.Keys + {step.q} else s.resumes.Keys
  {
  }

  lemma StepLoses(s: State, step: Step, t: State)
    requires CountsOk(s) && ForwarderOk(s) && Answering(s) && Lost(s) == {} && Next(s, step) == Some(t)
    ensures Lost(t) != {} ==> |t.taken| == 1
  {
    if step.CheckCtx? {
      assert step.q in s.resumes.Keys;
      ReportedAreTaken(s);
    } else {
      assert forall q :: q in Lost(t) ==> q in Lost(s);
    }
  }

  lemma StepKeepsAnswering(s: State, step: Step, t: State)
    requires Inv(s) && Answering(s) && Next(s, step) == Some(t)
    requires step.AskResume? ==> |s.resumes.Keys| < |Reported(s.out)|
    ensures Answering(t)
  {
    StepReports(s, step, t);
    StepAsks(s, step, t);
    if Lost(s) != {} {
      LostAnswerStays(s, step, t);
    } else {
      StepLoses(s, step, t);
    }
  }

  lemma {:induction false} OneAnswerIsPolite(s: State, steps: seq<Step>)
    requires Inv(s) && Answering(s)
    requires AllLegal(steps) && Run(s, steps).Some? && OneAnswerEach(s, steps)
    ensures Polite(s, steps) && Answering(Run(s, steps).value)
    decreases |steps|
  {
    if steps == [] {
    } else {
      var t := Next(s, steps[0]).value;
      if steps[0].CheckCtx? {
        CheckIsPolite(s, steps[0].q);
      }
      StepKeepsAnswering(s, steps[0], t);
      StepKeepsInv(s, steps[0], t);
      OneAnswerIsPolite(t, steps[1..]);
    }
  }

  // A client that sends one request at most per StoppedEvent: every stop that has ended was ended
  // by a request accepted after it. When it has answered all stops, the stop at hand (if there is
  // one) can be ended iff no answer was lost; and if one was lost it is the first one, the first
  // stop is still there, and nothing waits to end it.
  lemma OneAnswerClient(steps: seq<Step>)
    requires AllLegal(steps) && Run(INIT, steps).Some? && OneAnswerEach(INIT, steps)
    ensures var s := Run(INIT, steps).value;
            && (forall i :: 0 <= i < |s.resumed| ==> s.resumed[i] in s.since && s.since[s.resumed[i]] > i)
            && (InFlight(s) == {} && |s.resumes.Keys| == |s.taken| ==>
                  (Lost(s) == {} <==> s.handler.Idle? || s.handler.Offering? || Pending(s) != {}))
            && (Lost(s) != {} ==>
                  |s.taken| == 1 && s.resumed == [] && Pending(s) == {} && !s.handler.Idle? && !s.handler.Offering?)
  {
    InitOk();
    assert INIT.resumes.Keys == {} && Lost(INIT) == {};
    OneAnswerIsPolite(INIT, steps);
    PoliteClientEndsItsStops(steps);
    RunKeepsInv(INIT, steps);
    var s := Run(INIT, steps).value;
    RequestsAddUp(s);
    ReportedAreTaken(s);
    assert Lost(s) == {} <==> |Lost(s)| == 0;
    assert Pending(s) == {} <==> |Pending(s)| == 0;
  }

  // ---- the exact condition -----------------------------------------------------------------

  ghost predicate NothingAccepted(steps: seq<Step>) {
    forall i :: 0 <= i < |steps| ==> !steps[i].CheckCtx?
  }

  // Without accepting anything more, some stop can be over before the client answered it.
  ghost predicate CanEndEarly(s: State) {
    exists more :: EndsEarlyBy(s, more)
  }

  ghost predicate EndsEarlyBy(s: State, more: seq<Step>) {
    NothingAccepted(more) && AllLegal(more) && Run(s, more).Some? && Early(Run(s, more).value)
  }

  lemma {:induction false} CalmNeverEndsEarly(s: State, more: seq<Step>)
    requires Inv(s) && Calm(s) && !Early(s)
    requires NothingAccepted(more) && AllLegal(more) && Run(s, more).Some?
    ensures !Early(Run(s, more).value)
    decreases |more|
  {
    if more == [] {
    } else {
      var t := Next(s, more[0]).value;
      QuietStepStaysCalm(s, more[0], t);
      StepKeepsInv(s, more[0], t);
      CalmNeverEndsEarly(t, more[1..]);
    }
  }

  lemma EarlyByThenEarly(s: State, step: Step, t: State)
    requires Next(s, step) == Some(t) && !step.CheckCtx? && Legal(step) && CanEndEarly(t)
    ensures CanEndEarly(s)
  {
    var more :| EndsEarlyBy(t, more);
    assert ([step] + more)[1..] == more;
    assert EndsEarlyBy(s, [step] + more);
  }

  lemma AlreadyEarly(s: State)
    requires Early(s)
    ensures CanEndEarly(s)
  {
    assert EndsEarlyBy(s, []);
  }

  // A waiting handler consumes a request that is older than its stop.
  lemma WaitingEndsEarly(s: State, q: Request)
    requires Inv(s) && s.handler.Waiting? && q in Pending(s) && s.since[q] < |s.taken|
    ensures CanEndEarly(s)
  {
    var t := Next(s, TakeResume(q)).value;
    assert t.resumed[|s.resumed|] == q && EndedEarly(t, |s.resumed|);
    AlreadyEarly(t);
    EarlyByThenEarly(s, TakeResume(q), t);
  }

  lemma StoringEndsEarly(s: State, q: Request)
    requires Inv(s) && s.handler.Storing? && q in Pending(s) && s.since[q] < |s.taken|
    ensures CanEndEarly(s)
  {
    var t := Next(s, StoreCtx).value;
    StepKeepsInv(s, StoreCtx, t);
    assert q in Pending(t);
    WaitingEndsEarly(t, q);
    EarlyByThenEarly(s, StoreCtx, t);
  }

  // A request accepted before the stop on offer ends that stop.
  lemma ReceivedOfferEndsEarly(s: State, q: Request)
    requires Inv(s) && s.handler.Offering? && s.forwarder.Receiving? && q in Pending(s)
    ensures CanEndEarly(s)
  {
    var t := Next(s, TakeStop).value;
    StepKeepsInv(s, TakeStop, t);
    assert q in Pending(t) && t.since[q] < |t.taken|;
    StoringEndsEarly(t, q);
    EarlyByThenEarly(s, TakeStop, t);
  }

  lemma OfferEndsEarly(s: State, q: Request)
    requires Inv(s) && s.handler.Offering? && q in Pending(s)
    ensures CanEndEarly(s)
  {
    if s.forwarder.Receiving? {
      ReceivedOfferEndsEarly(s, q);
    } else {
      var t := Next(s, SendStopped).value;
      StepKeepsInv(s, SendStopped, t);
      assert q in Pending(t);
      ReceivedOfferEndsEarly(t, q);
      EarlyByThenEarly(s, SendStopped, t);
    }
  }

  const FAILED_OP := Session.Event(Status("", Some("")), [Location(SourceInfo(0, "", []), [])])

  // In an idle session a failing op is enough.
  lemma IdleEndsEarly(s: State, q: Request)
    requires Inv(s) && s.handler.Idle? && q in Pending(s)
    ensures CanEndEarly(s)
  {
    var e := FAILED_OP;
    HitsIffFailedOrLineHit(s.table, s.req.name, s.req.lines, e.status, e.locs);
    assert e.locs != [];
    var t := Next(s, OpFinished(e)).value;
    StepKeepsInv(s, OpFinished(e), t);
    assert q in Pending(t);
    OfferEndsEarly(t, q);
    EarlyByThenEarly(s, OpFinished(e), t);
  }

  // Of two requests for the same stop the second one ends the next stop.
  lemma SecondRequestEndsNextStop(s: State, p: Request, q: Request)
    requires Inv(s) && s.handler.Waiting? && p in Pending(s) && q in Pending(s) && p != q
    ensures CanEndEarly(s)
  {
    var t := Next(s, TakeResume(p)).value;
    StepKeepsInv(s, TakeResume(p), t);
    assert q in Pending(t);
    IdleEndsEarly(t, q);
    EarlyByThenEarly(s, TakeResume(p), t);
  }

  lemma RestlessEndsEarly(s: State)
    requires Inv(s) && !Calm(s)
    ensures CanEndEarly(s)
  {
    var q :| q in Pending(s);
    if s.handler.Idle? {
      IdleEndsEarly(s, q);
    } else if s.handler.Offering? {
      OfferEndsEarly(s, q);
    } else if p :| p in Pending(s) && s.since[p] != |s.taken| {
      if s.handler.Storing? {
        StoringEndsEarly(s, p);
      } else {
        WaitingEndsEarly(s, p);
      }
    } else {
      assert Pending(s) != {q};
      var p :| p in Pending(s) && p != q;
      if s.handler.Storing? {
        var t := Next(s, StoreCtx).value;
        StepKeepsInv(s, StoreCtx, t);
        assert p in Pending(t) && q in Pending(t);
        SecondRequestEndsNextStop(t, p, q);
        EarlyByThenEarly(s, StoreCtx, t);
      } else {
        SecondRequestEndsNextStop(s, p, q);
      }
    }
  }

  // In every reachable state: some stop can end unanswered, without the client asking for
  // anything more, iff one already did or the session is not calm.
  lemma EndsEarlyIff(steps: seq<Step>)
    requires AllLegal(steps) && Run(INIT, steps).Some?
    ensures var s := Run(INIT, steps).value;
            CanEndEarly(s) <==> Early(s) || !Calm(s)
  {
    InitOk();
    RunKeepsInv(INIT, steps);
    var s := Run(INIT, steps).value;
    if Early(s) {
      AlreadyEarly(s);
    } else if !Calm(s) {
      RestlessEndsEarly(s);
    } else if more :| EndsEarlyBy(s, more) {
      CalmNeverEndsEarly(s, more);
    }
  }

  // A stop on offer can be over before the client has seen it iff a request is already waiting.
  lemma OfferEndsEarlyIff(steps: seq<Step>)
    requires AllLegal(steps) && Run(INIT, steps).Some?
    requires Run(INIT, steps).value.handler.Offering? && !Early(Run(INIT, steps).value)
    ensures var s := Run(INIT, steps).value;
            CanEndEarly(s) <==> Pending(s) != {}
  {
    EndsEarlyIff(steps);
    InitOk();
    RunKeepsInv(INIT, steps);
  }

  // ---- a run where it happens -----------------------------------------------------------------

  lemma {:induction false} OneAnswerAppend(s: State, a: seq<Step>, step: Step)
    requires Run(s, a).Some? && OneAnswerEach(s, a)
    requires step.AskResume? ==> |Run(s, a).value.resumes.Keys| < |Reported(Run(s, a).value.out)|
    ensures OneAnswerEach(s, a + [step])
    decreases |a|
  {
    if a == [] {
      assert [step][1..] == [];
    } else {
      OneAnswerAppend(Next(s, a[0]).value, a[1..], step);
      assert (a + [step])[1..] == a[1..] + [step];
    }
  }

  // A run of a client that sends one request at most per StoppedEvent.
  ghost predicate Reaches(steps: seq<Step>, s: State) {
    AllLegal(steps) && Run(INIT, steps) == Some(s) && OneAnswerEach(INIT, steps)
  }

  lemma OneMore(steps: seq<Step>, step: Step, t: State)
    requires AllLegal(steps) && Legal(step)
    requires Run(INIT, steps).Some? && Next(Run(INIT, steps).value, step) == Some(t)
    ensures AllLegal(steps + [step]) && Run(INIT, steps + [step]) == Some(t)
  {
    RunAppend(INIT, steps, [step]);
    assert [step][1..] == [];
  }

  lemma Extend(steps: seq<Step>, s: State, step: Step) returns (longer: seq<Step>, t: State)
    requires Reaches(steps, s) && Legal(step) && Next(s, step).Some?
    requires step.AskResume? ==> |s.resumes.Keys| < |Reported(s.out)|
    ensures Reaches(longer, t) && Next(s, step) == Some(t)
  {
    longer, t := steps + [step], Next(s, step).value;
    OneMore(steps, step, t);
    OneAnswerAppend(INIT, steps, step);
  }

  // The first stop of a session, on its way to the client.
  lemma FirstStop() returns (steps: seq<Step>, s: State)
    ensures Reaches(steps, s)
    ensures s.handler.Storing? && s.forwarder.Sending? && s.launch.Answered? && s.resumes == map[]
    ensures !s.hasBCtx
  {
    steps, s := [], INIT;
    assert Run(INIT, []) == Some(INIT) && OneAnswerEach(INIT, []);
    steps, s := Extend(steps, s, Launch(0, true, Session.CLI));
    steps, s := Extend(steps, s, Announce);
    steps, s := Extend(steps, s, Answer);
    steps, s := Extend(steps, s, OpFinished(FAILED_OP));
    steps, s := Extend(steps, s, TakeStop);
  }

  // The client is told about the first stop and answers it, and the answer is checked before
  // the context of the stop is stored: it is lost, and the stop waits for another one.
  lemma FirstAnswerCanBeLost()
    ensures exists steps, s :: Reaches(steps, s) && s.handler.Waiting? && Lost(s) == {0}
                               && |s.resumes.Keys| == 1 && Pending(s) == {}
  {
    var steps, s := FirstStop();
    ReportedSnoc(s.out, Stopped(s.forwarder.ids));
    steps, s := Extend(steps, s, SendStopped);
    assert s.resumes.Keys == {};
    steps, s := Extend(steps, s, AskResume(0, false));
    steps, s := Extend(steps, s, CheckCtx(0));
    steps, s := Extend(steps, s, StoreCtx);
    assert s.resumes == map[0 := Ignored];
    assert s.resumes.Keys == {0};
  }

  // A request asked and accepted while a stop is waiting, told as two more steps of a run.
  lemma AskAndAccept(steps: seq<Step>, q: Request) returns (longer: seq<Step>)
    requires AllLegal(steps) && Run(INIT, steps).Some?
    requires var s := Run(INIT, steps).value; s.handler.Waiting? && s.hasBCtx && q !in s.resumes
    ensures AllLegal(longer) && Run(INIT, longer).Some?
    ensures var s, t := Run(INIT, steps).value, Run(INIT, longer).value;
            && t.handler.Waiting? && t.hasBCtx
            && t.resumes == s.resumes[q := Offered]
  {
    var s := Run(INIT, steps).value;
    var s1 := Next(s, AskResume(q, false)).value;
    OneMore(steps, AskResume(q, false), s1);
    var s2 := Next(s1, CheckCtx(q)).value;
    OneMore(steps + [AskResume(q, false)], CheckCtx(q), s2);
    longer := steps + [AskResume(q, false)] + [CheckCtx(q)];
  }

  // Two continue requests for the first stop: the second one ends the next stop.
  lemma TwoRequestsEndNextStop()
    ensures exists steps :: AllLegal(steps) && Run(INIT, steps).Some? && Early(Run(INIT, steps).value)
  {
    var steps, s0 := FirstStop();
    steps, s0 := Extend(steps, s0, StoreCtx);
    var one := AskAndAccept(steps, 0);
    var two := AskAndAccept(one, 1);
    InitOk();
    RunKeepsInv(INIT, two);
    var s := Run(INIT, two).value;
    assert 0 in Pending(s) && 1 in Pending(s);
    SecondRequestEndsNextStop(s, 0, 1);
    var more :| EndsEarlyBy(s, more);
    RunAppend(INIT, two, more);
    assert AllLegal(two + more);
  }
}
