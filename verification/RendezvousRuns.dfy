// The rendezvous read off a run: what the log, the return of every notifyAndWait and the end of
// every loop are, said from the list of steps alone, and that no op has to wait for ever.
module RendezvousRuns {
  import opened Common
  import opened Rendezvous

  lemma {:induction false} RunSnoc(s: State, a: seq<Step>, step: Step)
    ensures Run(s, a + [step]) == if Run(s, a).None? then None else Next(Run(s, a).value, step)
    decreases |a|
  {
    if a == [] {
      assert [step][1..] == [];
      var t := Next(s, step);
      assert t.Some? ==> Run(t.value, []) == t;
    } else {
      var t := Next(s, a[0]);
      assert (a + [step])[0] == a[0] && (a + [step])[1..] == a[1..] + [step];
      if t.Some? {
        RunSnoc(t.value, a[1..], step);
      }
    }
  }

  lemma LastStep(steps: seq<Step>) returns (front: seq<Step>, step: Step)
    requires steps != [] && Run(INIT, steps).Some?
    ensures steps == front + [step] && front == steps[..|steps| - 1] && step == steps[|steps| - 1]
    ensures Run(INIT, front).Some? && Next(Run(INIT, front).value, step) == Run(INIT, steps)
  {
    front, step := steps[..|steps| - 1], steps[|steps| - 1];
    assert steps == front + [step];
    RunSnoc(INIT, front, step);
  }

  // ---- what the steps say --------------------------------------------------------

  // The id this waiter registered (0 if it never did).
  function RegisteredId(steps: seq<Step>, w: Waiter): Id {
    if steps == [] then 0
    else
      match steps[|steps| - 1]
      case Register(v, id) => if v == w then id else RegisteredId(steps[..|steps| - 1], w)
      case _ => RegisteredId(steps[..|steps| - 1], w)
  }

  // The event this loop took last (0 if it never took one).
  function TakenId(steps: seq<Step>, l: Loop): Id {
    if steps == [] then 0
    else
      match steps[|steps| - 1]
      case Deliver(w, m) =>
        if m == l then RegisteredId(steps[..|steps| - 1], w) else TakenId(steps[..|steps| - 1], l)
      case _ => TakenId(steps[..|steps| - 1], l)
  }

  // What is there to see of a step.
  function Seen(past: seq<Step>, step: Step): seq<Obs> {
    match step
    case Deliver(w, _) => [Delivered(RegisteredId(past, w))]
    case Continue(l) => [Finished(TakenId(past, l))]
    case HandleErr(l) => [Failed(TakenId(past, l))]
    case Wake(w) => [Woke(w, RegisteredId(past, w))]
    case Cancel(w) => [GaveUp(w, RegisteredId(past, w))]
    case _ => []
  }

  function SeenOf(steps: seq<Step>): seq<Obs> {
    if steps == [] then [] else SeenOf(steps[..|steps| - 1]) + Seen(steps[..|steps| - 1], steps[|steps| - 1])
  }

  ghost predicate IdsTold(s: State, steps: seq<Step>) {
    && (forall w :: w in s.waiters ==> s.waiters[w].id == RegisteredId(steps, w))
    && (forall l :: l in s.loops && Busy(s.loops[l]) ==> s.loops[l].id == TakenId(steps, l))
  }

  lemma StepTellsIds(s: State, front: seq<Step>, step: Step, t: State)
    requires IdsTold(s, front) && Next(s, step) == Some(t)
    ensures IdsTold(t, front + [step])
  {
    var steps := front + [step];
    assert steps[|steps| - 1] == step && steps[..|steps| - 1] == front;
    forall w | w in t.waiters
      ensures t.waiters[w].id == RegisteredId(steps, w)
    {
      assert !(step.Register? && step.w == w) ==> w in s.waiters && t.waiters[w].id == s.waiters[w].id;
    }
    forall l | l in t.loops && Busy(t.loops[l])
      ensures t.loops[l].id == TakenId(steps, l)
    {
      assert !(step.Deliver? && step.l == l) ==> l in s.loops && Busy(s.loops[l]) && t.loops[l].id == s.loops[l].id;
    }
  }

  lemma StepIsSeen(s: State, front: seq<Step>, step: Step, t: State)
    requires IdsTold(s, front) && Next(s, step) == Some(t) && !t.panicked
    ensures t.log == s.log + Seen(front, step)
  {
  }

  // In every run the log is exactly what the steps say, in their order: a taken event is the one
  // its waiter registered, and a finished or failed one is the one that loop took last.
  lemma {:induction false} LogIsTheSteps(steps: seq<Step>)
    requires Run(INIT, steps).Some?
    ensures Run(INIT, steps).value.log == SeenOf(steps)
    ensures IdsTold(Run(INIT, steps).value, steps)
    decreases |steps|
  {
    if steps == [] {
    } else {
      var front, step := LastStep(steps);
      LogIsTheSteps(front);
      RunKeepsInv(INIT, steps);
      StepTellsIds(Run(INIT, front).value, front, step, Run(INIT, steps).value);
      StepIsSeen(Run(INIT, front).value, front, step, Run(INIT, steps).value);
    }
  }

  // ---- what notifyAndWait and handle return -------------------------------------------

  predicate ReturnedWith(s: State, w: Waiter, ok: bool) {
    w in s.waiters && s.waiters[w].Returned? && s.waiters[w].ok == ok
  }

  predicate Over(s: State, l: Loop) {
    l in s.loops && s.loops[l].Ended?
  }

  ghost predicate ReturnsTold(s: State, steps: seq<Step>) {
    && (forall w :: ReturnedWith(s, w, true) <==> Wake(w) in steps)
    && (forall w :: ReturnedWith(s, w, false) <==> Cancel(w) in steps)
  }

  ghost predicate EndsTold(s: State, steps: seq<Step>) {
    forall l :: HandleErr(l) in steps || Stop(l) in steps ==> Over(s, l)
  }

  lemma StepTellsReturns(s: State, front: seq<Step>, step: Step, t: State)
    requires ReturnsTold(s, front) && Next(s, step) == Some(t)
    ensures ReturnsTold(t, front + [step])
  {
    forall w
      ensures ReturnedWith(t, w, true) <==> Wake(w) in front + [step]
      ensures ReturnedWith(t, w, false) <==> Cancel(w) in front + [step]
    {
      assert ReturnedWith(t, w, true) <==> ReturnedWith(s, w, true) || step == Wake(w);
      assert ReturnedWith(t, w, false) <==> ReturnedWith(s, w, false) || step == Cancel(w);
    }
  }

  lemma StepTellsEnds(s: State, front: seq<Step>, step: Step, t: State)
    requires EndsTold(s, front) && Next(s, step) == Some(t)
    ensures EndsTold(t, front + [step])
  {
    forall l | HandleErr(l) in front + [step] || Stop(l) in front + [step]
      ensures Over(t, l)
    {
      assert Over(s, l) || step == HandleErr(l) || step == Stop(l);
    }
  }

  lemma {:induction false} StepsTell(steps: seq<Step>)
    requires Run(INIT, steps).Some?
    ensures ReturnsTold(Run(INIT, steps).value, steps) && EndsTold(Run(INIT, steps).value, steps)
    decreases |steps|
  {
    if steps == [] {
    } else {
      var front, step := LastStep(steps);
      StepsTell(front);
      StepTellsReturns(Run(INIT, front).value, front, step, Run(INIT, steps).value);
      StepTellsEnds(Run(INIT, front).value, front, step, Run(INIT, steps).value);
    }
  }

  lemma {:induction false} InSeen(steps: seq<Step>, w: Waiter)
    ensures (exists id :: Woke(w, id) in SeenOf(steps)) <==> Wake(w) in steps
    ensures (exists id :: GaveUp(w, id) in SeenOf(steps)) <==> Cancel(w) in steps
    decreases |steps|
  {
    if steps == [] {
    } else {
      var front, step := steps[..|steps| - 1], steps[|steps| - 1];
      assert steps == front + [step];
      InSeen(front, w);
      var id := RegisteredId(front, w);
      assert step == Wake(w) ==> Woke(w, id) in Seen(front, step);
      assert step == Cancel(w) ==> GaveUp(w, id) in Seen(front, step);
    }
  }

  // notifyAndWait returns nil iff it was woken and an error iff its context was done, and the
  // log says so: of every call that has returned it holds exactly one of the two entries.
  lemma ReturnIsWakeOrCancel(steps: seq<Step>, w: Waiter, id: Id)
    requires Run(INIT, steps).Some?
    ensures var s := Run(INIT, steps).value;
            && (ReturnedWith(s, w, true) <==> Wake(w) in steps)
            && (ReturnedWith(s, w, false) <==> Cancel(w) in steps)
            && (Woke(w, id) in s.log <==> w in s.waiters && s.waiters[w] == Returned(id, true))
            && (GaveUp(w, id) in s.log <==> w in s.waiters && s.waiters[w] == Returned(id, false))
            // a call that has not returned can always be cancelled
            && (Next(s, Cancel(w)).Some? <==>
                  w in s.waiters && !ReturnedWith(s, w, true) && !ReturnedWith(s, w, false))
  {
    StepsTell(steps);
    LogIsTheSteps(steps);
    RunKeepsInv(INIT, steps);
    WokeIffNil(Run(INIT, steps).value, steps, w, id);
    GaveUpIffError(Run(INIT, steps).value, steps, w, id);
  }

  lemma WokeIffNil(s: State, steps: seq<Step>, w: Waiter, id: Id)
    requires Inv(s) && LogOk(s) && s.log == SeenOf(steps)
    requires ReturnedWith(s, w, true) <==> Wake(w) in steps
    ensures Woke(w, id) in s.log <==> w in s.waiters && s.waiters[w] == Returned(id, true)
  {
    InSeen(steps, w);
    EntriesName(s, w, id);
    if ReturnedWith(s, w, true) {
      var other :| Woke(w, other) in s.log;
      EntriesName(s, w, other);
    }
  }

  lemma GaveUpIffError(s: State, steps: seq<Step>, w: Waiter, id: Id)
    requires Inv(s) && LogOk(s) && s.log == SeenOf(steps)
    requires ReturnedWith(s, w, false) <==> Cancel(w) in steps
    ensures GaveUp(w, id) in s.log <==> w in s.waiters && s.waiters[w] == Returned(id, false)
  {
    InSeen(steps, w);
    EntriesName(s, w, id);
    if ReturnedWith(s, w, false) {
      var other :| GaveUp(w, other) in s.log;
      EntriesName(s, w, other);
    }
  }

  lemma EntriesName(s: State, w: Waiter, id: Id)
    requires Inv(s) && LogOk(s)
    ensures Woke(w, id) in s.log || GaveUp(w, id) in s.log ==> w in s.waiters && s.waiters[w].id == id
  {
    if Woke(w, id) in s.log || GaveUp(w, id) in s.log {
      var k :| 0 <= k < |s.log| && (s.log[k] == Woke(w, id) || s.log[k] == GaveUp(w, id));
      assert EntryOk(s, k);
    }
  }

  // A loop is over once its handler returned an error or its context was done, and a loop that
  // starts listens iff no other one is active; otherwise it is refused and changes nothing else.
  // A loop can be stopped whenever it is active and handles no event.
  lemma LoopLife(steps: seq<Step>, l: Loop)
    requires Run(INIT, steps).Some?
    ensures var s := Run(INIT, steps).value;
            && (HandleErr(l) in steps || Stop(l) in steps ==> Over(s, l))
            && (l !in s.loops ==>
                  var t := Next(s, Start(l));
                  && t.Some?
                  && (Active(t.value, l) <==> forall m :: !Active(s, m))
                  && (Over(t.value, l) ==> t.value == s.(loops := s.loops[l := Ended])))
            && (Next(s, Stop(l)).Some? <==> Active(s, l) && !Busy(s.loops[l]))
  {
    StepsTell(steps);
    RunKeepsInv(INIT, steps);
  }

  // ---- no op has to wait for ever -------------------------------------------------------

  ghost predicate CanReturnNil(s: State, w: Waiter) {
    exists more :: Run(s, more).Some? && ReturnedWith(Run(s, more).value, w, true)
  }

  lemma StepToReturn(s: State, step: Step, t: State, w: Waiter)
    requires Next(s, step) == Some(t) && CanReturnNil(t, w)
    ensures CanReturnNil(s, w)
  {
    var more :| Run(t, more).Some? && ReturnedWith(Run(t, more).value, w, true);
    RunOne(s, step, t, more);
  }

  lemma FinishedReturns(s: State, w: Waiter)
    requires Inv(s) && w in s.waiters && s.waiters[w].Sleeping? && s.waiters[w].id in s.finished
    ensures CanReturnNil(s, w)
  {
    var t := Next(s, Wake(w)).value;
    RunOne(s, Wake(w), t, []);
    assert ReturnedWith(t, w, true);
    assert Run(s, [Wake(w)] + []) == Some(t);
  }

  lemma ReleasingReturns(s: State, w: Waiter, l: Loop)
    requires Inv(s) && w in s.waiters && s.waiters[w].Sleeping?
    requires l in s.loops && s.loops[l] == Releasing(s.waiters[w].id)
    ensures CanReturnNil(s, w)
  {
    StepKeepsInv(s, Continue(l), Next(s, Continue(l)).value);
    FinishedReturns(Next(s, Continue(l)).value, w);
    StepToReturn(s, Continue(l), Next(s, Continue(l)).value, w);
  }

  lemma HandlingReturns(s: State, w: Waiter, l: Loop)
    requires Inv(s) && w in s.waiters && s.waiters[w].Sleeping?
    requires l in s.loops && s.loops[l] == Handling(s.waiters[w].id)
    ensures CanReturnNil(s, w)
  {
    var t := Next(s, HandleOk(l)).value;
    StepKeepsInv(s, HandleOk(l), t);
    ReleasingReturns(t, w, l);
    StepToReturn(s, HandleOk(l), t, w);
  }

  lemma SleepingReturns(s: State, w: Waiter)
    requires Inv(s) && w in s.waiters && s.waiters[w].Sleeping? && s.waiters[w].id !in s.failed
    ensures CanReturnNil(s, w)
  {
    var id := s.waiters[w].id;
    if id in s.finished {
      FinishedReturns(s, w);
    } else {
      assert BeingHandled(s, id);
      var l :| l in s.loops && Busy(s.loops[l]) && s.loops[l].id == id;
      if s.loops[l].Handling? {
        HandlingReturns(s, w, l);
      } else {
        ReleasingReturns(s, w, l);
      }
    }
  }

  lemma HeardReturns(s: State, w: Waiter, l: Loop)
    requires Inv(s) && w in s.waiters && s.waiters[w].Offering? && l in s.loops && s.loops[l].Listening?
    ensures CanReturnNil(s, w)
  {
    var t := Next(s, Deliver(w, l)).value;
    StepKeepsInv(s, Deliver(w, l), t);
    HandlingReturns(t, w, l);
    StepToReturn(s, Deliver(w, l), t, w);
  }

  lemma AfterReleaseReturns(s: State, w: Waiter, l: Loop)
    requires Inv(s) && w in s.waiters && s.waiters[w].Offering? && l in s.loops && s.loops[l].Releasing?
    ensures CanReturnNil(s, w)
  {
    StepKeepsInv(s, Continue(l), Next(s, Continue(l)).value);
    HeardReturns(Next(s, Continue(l)).value, w, l);
    StepToReturn(s, Continue(l), Next(s, Continue(l)).value, w);
  }

  lemma ActiveLoopReturns(s: State, w: Waiter, l: Loop)
    requires Inv(s) && w in s.waiters && s.waiters[w].Offering? && Active(s, l)
    ensures CanReturnNil(s, w)
  {
    match s.loops[l] {
      case Listening => HeardReturns(s, w, l);
      case Releasing(_) => AfterReleaseReturns(s, w, l);
      case Handling(_) =>
        var t := Next(s, HandleOk(l)).value;
        StepKeepsInv(s, HandleOk(l), t);
        AfterReleaseReturns(t, w, l);
        StepToReturn(s, HandleOk(l), t, w);
    }
  }

  lemma {:induction false} Unused(used: set<nat>) returns (n: nat)
    ensures forall m :: m in used ==> m < n
    decreases |used|
  {
    if used == {} {
      n := 0;
    } else {
      var m :| m in used;
      var rest := Unused(used - {m});
      n := if rest <= m then m + 1 else rest;
      assert forall k :: k in used ==> k == m || k in used - {m};
    }
  }

  // From every reachable state every op that has not returned can still be released with a nil
  // error, unless its own handler failed: whatever was cancelled, failed or stopped before.
  lemma EveryOpCanReturn(steps: seq<Step>, w: Waiter)
    requires Run(INIT, steps).Some?
    requires var s := Run(INIT, steps).value; w in s.waiters && !s.waiters[w].Returned?
    ensures var s := Run(INIT, steps).value;
            CanReturnNil(s, w) <==> s.waiters[w].id !in s.failed
  {
    RunKeepsInv(INIT, steps);
    var s := Run(INIT, steps).value;
    if s.waiters[w].id in s.failed {
      forall more | Run(s, more).Some?
        ensures !ReturnedWith(Run(s, more).value, w, true)
      {
        FailedNeverReturnsNil(s, more, w);
      }
    } else if s.waiters[w].Sleeping? {
      SleepingReturns(s, w);
    } else if l :| Active(s, l) {
      ActiveLoopReturns(s, w, l);
    } else {
      var l := Unused(s.loops.Keys);
      assert l !in s.loops.Keys;
      var t := Next(s, Start(l)).value;
      StepKeepsInv(s, Start(l), t);
      HeardReturns(t, w, l);
      StepToReturn(s, Start(l), t, w);
    }
  }

  lemma FailedStaysFailed(s: State, step: Step, t: State, w: Waiter)
    requires Next(s, step) == Some(t) && w in s.waiters && s.waiters[w].id in s.failed
    ensures w in t.waiters && t.waiters[w].id == s.waiters[w].id && t.waiters[w].id in t.failed
  {
  }

  lemma FailedIsNotNil(s: State, w: Waiter)
    requires Inv(s) && w in s.waiters && s.waiters[w].id in s.failed
    ensures !ReturnedWith(s, w, true)
  {
  }

  lemma {:induction false} FailedNeverReturnsNil(s: State, more: seq<Step>, w: Waiter)
    requires Inv(s) && Run(s, more).Some? && w in s.waiters && s.waiters[w].id in s.failed
    ensures !ReturnedWith(Run(s, more).value, w, true)
    decreases |more|
  {
    if more == [] {
      FailedIsNotNil(s, w);
    } else {
      var t := Next(s, more[0]).value;
      StepKeepsInv(s, more[0], t);
      FailedStaysFailed(s, more[0], t, w);
      FailedNeverReturnsNil(t, more[1..], w);
    }
  }
}
