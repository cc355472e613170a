// The pause/resume rendezvous of pkg/buildkit/controller.go. Any number of ops call
// notifyAndWait, any number of handle loops are started over time, contexts are cancelled
// at any moment; every interleaving is a sequence of the steps below.
module Rendezvous {
  import opened Common

  type Id = nat      // identity.NewID
  type Chan = nat    // handle of a pause channel
  type Waiter = nat  // one notifyAndWait call
  type Loop = nat    // one debugController.handle call

  // The pause map, the channels closed so far, and the next unused channel handle.
  datatype Pauses = Pauses(pause: map<Id, Chan>, closed: set<Chan>, next: Chan)

  function Wait(p: Pauses, id: Id): Pauses {
    Pauses(p.pause[id := p.next], p.closed, p.next + 1)
  }

  // None is the panic of closing a closed channel.
  function ContinueId(p: Pauses, id: Id): Option<Pauses> {
    if id !in p.pause then Some(p)
    else if p.pause[id] in p.closed then None
    else Some(Pauses(p.pause - {id}, p.closed + {p.pause[id]}, p.next))
  }

  // Live channels are pairwise distinct and open, and all handles were made.
  ghost predicate PausesOk(p: Pauses) {
    && (forall i, j :: i in p.pause && j in p.pause && p.pause[i] == p.pause[j] ==> i == j)
    && (forall i :: i in p.pause ==> p.pause[i] !in p.closed && p.pause[i] < p.next)
    && (forall c :: c in p.closed ==> c < p.next)
  }

  class DebugController {
    var pause: map<Id, Chan>
    var closed: set<Chan>
    var next: Chan

    function View(): Pauses
      reads this
    {
      Pauses(pause, closed, next)
    }

    constructor ()
      ensures View() == Pauses(map[], {}, 0) && PausesOk(View())
    {
      pause, closed, next := map[], {}, 0;
    }

    method WaitFor(id: Id) returns (ch: Chan)
      requires PausesOk(View())
      modifies this
      ensures View() == Wait(old(View()), id)
      ensures ch == old(next) && pause[id] == ch && ch !in closed
      ensures PausesOk(View())
    {
      ch := next;
      next := next + 1;
      pause := pause[id := ch];
    }

    // Closing is legal on every call, and closes this id's channel only.
    method ContinueID(id: Id)
      requires PausesOk(View())
      modifies this
      ensures ContinueId(old(View()), id) == Some(View())
      ensures PausesOk(View()) && id !in pause
    {
      if id in pause {
        var ch := pause[id];
        assert ch !in closed;
        closed := closed + {ch};
        pause := pause - {id};
      }
    }
  }

  // ---- the step system -------------------------------------------------------

  datatype WaiterPhase =
    | Offering(id: Id, ch: Chan)   // registered, blocked on sending its status
    | Sleeping(id: Id, ch: Chan)   // status taken, blocked on its pause channel
    | Returned(id: Id, ok: bool)   // ok is a nil error

  datatype LoopPhase =
    | Listening
    | Handling(id: Id)    // the handler runs on this event
    | Releasing(id: Id)   // the handler returned nil, continueID comes next
    | Ended

  datatype Obs =
    | Delivered(id: Id)
    | Finished(id: Id)
    | Failed(id: Id)
    | Woke(w: Waiter, id: Id)
    | GaveUp(w: Waiter, id: Id)

  // owner, delivered, finished, failed and log are history.
  datatype State = State(
    p: Pauses,
    waiters: map<Waiter, WaiterPhase>,
    loops: map<Loop, LoopPhase>,
    handleStarted: bool,
    panicked: bool,
    owner: map<Id, Waiter>,
    delivered: set<Id>,
    finished: set<Id>,
    failed: set<Id>,
    log: seq<Obs>)

  const INIT := State(Pauses(map[], {}, 0), map[], map[], false, false, map[], {}, {}, {}, [])

  datatype Step =
    | Register(w: Waiter, id: Id)
    | Start(l: Loop)
    | Deliver(w: Waiter, l: Loop)
    | HandleOk(l: Loop)
    | HandleErr(l: Loop)
    | Continue(l: Loop)
    | Stop(l: Loop)       // the loop's own context is done
    | Wake(w: Waiter)
    | Cancel(w: Waiter)   // the waiter's context is done

  // None when the step is not enabled.
  function Next(s: State, step: Step): Option<State> {
    match step
    case Register(w, id) =>
      if w in s.waiters || id in s.owner then None
      else Some(s.(p := Wait(s.p, id), waiters := s.waiters[w := Offering(id, s.p.next)], owner := s.owner[id := w]))
    case Start(l) =>
      if l in s.loops then None
      else if s.handleStarted then Some(s.(loops := s.loops[l := Ended]))
      else Some(s.(loops := s.loops[l := Listening], handleStarted := true))
    case Deliver(w, l) =>
      if !(w in s.waiters && s.waiters[w].Offering? && l in s.loops && s.loops[l].Listening?) then None
      else
        var id := s.waiters[w].id;
        Some(s.(waiters := s.waiters[w := Sleeping(id, s.waiters[w].ch)], loops := s.loops[l := Handling(id)],
                delivered := s.delivered + {id}, log := s.log + [Delivered(id)]))
    case HandleOk(l) =>
      if !(l in s.loops && s.loops[l].Handling?) then None
      else Some(s.(loops := s.loops[l := Releasing(s.loops[l].id)]))
    case HandleErr(l) =>
      if !(l in s.loops && s.loops[l].Handling?) then None
      else
        var id := s.loops[l].id;
        Some(s.(loops := s.loops[l := Ended], handleStarted := false,
                failed := s.failed + {id}, log := s.log + [Failed(id)]))
    case Continue(l) =>
      if !(l in s.loops && s.loops[l].Releasing?) then None
      else
        var id := s.loops[l].id;
        var p := ContinueId(s.p, id);
        if p.None? then Some(s.(panicked := true))
        else Some(s.(p := p.value, loops := s.loops[l := Listening],
                     finished := s.finished + {id}, log := s.log + [Finished(id)]))
    case Stop(l) =>
      if !(l in s.loops && s.loops[l].Listening?) then None
      else Some(s.(loops := s.loops[l := Ended], handleStarted := false))
    case Wake(w) =>
      if !(w in s.waiters && s.waiters[w].Sleeping? && s.waiters[w].ch in s.p.closed) then None
      else
        var id := s.waiters[w].id;
        Some(s.(waiters := s.waiters[w := Returned(id, true)], log := s.log + [Woke(w, id)]))
    case Cancel(w) =>
      if !(w in s.waiters && !s.waiters[w].Returned?) then None
      else
        var id := s.waiters[w].id;
        Some(s.(waiters := s.waiters[w := Returned(id, false)], log := s.log + [GaveUp(w, id)]))
  }

  function Run(s: State, steps: seq<Step>): Option<State>
    decreases |steps|
  {
    if steps == [] then Some(s)
    else
      var t := Next(s, steps[0]);
      if t.None? then None else Run(t.value, steps[1..])
  }

  // ---- the invariant -----------------------------------------------------------

  predicate Busy(ph: LoopPhase) {
    ph.Handling? || ph.Releasing?
  }

  predicate Active(s: State, l: Loop) {
    l in s.loops && !s.loops[l].Ended?
  }

  ghost predicate LoopsOk(s: State) {
    && (s.handleStarted <==> exists l :: Active(s, l))
    && (forall l, m :: Active(s, l) && Active(s, m) ==> l == m)
    && (forall l :: l in s.loops && Busy(s.loops[l]) ==>
          var id := s.loops[l].id;
          id in s.owner && id in s.delivered && id !in s.finished && id !in s.failed)
  }

  ghost predicate WaitersOk(s: State) {
    forall w :: w in s.waiters ==>
      var ph := s.waiters[w];
      && ph.id in s.owner && s.owner[ph.id] == w
      && (ph.Offering? ==> ph.id !in s.delivered)
      && (ph.Sleeping? ==> ph.id in s.delivered)
      && (!ph.Returned? ==>
            if ph.id in s.finished then ph.ch in s.p.closed
            else ph.id in s.p.pause && s.p.pause[ph.id] == ph.ch)
      && (ph.Returned? && ph.ok ==> ph.id in s.finished)
  }

  ghost predicate HistoryOk(s: State) {
    && s.p.pause.Keys == s.owner.Keys - s.finished
    && s.delivered <= s.owner.Keys && s.finished <= s.delivered && s.failed <= s.delivered - s.finished
    && (forall id :: id in s.owner ==> s.owner[id] in s.waiters && s.waiters[s.owner[id]].id == id)
  }

  // A taken event is finished, failed, or in the hands of a loop.
  ghost predicate NoneForgotten(s: State) {
    forall id :: id in s.delivered && id !in s.finished && id !in s.failed ==> BeingHandled(s, id)
  }

  ghost predicate BeingHandled(s: State, id: Id) {
    exists l :: l in s.loops && Busy(s.loops[l]) && s.loops[l].id == id
  }

  // The order of the log: taken, then finished, then woken, each at most once per event.
  ghost predicate LogOk(s: State) {
    && (forall id :: id in s.delivered <==> Delivered(id) in s.log)
    && (forall id :: id in s.finished <==> Finished(id) in s.log)
    && (forall id :: id in s.failed <==> Failed(id) in s.log)
    && (forall k :: 0 <= k < |s.log| ==> EntryOk(s, k))
  }

  // Every event taken so far is finished or failed.
  ghost predicate AllSettled(log: seq<Obs>) {
    forall id :: Delivered(id) in log ==> Finished(id) in log || Failed(id) in log
  }

  ghost predicate EntryOk(s: State, k: nat)
    requires k < |s.log|
  {
    match s.log[k]
    case Delivered(id) => Delivered(id) !in s.log[..k] && AllSettled(s.log[..k])
    case Finished(id) => Delivered(id) in s.log[..k] && Finished(id) !in s.log[..k]
    case Failed(id) => Delivered(id) in s.log[..k]
    case Woke(w, id) => Finished(id) in s.log[..k] && id in s.owner && s.owner[id] == w
    case GaveUp(w, id) => id in s.owner && s.owner[id] == w
  }

  ghost predicate Inv(s: State) {
    && !s.panicked
    && PausesOk(s.p)
    && LoopsOk(s)
    && HistoryOk(s)
    && NoneForgotten(s)
    && WaitersOk(s)
  }

  // A running loop is the only running loop.
  lemma OnlyLoop(s: State, l: Loop)
    requires LoopsOk(s) && Active(s, l)
    ensures s.handleStarted
    ensures forall m :: m in s.loops && m != l ==> s.loops[m].Ended?
  {
    forall m | m in s.loops && m != l
      ensures s.loops[m].Ended?
    {
      assert Active(s, m) ==> m == l;
    }
  }

  predicate OfLoop(step: Step) {
    step.Deliver? || step.HandleOk? || step.HandleErr? || step.Continue? || step.Stop?
  }

  lemma StepKeepsPauses(s: State, step: Step, t: State)
    requires Inv(s) && Next(s, step) == Some(t)
    ensures !t.panicked && PausesOk(t.p)
  {
  }

  lemma StepKeepsLoops(s: State, step: Step, t: State)
    requires Inv(s) && Next(s, step) == Some(t)
    ensures LoopsOk(t)
  {
    if OfLoop(step) {
      OnlyLoop(s, step.l);
      assert forall m :: m in t.loops && m != step.l ==> t.loops[m].Ended?;
      assert Active(t, step.l) <==> !(step.HandleErr? || step.Stop?);
    } else if step.Start? {
      if !s.handleStarted {
        assert forall m :: m in s.loops ==> !Active(s, m);
        assert Active(t, step.l);
      } else {
        assert forall m :: Active(t, m) <==> Active(s, m);
      }
    } else {
      assert t.loops == s.loops && t.handleStarted == s.handleStarted;
      assert forall m :: Active(t, m) <==> Active(s, m);
    }
  }

  lemma StepKeepsHandling(s: State, step: Step, t: State, id: Id)
    requires Inv(s) && Next(s, step) == Some(t)
    requires id in t.delivered && id !in t.finished && id !in t.failed
    ensures BeingHandled(t, id)
  {
    if step.Deliver? && id == s.waiters[step.w].id {
      assert t.loops[step.l] == Handling(id);
    } else {
      var l :| l in s.loops && Busy(s.loops[l]) && s.loops[l].id == id;
      assert Active(s, l);
      assert step.Deliver? ==> Active(s, step.l);
      assert l in t.loops && Busy(t.loops[l]) && t.loops[l].id == id;
    }
  }

  lemma StepKeepsHistory(s: State, step: Step, t: State)
    requires HistoryOk(s) && LoopsOk(s) && WaitersOk(s) && Next(s, step) == Some(t) && !t.panicked
    ensures HistoryOk(t)
  {
  }

  lemma StepKeepsWaiters(s: State, step: Step, t: State)
    requires Inv(s) && Next(s, step) == Some(t)
    ensures WaitersOk(t)
  {
  }

  lemma StepKeepsInv(s: State, step: Step, t: State)
    requires Inv(s) && Next(s, step) == Some(t)
    ensures Inv(t)
  {
    StepKeepsPauses(s, step, t);
    StepKeepsLoops(s, step, t);
    StepKeepsHistory(s, step, t);
    forall id | id in t.delivered && id !in t.finished && id !in t.failed
      ensures BeingHandled(t, id)
    {
      StepKeepsHandling(s, step, t, id);
    }
    StepKeepsWaiters(s, step, t);
  }

  // A step logs at most one entry, and a proper one.
  lemma StepLogsProperly(s: State, step: Step, t: State)
    requires Inv(s) && LogOk(s) && Next(s, step) == Some(t)
    ensures t.log == s.log || (t.log == s.log + [t.log[|s.log|]] && EntryOk(t, |s.log|))
  {
    assert t.log != s.log ==> t.log[..|s.log|] == s.log;
    if step.Deliver? {
      DeliverFindsAllSettled(s, step.w, step.l);
    } else if OfLoop(step) {
      OnlyLoop(s, step.l);
    }
  }

  lemma OwnersStay(s: State, step: Step, t: State)
    requires Next(s, step) == Some(t)
    ensures forall id :: id in s.owner ==> id in t.owner && t.owner[id] == s.owner[id]
  {
  }

  lemma DeliverFindsAllSettled(s: State, w: Waiter, l: Loop)
    requires Inv(s) && LogOk(s) && Next(s, Deliver(w, l)).Some?
    ensures AllSettled(s.log)
  {
    assert Active(s, l);
    OnlyLoop(s, l);
  }

  lemma StepLogsSets(s: State, step: Step, t: State)
    requires LogOk(s) && Next(s, step) == Some(t)
    ensures forall id :: id in t.delivered <==> Delivered(id) in t.log
    ensures forall id :: id in t.finished <==> Finished(id) in t.log
    ensures forall id :: id in t.failed <==> Failed(id) in t.log
  {
  }

  lemma StepKeepsLog(s: State, step: Step, t: State)
    requires Inv(s) && LogOk(s) && Next(s, step) == Some(t)
    ensures LogOk(t)
  {
    StepLogsProperly(s, step, t);
    OwnersStay(s, step, t);
    StepLogsSets(s, step, t);
    KeepEntries(s, t);
  }

  lemma KeepEntries(s: State, t: State)
    requires forall k :: 0 <= k < |s.log| ==> EntryOk(s, k)
    requires forall id :: id in s.owner ==> id in t.owner && t.owner[id] == s.owner[id]
    requires t.log == s.log || (|t.log| == |s.log| + 1 && t.log[..|s.log|] == s.log && EntryOk(t, |s.log|))
    ensures forall k :: 0 <= k < |t.log| ==> EntryOk(t, k)
  {
    forall k | 0 <= k < |t.log|
      ensures EntryOk(t, k)
    {
      if k < |s.log| {
        assert EntryOk(s, k);
        assert t.log[k] == s.log[k] && t.log[..k] == s.log[..k];
      }
    }
  }

  lemma {:induction false} RunKeepsInv(s: State, steps: seq<Step>)
    requires Inv(s) && LogOk(s) && Run(s, steps).Some?
    ensures Inv(Run(s, steps).value) && LogOk(Run(s, steps).value)
    decreases |steps|
  {
    if steps == [] {
    } else {
      var t := Next(s, steps[0]).value;
      StepKeepsInv(s, steps[0], t);
      StepKeepsLog(s, steps[0], t);
      RunKeepsInv(t, steps[1..]);
    }
  }

  // Every reachable state of the rendezvous is safe: no channel is closed twice, live channels
  // are distinct and open, one loop at most is running, and what it handles is still in pause.
  lemma ReachableIsSafe(steps: seq<Step>)
    requires Run(INIT, steps).Some?
    ensures var s := Run(INIT, steps).value;
            && !s.panicked
            && PausesOk(s.p)
            && (forall l, m :: Active(s, l) && Active(s, m) ==> l == m)
            && (forall l :: l in s.loops && Busy(s.loops[l]) ==> s.loops[l].id in s.p.pause)
            // the pause map holds exactly the registered events that were never finished
            && s.p.pause.Keys == s.owner.Keys - s.finished
  {
    RunKeepsInv(INIT, steps);
  }

  // notifyAndWait returns nil only for the waiter's own event, and only after that event was
  // taken and then finished by a handler loop.
  lemma WokenAfterOwnEvent(steps: seq<Step>, k: nat, w: Waiter, id: Id)
    requires Run(INIT, steps).Some?
    requires k < |Run(INIT, steps).value.log| && Run(INIT, steps).value.log[k] == Woke(w, id)
    ensures var s := Run(INIT, steps).value;
            && id in s.owner && s.owner[id] == w
            && w in s.waiters && s.waiters[w].id == id
            && exists i, j :: 0 <= i < j < k && s.log[i] == Delivered(id) && s.log[j] == Finished(id)
  {
    RunKeepsInv(INIT, steps);
    var s := Run(INIT, steps).value;
    assert EntryOk(s, k);
    var j :| 0 <= j < k && s.log[..k][j] == Finished(id);
    assert EntryOk(s, j);
    var i :| 0 <= i < j && s.log[..j][i] == Delivered(id);
    assert s.log[i] == Delivered(id) && s.log[j] == Finished(id);
  }

  // Events are handled strictly one after the other, across all loops ever started: before an
  // event is taken, every event taken earlier has been finished or has failed.
  lemma HandlingIsSerial(steps: seq<Step>, i: nat, k: nat, a: Id, b: Id)
    requires Run(INIT, steps).Some?
    requires i < k < |Run(INIT, steps).value.log|
    requires Run(INIT, steps).value.log[i] == Delivered(a) && Run(INIT, steps).value.log[k] == Delivered(b)
    ensures var log := Run(INIT, steps).value.log;
            a != b && exists j :: i < j < k && (log[j] == Finished(a) || log[j] == Failed(a))
  {
    RunKeepsInv(INIT, steps);
    SerialLog(Run(INIT, steps).value, i, k, a, b);
  }

  lemma SerialLog(s: State, i: nat, k: nat, a: Id, b: Id)
    requires LogOk(s)
    requires i < k < |s.log| && s.log[i] == Delivered(a) && s.log[k] == Delivered(b)
    ensures a != b && exists j :: i < j < k && (s.log[j] == Finished(a) || s.log[j] == Failed(a))
  {
    assert EntryOk(s, k);
    assert s.log[..k][i] == Delivered(a);
    var j :| 0 <= j < k && (s.log[..k][j] == Finished(a) || s.log[..k][j] == Failed(a));
    assert EntryOk(s, j) && EntryOk(s, i);
    var first :| 0 <= first < j && s.log[..j][first] == Delivered(a);
    DeliveredOnce(s, i, first, a);
  }

  lemma DeliveredOnce(s: State, i: nat, j: nat, id: Id)
    requires LogOk(s) && i < |s.log| && j < |s.log|
    requires s.log[i] == Delivered(id) && s.log[j] == Delivered(id)
    ensures i == j
  {
    assert EntryOk(s, i) && EntryOk(s, j);
    assert forall p, q :: 0 <= p < q < |s.log| ==> s.log[..q][p] == s.log[p];
  }

  // Conversely a nil return is always recorded by such a wake-up.
  lemma NilReturnIsFinished(steps: seq<Step>, w: Waiter)
    requires Run(INIT, steps).Some?
    requires w in Run(INIT, steps).value.waiters && Run(INIT, steps).value.waiters[w].Returned?
    requires Run(INIT, steps).value.waiters[w].ok
    ensures Finished(Run(INIT, steps).value.waiters[w].id) in Run(INIT, steps).value.log
  {
    RunKeepsInv(INIT, steps);
  }

  // No lost wake-up: a sleeping waiter can wake, is being handled, or its handler failed.
  lemma NoLostWakeup(steps: seq<Step>, w: Waiter)
    requires Run(INIT, steps).Some?
    requires w in Run(INIT, steps).value.waiters && Run(INIT, steps).value.waiters[w].Sleeping?
    ensures var s := Run(INIT, steps).value;
            var id := s.waiters[w].id;
            if id in s.finished then Next(s, Wake(w)).Some?
            else Next(s, Wake(w)).None? && (BeingHandled(s, id) || id in s.failed)
  {
    RunKeepsInv(INIT, steps);
  }

  // ---- what stays in pause -------------------------------------------------------

  // The event's waiter gave up before the event was taken, or its handler returned an error.
  ghost predicate Abandoned(s: State, id: Id) {
    && id in s.owner && s.owner[id] in s.waiters
    && (id in s.failed || (id !in s.delivered && s.waiters[s.owner[id]].Returned?))
  }

  predicate OnOffer(s: State, id: Id) {
    id in s.owner && s.owner[id] in s.waiters && s.waiters[s.owner[id]].Offering?
  }

  // In every reachable state the pause map holds exactly the events on offer, the event being
  // handled, and the abandoned ones.
  lemma PauseIsExact(steps: seq<Step>, id: Id)
    requires Run(INIT, steps).Some?
    ensures var s := Run(INIT, steps).value;
            id in s.p.pause <==> OnOffer(s, id) || BeingHandled(s, id) || Abandoned(s, id)
  {
    RunKeepsInv(INIT, steps);
    var s := Run(INIT, steps).value;
    if id in s.p.pause && id in s.delivered && id !in s.failed {
      assert BeingHandled(s, id);
    }
    if BeingHandled(s, id) {
      var l :| l in s.loops && Busy(s.loops[l]) && s.loops[l].id == id;
      assert id in s.delivered && id !in s.finished;
    }
  }

  // No op is waiting and no event is being handled.
  ghost predicate Quiet(s: State) {
    && (forall w :: w in s.waiters ==> s.waiters[w].Returned?)
    && (forall l :: l in s.loops ==> !Busy(s.loops[l]))
  }

  // In a quiet state exactly the abandoned entries are left, so pause has drained iff every
  // event was taken before its waiter gave up and no handler failed.
  lemma PauseDrainsIff(steps: seq<Step>)
    requires Run(INIT, steps).Some? && Quiet(Run(INIT, steps).value)
    ensures var s := Run(INIT, steps).value;
            && (forall id :: id in s.p.pause <==> Abandoned(s, id))
            && (s.p.pause == map[] <==>
                  (forall w :: w in s.waiters ==> Delivered(s.waiters[w].id) in s.log)
                  && forall id :: Failed(id) !in s.log)
  {
    RunKeepsInv(INIT, steps);
    var s := Run(INIT, steps).value;
    forall id
      ensures id in s.p.pause <==> Abandoned(s, id)
    {
      PauseIsExact(steps, id);
    }
    if s.p.pause == map[] {
      forall id
        ensures !Abandoned(s, id)
      {
        assert id !in s.p.pause;
      }
      assert forall id :: id in s.failed ==> Abandoned(s, id);
      assert forall w :: w in s.waiters && s.waiters[w].id !in s.delivered ==> Abandoned(s, s.waiters[w].id);
    } else {
      var id :| id in s.p.pause;
      assert Abandoned(s, id);
    }
  }

  lemma AbandonedForGood(s: State, step: Step, t: State, id: Id)
    requires Inv(s) && Next(s, step) == Some(t) && Abandoned(s, id)
    ensures Abandoned(t, id)
  {
    if step.Continue? || step.HandleErr? {
      OnlyLoop(s, step.l);
    }
  }

  // Such an entry stays in the pause map whatever happens later.
  lemma {:induction false} AbandonedEntriesStay(s: State, steps: seq<Step>, id: Id)
    requires Inv(s) && Run(s, steps).Some? && Abandoned(s, id)
    ensures id in Run(s, steps).value.p.pause
    decreases |steps|
  {
    if steps == [] {
    } else {
      var t := Next(s, steps[0]).value;
      StepKeepsInv(s, steps[0], t);
      AbandonedForGood(s, steps[0], t, id);
      AbandonedEntriesStay(t, steps[1..], id);
    }
  }

  lemma RunOne(s: State, step: Step, t: State, rest: seq<Step>)
    requires Next(s, step) == Some(t)
    ensures Run(s, [step] + rest) == Run(t, rest)
    ensures Run(t, []) == Some(t)
  {
    assert ([step] + rest)[1..] == rest;
  }

  // One waiter that gives up before delivery is enough to leave an entry behind.
  lemma CancelledWaiterLeavesEntry()
    ensures var r := Run(INIT, [Register(0, 7)] + ([Cancel(0)] + []));
            && r.Some? && Quiet(r.value)
            && r.value.waiters == map[0 := Returned(7, false)]
            && r.value.p.pause.Keys == {7}
  {
    var s1 := Next(INIT, Register(0, 7)).value;
    var s2 := Next(s1, Cancel(0)).value;
    RunOne(s1, Cancel(0), s2, []);
    RunOne(INIT, Register(0, 7), s1, [Cancel(0)] + []);
  }

  // So is one handler that returns an error.
  lemma FailedHandlerLeavesEntry()
    ensures var steps := [Start(0)] + ([Register(0, 7)] + ([Deliver(0, 0)] + ([HandleErr(0)] + ([Cancel(0)] + []))));
            var r := Run(INIT, steps);
            && r.Some? && Quiet(r.value)
            && r.value.loops == map[0 := Ended]
            && r.value.p.pause.Keys == {7}
  {
    var s1 := Next(INIT, Start(0)).value;
    var s2 := Next(s1, Register(0, 7)).value;
    var s3 := Next(s2, Deliver(0, 0)).value;
    var s4 := Next(s3, HandleErr(0)).value;
    var s5 := Next(s4, Cancel(0)).value;
    RunOne(s4, Cancel(0), s5, []);
    RunOne(s3, HandleErr(0), s4, [Cancel(0)] + []);
    RunOne(s2, Deliver(0, 0), s3, [HandleErr(0)] + ([Cancel(0)] + []));
    RunOne(s1, Register(0, 7), s2, [Deliver(0, 0)] + ([HandleErr(0)] + ([Cancel(0)] + [])));
    RunOne(INIT, Start(0), s1, [Register(0, 7)] + ([Deliver(0, 0)] + ([HandleErr(0)] + ([Cancel(0)] + []))));
  }
}
