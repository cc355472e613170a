// The shared stdin read off a run: whose turn it is, what was read and what became of it, said
// from the list of steps alone.
module SharedReaderRuns {
  import opened Common
  import opened SharedReader

  lemma {:induction false} RunSnoc(s: State, a: seq<Step>, step: Step)
    ensures Run(s, a + [step]) == if Run(s, a).None? then None else Next(Run(s, a).value, step)
    decreases |a|
  {
    if a == [] {
      assert [step][1..] == [];
      var t := Next(s, step);
      assert t.Some? ==> Run(t.value, []) == t;
    } else {
      var t := Next(s, a[0]);
      assert (a + [step])[0] == a[0] && (a + [step])[1..] == a[1..] + [step];
      if t.Some? {
        RunSnoc(t.value, a[1..], step);
      }
    }
  }

  lemma LastStep(steps: seq<Step>) returns (front: seq<Step>, step: Step)
    requires steps != [] && Run(INIT, steps).Some?
    ensures steps == front + [step] && front == steps[..|steps| - 1] && step == steps[|steps| - 1]
    ensures Run(INIT, front).Some? && Next(Run(INIT, front).value, step) == Run(INIT, steps)
  {
    front, step := steps[..|steps| - 1], steps[|steps| - 1];
    assert steps == front + [step];
    RunSnoc(INIT, front, step);
  }

  // ---- whose pipe is open ------------------------------------------------------------

  // The user who began last, unless it has called done or the input has ended since.
  function Current(steps: seq<Step>): Option<User> {
    if steps == [] then None
    else
      match steps[|steps| - 1]
      case Install(u) => Some(u)
      case DoneClose(_) => None
      case CloseAtEof => None
      case _ => Current(steps[..|steps| - 1])
  }

  ghost predicate InTurnAt(steps: seq<Step>, u: User, i: int) {
    && 0 <= i < |steps| && steps[i] == Install(u)
    && forall j :: i < j < |steps| ==> !steps[j].Install? && !steps[j].DoneClose? && !steps[j].CloseAtEof?
  }

  lemma {:induction false} CurrentMeans(steps: seq<Step>, u: User)
    ensures Current(steps) == Some(u) <==> exists i :: InTurnAt(steps, u, i)
    decreases |steps|
  {
    if steps == [] {
    } else {
      var front, step := steps[..|steps| - 1], steps[|steps| - 1];
      CurrentMeans(front, u);
      if step == Install(u) {
        assert InTurnAt(steps, u, |steps| - 1);
      }
      if i :| InTurnAt(front, u, i) {
        if !step.Install? && !step.DoneClose? && !step.CloseAtEof? {
          assert InTurnAt(steps, u, i);
        }
      }
      if i :| InTurnAt(steps, u, i) {
        assert i < |front| ==> front[i] == steps[i] && InTurnAt(front, u, i);
      }
    }
  }

  lemma StepTurns(s: State, front: seq<Step>, step: Step, t: State)
    requires LocksOk(s) && LocksOk(t) && s.currentW == Current(front) && Next(s, step) == Some(t)
    ensures t.currentW == Current(front + [step])
  {
    assert (front + [step])[..|front|] == front;
  }

  lemma {:induction false} CurrentIs(steps: seq<Step>)
    requires Run(INIT, steps).Some?
    ensures Run(INIT, steps).value.currentW == Current(steps)
    ensures LocksOk(Run(INIT, steps).value)
    decreases |steps|
  {
    if steps == [] {
    } else {
      var front, step := LastStep(steps);
      CurrentIs(front);
      StepKeepsLocks(Run(INIT, front).value, step, Run(INIT, steps).value);
      StepTurns(Run(INIT, front).value, front, step, Run(INIT, steps).value);
    }
  }

  // A pipe is open, and its user is the one the reader writes to, iff that user began last and
  // neither called done nor met the end of input since. In particular the end of input closes
  // the pipe of every user that had begun before it.
  lemma PipeIsOpenIff(steps: seq<Step>, u: User)
    requires Run(INIT, steps).Some?
    ensures var s := Run(INIT, steps).value;
            && (u in s.open <==> exists i :: InTurnAt(steps, u, i))
            && (s.currentW == Some(u) <==> exists i :: InTurnAt(steps, u, i))
  {
    CurrentIs(steps);
    CurrentMeans(steps, u);
  }

  // ---- what was read, and what of it arrived ---------------------------------------------

  function ReadBy(step: Step): seq<Byte> {
    match step
    case ReadChunk(chunk) => chunk
    case _ => []
  }

  // All bytes the reader ever got, in order.
  function InputOf(steps: seq<Step>): seq<Byte> {
    if steps == [] then [] else InputOf(steps[..|steps| - 1]) + ReadBy(steps[|steps| - 1])
  }

  function TakenBy(step: Step): nat {
    match step
    case Consume(n) => n
    case _ => 0
  }

  // How many bytes users have read.
  function ArrivedOf(steps: seq<Step>): nat {
    if steps == [] then 0 else ArrivedOf(steps[..|steps| - 1]) + TakenBy(steps[|steps| - 1])
  }

  function Arrivals(fates: seq<Fate>): nat {
    if fates == [] then 0
    else Arrivals(fates[..|fates| - 1]) + if fates[|fates| - 1].DeliveredTo? then 1 else 0
  }

  lemma {:induction false} MoreArrivals(fates: seq<Fate>, fate: Fate, n: nat)
    ensures Arrivals(fates + Repeat(fate, n)) == Arrivals(fates) + if fate.DeliveredTo? then n else 0
    decreases n
  {
    if n == 0 {
      assert fates + Repeat(fate, 0) == fates;
    } else {
      var more := fates + Repeat(fate, n);
      MoreArrivals(fates, fate, n - 1);
      assert more[..|more| - 1] == fates + Repeat(fate, n - 1);
    }
  }

  ghost predicate Told(s: State, steps: seq<Step>) {
    && s.taken == InputOf(steps)
    && Arrivals(s.fates) == ArrivedOf(steps)
    && (s.reader.Stopped? <==> Quit in steps)
  }

  lemma StepArrives(s: State, step: Step, t: State)
    requires Next(s, step) == Some(t)
    ensures Arrivals(t.fates) == Arrivals(s.fates) + TakenBy(step)
  {
    match step {
      case Consume(n) => MoreArrivals(s.fates, DeliveredTo(s.reader.dest.value), n);
      case WriteReturns =>
        MoreArrivals(s.fates, Discarded, |s.reader.rest|);
        MoreArrivals(s.fates, Dropped, |s.reader.rest|);
      case _ => assert t.fates == s.fates;
    }
  }

  lemma StepReads(s: State, step: Step, t: State)
    requires Next(s, step) == Some(t)
    ensures t.taken == s.taken + ReadBy(step)
    ensures t.reader.Stopped? <==> s.reader.Stopped? || step == Quit
  {
  }

  lemma StepTells(s: State, front: seq<Step>, step: Step, t: State)
    requires Told(s, front) && Next(s, step) == Some(t)
    ensures Told(t, front + [step])
  {
    assert (front + [step])[..|front|] == front;
    StepArrives(s, step, t);
    StepReads(s, step, t);
  }

  // In every run the bytes taken are those the reads returned, in order, and as many arrived as
  // users read: none is dropped while it is being read. The reader has stopped iff it was told to.
  lemma {:induction false} InputIsTheReads(steps: seq<Step>)
    requires Run(INIT, steps).Some?
    ensures Told(Run(INIT, steps).value, steps)
    decreases |steps|
  {
    if steps == [] {
    } else {
      var front, step := LastStep(steps);
      InputIsTheReads(front);
      StepTells(Run(INIT, front).value, front, step, Run(INIT, steps).value);
    }
  }

  // While a user's pipe is open it can read any part of what is being written to it, and gets
  // the next bytes of the input.
  lemma ReadGetsNextBytes(steps: seq<Step>, u: User, n: nat)
    requires Run(INIT, steps).Some?
    requires var s := Run(INIT, steps).value;
             s.reader.Writing? && s.reader.dest == Some(u) && n <= |s.reader.rest|
    ensures var s := Run(INIT, steps).value;
            var t := Next(s, Consume(n));
            && (t.Some? <==> exists i :: InTurnAt(steps, u, i))
            && (t.Some? ==>
                  |s.fates| + n <= |s.taken|
                  && Received(t.value, u) == Received(s, u) + s.taken[|s.fates|..|s.fates| + n]
                  && t.value.fates == s.fates + Repeat(DeliveredTo(u), n))
  {
    PipeIsOpenIff(steps, u);
    InputIsConserved(steps, u);
  }

  // stdin is free for the next user iff every earlier one is gone.
  lemma FreeIffAllGone(steps: seq<Step>, u: User)
    requires Run(INIT, steps).Some? && u !in Run(INIT, steps).value.users
    ensures var s := Run(INIT, steps).value;
            Next(s, Lock(u)).Some? <==> forall v :: v in s.users ==> s.users[v].Gone?
  {
    StepsFree(steps);
  }

  ghost predicate HolderStays(s: State) {
    s.useMu.Some? ==> s.useMu.value in s.users && !s.users[s.useMu.value].Gone?
  }

  lemma {:induction false} StepsFree(steps: seq<Step>)
    requires Run(INIT, steps).Some?
    ensures HolderStays(Run(INIT, steps).value) && LocksOk(Run(INIT, steps).value)
    decreases |steps|
  {
    if steps == [] {
    } else {
      var front, step := LastStep(steps);
      StepsFree(front);
      StepKeepsLocks(Run(INIT, front).value, step, Run(INIT, steps).value);
    }
  }

  // ---- nobody has to wait for ever ----------------------------------------------------

  lemma RunFirst(s: State, step: Step, t: State, rest: seq<Step>)
    requires Next(s, step) == Some(t)
    ensures Run(s, [step] + rest) == Run(t, rest)
  {
    assert ([step] + rest)[1..] == rest;
  }

  // The reader can read on after some steps of its own and of the user it writes to.
  lemma ReaderGoesOn(steps: seq<Step>)
    requires Run(INIT, steps).Some? && Quit !in steps
    ensures var s := Run(INIT, steps).value;
            exists more :: Run(s, more).Some? && Run(s, more).value.reader.Top?
  {
    InputIsTheReads(steps);
    var s := Run(INIT, steps).value;
    if s.reader.AtEof? {
      var t := Next(s, CloseAtEof).value;
      RunFirst(s, CloseAtEof, t, []);
    } else if s.reader.Got? {
      var t := Next(s, Snapshot).value;
      var more := WritingEnds(t);
      RunFirst(s, Snapshot, t, more);
    } else if s.reader.Writing? {
      var more := WritingEnds(s);
    } else {
      assert Run(s, []) == Some(s);
    }
  }

  lemma WritingEnds(s: State) returns (more: seq<Step>)
    requires s.reader.Writing?
    ensures Run(s, more).Some? && Run(s, more).value.reader.Top?
  {
    if Next(s, WriteReturns).Some? {
      more := [WriteReturns] + [];
      RunFirst(s, WriteReturns, Next(s, WriteReturns).value, []);
    } else {
      var t := Next(s, Consume(|s.reader.rest|)).value;
      more := [Consume(|s.reader.rest|)] + ([WriteReturns] + []);
      RunFirst(s, Consume(|s.reader.rest|), t, [WriteReturns] + []);
      RunFirst(t, WriteReturns, Next(t, WriteReturns).value, []);
    }
  }

  // A user that holds stdin can leave it by steps of its own.
  lemma UserCanLeave(steps: seq<Step>, u: User)
    requires Run(INIT, steps).Some? && u in Run(INIT, steps).value.users
    ensures var s := Run(INIT, steps).value;
            exists more :: Run(s, more).Some? && u in Run(s, more).value.users && Run(s, more).value.users[u].Gone?
  {
    CurrentIs(steps);
    var more := Leaving(Run(INIT, steps).value, u);
  }

  function PhaseRank(ph: UserPhase): nat {
    match ph
    case Locked => 3
    case Using => 2
    case Closing => 1
    case Gone => 0
  }

  lemma {:induction false} Leaving(s: State, u: User) returns (more: seq<Step>)
    requires LocksOk(s) && u in s.users
    ensures Run(s, more).Some? && u in Run(s, more).value.users && Run(s, more).value.users[u].Gone?
    decreases PhaseRank(s.users[u])
  {
    if s.users[u].Gone? {
      more := [];
    } else {
      var step := match s.users[u]
                  case Locked => Install(u)
                  case Using => DoneClose(u)
                  case _ => DoneUnlock(u);
      var t := Next(s, step).value;
      StepKeepsLocks(s, step, t);
      var rest := Leaving(t, u);
      more := [step] + rest;
      RunFirst(s, step, t, rest);
    }
  }

  // ---- Ctrl-D at a prompt ---------------------------------------------------------------

  // One user begins and the input ends: its pipe is closed, so that its read ends too.
  lemma EndOfInputEndsPrompt(u: User)
    ensures var steps := [Lock(u)] + [Install(u)] + [ReadEof] + [CloseAtEof];
            && Run(INIT, steps).Some?
            && u !in Run(INIT, steps).value.open && Run(INIT, steps).value.currentW.None?
            && Run(INIT, steps).value.users == map[u := Using]
  {
    assert [Lock(u)] == [] + [Lock(u)] && Run(INIT, []) == Some(INIT);
    RunSnoc(INIT, [], Lock(u));
    RunSnoc(INIT, [Lock(u)], Install(u));
    RunSnoc(INIT, [Lock(u)] + [Install(u)], ReadEof);
    RunSnoc(INIT, [Lock(u)] + [Install(u)] + [ReadEof], CloseAtEof);
  }
}
