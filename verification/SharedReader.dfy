// stdin shared between the prompt and exec: sharedReader of commands.go, as a system of
// interleaved steps of the reader goroutine and of any number of users.
module SharedReader {
  import opened Common

  type User = nat  // one use() call

  datatype UserPhase =
    | Locked    // holds useMu, pipe not installed yet
    | Using     // use() returned
    | Closing   // done() has run its critical section, useMu still held
    | Gone      // useMu released

  datatype ReaderPhase =
    | Top                                            // at the head of the loop
    | Got(chunk: seq<Byte>)                          // read, destination not looked up yet
    | Writing(dest: Option<User>, rest: seq<Byte>)   // blocked in Write; None is io.Discard
    | AtEof                                          // read returned io.EOF
    | Stopped

  // What became of one byte of stdin.
  datatype Fate = DeliveredTo(u: User) | Discarded | Dropped

  // taken, dests, turns, fates, received and began are history: the bytes read, the writer found
  // by the snapshot for each of them and how many users had begun by then, what became of them,
  // what each user read, and the users in the order they began.
  datatype State = State(
    reader: ReaderPhase,
    currentW: Option<User>,
    useMu: Option<User>,
    users: map<User, UserPhase>,
    open: set<User>,
    panicked: bool,
    taken: seq<Byte>,
    dests: seq<Option<User>>,
    turns: seq<nat>,
    fates: seq<Fate>,
    received: map<User, seq<Byte>>,
    began: seq<User>)

  const INIT := State(Top, None, None, map[], {}, false, [], [], [], [], map[], [])

  datatype Step =
    // the reader goroutine
    | ReadChunk(chunk: seq<Byte>)
    | ReadEof
    | Quit              // done is closed, or the read failed
    | CloseAtEof
    | Snapshot
    | Consume(n: nat)   // the user reads n bytes of the blocked write
    | WriteReturns
    // a user
    | Lock(u: User)
    | Install(u: User)
    | DoneClose(u: User)
    | DoneUnlock(u: User)

  function Repeat<T>(x: T, n: nat): (s: seq<T>)
    ensures |s| == n && forall i :: 0 <= i < n ==> s[i] == x
  {
    seq(n, _ => x)
  }

  // None when the step is not enabled.
  function Next(s: State, step: Step): Option<State> {
    match step
    case ReadChunk(chunk) =>
      if !s.reader.Top? then None else Some(s.(reader := Got(chunk), taken := s.taken + chunk))
    case ReadEof =>
      if !s.reader.Top? then None else Some(s.(reader := AtEof))
    case Quit =>
      if !s.reader.Top? then None else Some(s.(reader := Stopped))
    case CloseAtEof =>
      if !s.reader.AtEof? then None
      else if s.currentW.None? then Some(s.(reader := Top))
      else Some(s.(reader := Top, open := s.open - {s.currentW.value}, currentW := None))
    case Snapshot =>
      if !s.reader.Got? then None
      else Some(s.(reader := Writing(s.currentW, s.reader.chunk),
                   dests := s.dests + Repeat(s.currentW, |s.reader.chunk|),
                   turns := s.turns + Repeat(|s.began|, |s.reader.chunk|)))
    case Consume(n) =>
      if !(s.reader.Writing? && s.reader.dest.Some? && s.reader.dest.value in s.open && n <= |s.reader.rest|) then None
      else
        var u := s.reader.dest.value;
        var got := if u in s.received then s.received[u] else [];
        Some(s.(reader := Writing(s.reader.dest, s.reader.rest[n..]),
                fates := s.fates + Repeat(DeliveredTo(u), n),
                received := s.received[u := got + s.reader.rest[..n]]))
    case WriteReturns =>
      if !s.reader.Writing? then None
      else if s.reader.dest.None? then
        Some(s.(reader := Top, fates := s.fates + Repeat(Discarded, |s.reader.rest|)))
      else if s.reader.rest == [] || s.reader.dest.value !in s.open then
        Some(s.(reader := Top, fates := s.fates + Repeat(Dropped, |s.reader.rest|)))
      else None
    case Lock(u) =>
      if u in s.users || s.useMu.Some? then None
      else Some(s.(useMu := Some(u), users := s.users[u := Locked]))
    case Install(u) =>
      if !(u in s.users && s.users[u].Locked?) then None
      else if s.currentW.Some? then Some(s.(panicked := true))   // panic("non nil writer")
      else Some(s.(currentW := Some(u), open := s.open + {u}, users := s.users[u := Using], began := s.began + [u]))
    case DoneClose(u) =>
      if !(u in s.users && s.users[u].Using?) then None
      else if s.currentW.None? then Some(s.(users := s.users[u := Closing]))
      else Some(s.(currentW := None, open := s.open - {u}, users := s.users[u := Closing]))
    case DoneUnlock(u) =>
      if !(u in s.users && s.users[u].Closing?) then None
      else Some(s.(useMu := None, users := s.users[u := Gone]))
  }

  function Run(s: State, steps: seq<Step>): Option<State>
    decreases |steps|
  {
    if steps == [] then Some(s)
    else
      var t := Next(s, steps[0]);
      if t.None? then None else Run(t.value, steps[1..])
  }

  // ---- the lock discipline -----------------------------------------------------

  ghost predicate LocksOk(s: State) {
    && !s.panicked
    // a non-nil currentW belongs to the holder of useMu, and is the only open pipe
    && (s.currentW.Some? ==>
          s.useMu == s.currentW && s.currentW.value in s.users && s.users[s.currentW.value].Using?)
    && (forall u :: u in s.open <==> s.currentW == Some(u))
    && (forall u :: u in s.users && !s.users[u].Gone? ==> s.useMu == Some(u))
    // a write goes to a pipe that is open, or whose user has called done
    && (s.reader.Writing? && s.reader.dest.Some? ==>
          s.reader.dest.value in s.open || Finished(s, s.reader.dest.value))
  }

  predicate Finished(s: State, u: User) {
    u in s.users && (s.users[u].Closing? || s.users[u].Gone?)
  }

  lemma StepKeepsLocks(s: State, step: Step, t: State)
    requires LocksOk(s) && Next(s, step) == Some(t)
    ensures LocksOk(t)
  {
  }

  // ---- conservation ------------------------------------------------------------

  // The bytes read whose fate is still open.
  function Pending(r: ReaderPhase): seq<Byte> {
    match r
    case Got(chunk) => chunk
    case Writing(_, rest) => rest
    case _ => []
  }

  // The bytes delivered to one user, in the order they were read.
  function Share(taken: seq<Byte>, fates: seq<Fate>, u: User): seq<Byte>
    requires |fates| <= |taken|
  {
    if fates == [] then []
    else
      var i := |fates| - 1;
      Share(taken, fates[..i], u) + if fates[i] == DeliveredTo(u) then [taken[i]] else []
  }

  function Received(s: State, u: User): seq<Byte> {
    if u in s.received then s.received[u] else []
  }

  // Settled bytes come first, pending ones follow; each settled byte's fate fits its lookup.
  ghost predicate Accounts(s: State) {
    && |s.fates| <= |s.taken|
    && s.taken[|s.fates|..] == Pending(s.reader)
    && |s.dests| == |s.fates| + (if s.reader.Writing? then |s.reader.rest| else 0)
    && (forall i :: |s.fates| <= i < |s.dests| ==> s.reader.Writing? && s.dests[i] == s.reader.dest)
    && (forall i :: 0 <= i < |s.fates| ==> FateOk(s.fates[i], s.dests[i]))
  }

  ghost predicate Shares(s: State)
    requires |s.fates| <= |s.taken|
  {
    forall u :: Received(s, u) == Share(s.taken, s.fates, u)
  }

  ghost predicate Conserves(s: State) {
    Accounts(s) && Shares(s)
  }

  // A byte is delivered only to the user whose pipe was installed when the destination was
  // looked up; it is discarded iff there was none.
  predicate FateOk(f: Fate, dest: Option<User>) {
    match f
    case DeliveredTo(u) => dest == Some(u)
    case Discarded => dest == None
    case Dropped => dest.Some?
  }

  lemma {:induction false} ShareIgnoresTail(taken: seq<Byte>, more: seq<Byte>, fates: seq<Fate>, u: User)
    requires |fates| <= |taken|
    ensures Share(taken + more, fates, u) == Share(taken, fates, u)
  {
    if fates == [] {
    } else {
      ShareIgnoresTail(taken, more, fates[..|fates| - 1], u);
      assert (taken + more)[|fates| - 1] == taken[|fates| - 1];
    }
  }

  lemma {:induction false} ShareGrows(taken: seq<Byte>, fates: seq<Fate>, f: Fate, n: nat, u: User)
    requires |fates| + n <= |taken|
    ensures Share(taken, fates + Repeat(f, n), u) ==
            Share(taken, fates, u) + if f == DeliveredTo(u) then taken[|fates|..|fates| + n] else []
    decreases n
  {
    if n == 0 {
      assert fates + Repeat(f, 0) == fates;
    } else {
      ShareGrows(taken, fates, f, n - 1, u);
      var all := fates + Repeat(f, n);
      assert all[..|all| - 1] == fates + Repeat(f, n - 1);
      assert taken[|fates|..|fates| + n] == taken[|fates|..|fates| + n - 1] + [taken[|fates| + n - 1]];
    }
  }

  lemma ReadConserves(s: State, chunk: seq<Byte>, t: State)
    requires Conserves(s) && Next(s, ReadChunk(chunk)) == Some(t)
    ensures Conserves(t)
  {
    forall u
      ensures Received(t, u) == Share(t.taken, t.fates, u)
    {
      ShareIgnoresTail(s.taken, chunk, s.fates, u);
      assert Received(s, u) == Share(s.taken, s.fates, u);
    }
  }

  // n pending bytes meet the same fate, which fits where they were going.
  ghost predicate Settles(s: State, f: Fate, n: nat, t: State) {
    && s.reader.Writing? && n <= |s.reader.rest| && FateOk(f, s.reader.dest)
    && t.taken == s.taken && t.dests == s.dests && t.fates == s.fates + Repeat(f, n)
    && (if t.reader.Writing? then t.reader == Writing(s.reader.dest, s.reader.rest[n..])
        else t.reader.Top? && n == |s.reader.rest|)
    && forall u :: Received(t, u) == Received(s, u) + if f == DeliveredTo(u) then s.reader.rest[..n] else []
  }

  lemma SettleAccounts(s: State, f: Fate, n: nat, t: State)
    requires Accounts(s) && Settles(s, f, n, t)
    ensures Accounts(t)
  {
  }

  lemma SettleShares(s: State, f: Fate, n: nat, t: State, u: User)
    requires Conserves(s) && Settles(s, f, n, t)
    ensures |t.fates| <= |t.taken| && Received(t, u) == Share(t.taken, t.fates, u)
  {
    var k := |s.fates|;
    assert |s.taken| - k == |s.reader.rest|;
    ShareGrows(s.taken, s.fates, f, n, u);
    SliceOfTail(s.taken, k, n);
    assert Received(s, u) == Share(s.taken, s.fates, u);
    assert Received(t, u) == Received(s, u) + if f == DeliveredTo(u) then s.reader.rest[..n] else [];
  }

  lemma SliceOfTail<T>(a: seq<T>, i: nat, n: nat)
    requires i + n <= |a|
    ensures a[i..][..n] == a[i..i + n]
  {
  }

  lemma SettleConserves(s: State, f: Fate, n: nat, t: State)
    requires Conserves(s) && Settles(s, f, n, t)
    ensures Conserves(t)
  {
    SettleAccounts(s, f, n, t);
    forall u
      ensures Received(t, u) == Share(t.taken, t.fates, u)
    {
      SettleShares(s, f, n, t, u);
    }
  }

  // Looking up the destination settles nothing yet.
  lemma SnapshotConserves(s: State, t: State)
    requires Conserves(s) && Next(s, Snapshot) == Some(t)
    ensures Conserves(t)
  {
  }

  lemma QuietConserves(s: State, t: State)
    requires Conserves(s)
    requires t.taken == s.taken && t.dests == s.dests && t.fates == s.fates && t.received == s.received
    requires t.reader == s.reader ||
             (Pending(t.reader) == Pending(s.reader) == [] && !t.reader.Writing? && !s.reader.Writing?)
    ensures Conserves(t)
  {
  }

  lemma StepConserves(s: State, step: Step, t: State)
    requires Conserves(s) && Next(s, step) == Some(t)
    ensures Conserves(t)
  {
    match step {
      case ReadChunk(chunk) => ReadConserves(s, chunk, t);
      case Snapshot => SnapshotConserves(s, t);
      case Consume(n) => SettleConserves(s, DeliveredTo(s.reader.dest.value), n, t);
      case WriteReturns =>
        SettleConserves(s, if s.reader.dest.None? then Discarded else Dropped, |s.reader.rest|, t);
      case _ => QuietConserves(s, t);
    }
  }

  lemma {:induction false} RunKeepsInv(s: State, steps: seq<Step>)
    requires LocksOk(s) && Conserves(s) && Run(s, steps).Some?
    ensures LocksOk(Run(s, steps).value) && Conserves(Run(s, steps).value)
    decreases |steps|
  {
    if steps == [] {
    } else {
      var t := Next(s, steps[0]).value;
      StepKeepsLocks(s, steps[0], t);
      StepConserves(s, steps[0], t);
      RunKeepsInv(t, steps[1..]);
    }
  }

  lemma InitOk()
    ensures LocksOk(INIT) && Conserves(INIT)
  {
  }

  // Under every interleaving the panic is unreachable, and only the holder of useMu has a pipe.
  lemma NeverPanics(steps: seq<Step>)
    requires Run(INIT, steps).Some?
    ensures var s := Run(INIT, steps).value;
            && !s.panicked
            && (s.currentW.Some? ==> s.useMu == s.currentW)
            && (forall u, v :: u in s.users && v in s.users && !s.users[u].Gone? && !s.users[v].Gone? ==> u == v)
  {
    InitOk();
    RunKeepsInv(INIT, steps);
  }

  // Under every interleaving stdin is conserved: all bytes read are settled or pending, every
  // settled byte has one fate, and what a user got is its share of stdin in input order.
  lemma InputIsConserved(steps: seq<Step>, u: User)
    requires Run(INIT, steps).Some?
    ensures var s := Run(INIT, steps).value;
            && |s.fates| <= |s.taken| && |s.fates| <= |s.dests|
            && s.taken == s.taken[..|s.fates|] + Pending(s.reader)
            && Received(s, u) == Share(s.taken, s.fates, u)
            && forall i :: 0 <= i < |s.fates| ==> FateOk(s.fates[i], s.dests[i])
  {
    InitOk();
    RunKeepsInv(INIT, steps);
    var s := Run(INIT, steps).value;
    assert s.taken == s.taken[..|s.fates|] + s.taken[|s.fates|..];
  }

  // The looked-up destination is a user that had started and not finished, so no byte goes to
  // a user who began after the lookup.
  lemma DestinationHadBegun(steps: seq<Step>)
    requires Run(INIT, steps).Some? && Next(Run(INIT, steps).value, Snapshot).Some?
    ensures var s := Run(INIT, steps).value;
            var t := Next(s, Snapshot).value;
            t.reader.dest.Some? ==> t.reader.dest.value in s.users && s.users[t.reader.dest.value].Using?
    ensures var s := Run(INIT, steps).value;
            Next(s, Snapshot).value.dests == s.dests + Repeat(s.currentW, |s.reader.chunk|)
  {
    InitOk();
    RunKeepsInv(INIT, steps);
  }

  lemma FinishedStaysFinished(s: State, step: Step, t: State, u: User)
    requires LocksOk(s) && Next(s, step) == Some(t) && Finished(s, u)
    ensures Finished(t, u) && Received(t, u) == Received(s, u)
  {
  }

  // A user that has called done gets nothing more, in any continuation.
  lemma {:induction false} NothingAfterDone(s: State, steps: seq<Step>, u: User)
    requires LocksOk(s) && Run(s, steps).Some? && Finished(s, u)
    ensures Received(Run(s, steps).value, u) == Received(s, u)
    decreases |steps|
  {
    if steps == [] {
    } else {
      var t := Next(s, steps[0]).value;
      StepKeepsLocks(s, steps[0], t);
      FinishedStaysFinished(s, steps[0], t, u);
      NothingAfterDone(t, steps[1..], u);
    }
  }

  // As long as its user does not read, a blocked write lasts until that user calls done, which
  // it can do at any moment; then the write can return.
  lemma DoneUnblocksReader(steps: seq<Step>)
    requires Run(INIT, steps).Some?
    requires var s := Run(INIT, steps).value;
             s.reader.Writing? && s.reader.dest.Some? && !Finished(s, s.reader.dest.value)
    ensures var s := Run(INIT, steps).value;
            var t := Next(s, DoneClose(s.reader.dest.value));
            t.Some? && Next(t.value, WriteReturns).Some?
  {
    InitOk();
    RunKeepsInv(INIT, steps);
  }

  // A blocked write never outlives its user, and bytes are dropped only when their user has
  // called done: with bytes left, the write to a user returns iff that user has finished.
  lemma WriteReturnsIffUserFinished(steps: seq<Step>)
    requires Run(INIT, steps).Some?
    requires var s := Run(INIT, steps).value;
             s.reader.Writing? && s.reader.dest.Some? && s.reader.rest != []
    ensures var s := Run(INIT, steps).value;
            Next(s, WriteReturns).Some? <==> Finished(s, s.reader.dest.value)
  {
    InitOk();
    RunKeepsInv(INIT, steps);
  }

  // ---- who gets what, in which order ---------------------------------------------------

  // Users begin one after the other, and a pipe belongs to the last one to have begun.
  ghost predicate BeganOk(s: State) {
    && (forall i, j :: 0 <= i < j < |s.began| ==> s.began[i] != s.began[j])
    && (forall u :: u in s.began ==> u in s.users && !s.users[u].Locked?)
    && (s.currentW.Some? ==> s.began != [] && s.began[|s.began| - 1] == s.currentW.value)
  }

  // Turns never go back, and a byte is addressed to the user whose turn it was.
  ghost predicate TurnsOk(s: State) {
    && |s.turns| == |s.dests|
    && (forall i :: 0 <= i < |s.turns| ==> TurnOk(s.turns[i], s.dests[i], s.began))
    && (forall i, j :: 0 <= i < j < |s.turns| ==> s.turns[i] <= s.turns[j])
  }

  predicate TurnOk(turn: nat, dest: Option<User>, began: seq<User>) {
    turn <= |began| && (dest.Some? ==> turn > 0 && began[turn - 1] == dest.value)
  }

  lemma StepKeepsBegan(s: State, step: Step, t: State)
    requires LocksOk(s) && BeganOk(s) && Next(s, step) == Some(t)
    ensures BeganOk(t)
  {
  }

  lemma SnapshotKeepsTurns(s: State, t: State)
    requires BeganOk(s) && TurnsOk(s) && Next(s, Snapshot) == Some(t)
    ensures TurnsOk(t)
  {
    forall i | 0 <= i < |t.turns|
      ensures TurnOk(t.turns[i], t.dests[i], t.began) && t.turns[i] <= |s.began|
      ensures i >= |s.turns| ==> t.turns[i] == |s.began|
    {
      if i < |s.turns| {
        assert TurnOk(s.turns[i], s.dests[i], s.began);
      }
    }
  }

  lemma OthersKeepTurns(s: State, step: Step, t: State)
    requires TurnsOk(s) && Next(s, step) == Some(t) && !step.Snapshot?
    ensures TurnsOk(t)
  {
    assert t.turns == s.turns && t.dests == s.dests;
    forall i | 0 <= i < |t.turns|
      ensures TurnOk(t.turns[i], t.dests[i], t.began)
    {
      assert TurnOk(s.turns[i], s.dests[i], s.began);
    }
  }

  lemma {:induction false} RunKeepsTurns(s: State, steps: seq<Step>)
    requires LocksOk(s) && BeganOk(s) && TurnsOk(s) && Run(s, steps).Some?
    ensures BeganOk(Run(s, steps).value) && TurnsOk(Run(s, steps).value)
    decreases |steps|
  {
    if steps == [] {
    } else {
      var t := Next(s, steps[0]).value;
      StepKeepsLocks(s, steps[0], t);
      StepKeepsBegan(s, steps[0], t);
      if steps[0].Snapshot? {
        SnapshotKeepsTurns(s, t);
      } else {
        OthersKeepTurns(s, steps[0], t);
      }
      RunKeepsTurns(t, steps[1..]);
    }
  }

  // The shares of the users, in the order they began.
  function SharesOf(taken: seq<Byte>, fates: seq<Fate>, began: seq<User>): seq<seq<Byte>>
    requires |fates| <= |taken|
  {
    seq(|began|, k requires 0 <= k < |began| => Share(taken, fates, began[k]))
  }

  lemma {:induction false} ConcatEmpty(shares: seq<seq<Byte>>)
    requires forall k :: 0 <= k < |shares| ==> shares[k] == []
    ensures Concat(shares) == []
  {
    if shares == [] {
    } else {
      ConcatEmpty(shares[1..]);
    }
  }

  lemma {:induction false} ConcatGrows(shares: seq<seq<Byte>>, m: nat, x: seq<Byte>)
    requires m < |shares| && forall k :: m < k < |shares| ==> shares[k] == []
    ensures Concat(shares[m := shares[m] + x]) == Concat(shares) + x
    decreases m
  {
    var after := shares[m := shares[m] + x];
    if m == 0 {
      assert after[1..] == shares[1..];
      ConcatEmpty(shares[1..]);
    } else {
      ConcatGrows(shares[1..], m - 1, x);
      assert after[1..] == shares[1..][m - 1 := shares[1..][m - 1] + x];
    }
  }

  lemma {:induction false} NoShare(taken: seq<Byte>, fates: seq<Fate>, u: User)
    requires |fates| <= |taken| && forall i :: 0 <= i < |fates| ==> fates[i] != DeliveredTo(u)
    ensures Share(taken, fates, u) == []
  {
    if fates == [] {
    } else {
      NoShare(taken, fates[..|fates| - 1], u);
    }
  }

  // Byte i was delivered to the user whose turn it was, and turns never go back.
  ghost predicate InTurn(fates: seq<Fate>, turns: seq<nat>, began: seq<User>) {
    && |fates| <= |turns|
    && (forall i :: 0 <= i < |fates| ==> 0 < turns[i] <= |began| && fates[i] == DeliveredTo(began[turns[i] - 1]))
    && (forall i, j :: 0 <= i < j < |fates| ==> turns[i] <= turns[j])
    && (forall i, j :: 0 <= i < j < |began| ==> began[i] != began[j])
  }

  lemma ShareSnoc(taken: seq<Byte>, fates: seq<Fate>, u: User)
    requires 0 < |fates| <= |taken|
    ensures var n := |fates| - 1;
            var before := Share(taken, fates[..n], u);
            Share(taken, fates, u) == if fates[n] == DeliveredTo(u) then before + [taken[n]] else before
  {
    assert Share(taken, fates[..|fates| - 1], u) + [] == Share(taken, fates[..|fates| - 1], u);
  }

  // A user whose turn has not come has nothing yet.
  lemma LaterUserHasNothing(taken: seq<Byte>, fates: seq<Fate>, turns: seq<nat>, began: seq<User>, k: nat)
    requires 0 < |fates| <= |taken| && InTurn(fates, turns, began) && turns[|fates| - 1] - 1 < k < |began|
    ensures Share(taken, fates[..|fates| - 1], began[k]) == []
  {
    NoShare(taken, fates[..|fates| - 1], began[k]);
  }

  // One more byte goes to the share of its turn.
  lemma SharesSnoc(taken: seq<Byte>, fates: seq<Fate>, turns: seq<nat>, began: seq<User>)
    requires 0 < |fates| <= |taken| && InTurn(fates, turns, began)
    ensures var n := |fates| - 1;
            var m := turns[n] - 1;
            var before := SharesOf(taken, fates[..n], began);
            SharesOf(taken, fates, began) == before[m := before[m] + [taken[n]]]
  {
    var n := |fates| - 1;
    forall k | 0 <= k < |began|
      ensures fates[n] == DeliveredTo(began[k]) <==> k == turns[n] - 1
      ensures Share(taken, fates, began[k]) ==
              var before := Share(taken, fates[..n], began[k]);
              if k == turns[n] - 1 then before + [taken[n]] else before
    {
      ShareSnoc(taken, fates, began[k]);
    }
  }

  lemma {:induction false} SharesConcatenate(taken: seq<Byte>, fates: seq<Fate>, turns: seq<nat>, began: seq<User>)
    requires |fates| <= |taken| && InTurn(fates, turns, began)
    ensures Concat(SharesOf(taken, fates, began)) == taken[..|fates|]
    decreases |fates|
  {
    if fates == [] {
      ConcatEmpty(SharesOf(taken, fates, began));
    } else {
      var n := |fates| - 1;
      var before := SharesOf(taken, fates[..n], began);
      SharesConcatenate(taken, fates[..n], turns, began);
      SharesSnoc(taken, fates, turns, began);
      forall k | turns[n] - 1 < k < |began|
        ensures before[k] == []
      {
        LaterUserHasNothing(taken, fates, turns, began, k);
      }
      ConcatGrows(before, turns[n] - 1, [taken[n]]);
      assert taken[..n + 1] == taken[..n] + [taken[n]];
    }
  }

  lemma DeliveredAreInTurn(s: State)
    requires Conserves(s) && BeganOk(s) && TurnsOk(s)
    requires forall i :: 0 <= i < |s.fates| ==> s.fates[i].DeliveredTo?
    ensures InTurn(s.fates, s.turns, s.began)
  {
    forall i | 0 <= i < |s.fates|
      ensures 0 < s.turns[i] <= |s.began| && s.fates[i] == DeliveredTo(s.began[s.turns[i] - 1])
    {
      assert FateOk(s.fates[i], s.dests[i]) && TurnOk(s.turns[i], s.dests[i], s.began);
    }
  }

  // What the users received, in the order they began.
  function ReceivedShares(s: State): seq<seq<Byte>> {
    seq(|s.began|, k requires 0 <= k < |s.began| => Received(s, s.began[k]))
  }

  // All bytes read so far have been delivered.
  predicate AllDelivered(s: State) {
    |s.fates| == |s.taken| && forall i :: 0 <= i < |s.fates| ==> s.fates[i].DeliveredTo?
  }

  // If all of stdin was delivered, what the users received is stdin cut up in the order in
  // which they began.
  lemma DeliveredInOrder(steps: seq<Step>)
    requires Run(INIT, steps).Some? && AllDelivered(Run(INIT, steps).value)
    ensures var s := Run(INIT, steps).value;
            s.taken == Concat(ReceivedShares(s))
  {
    InitOk();
    RunKeepsInv(INIT, steps);
    RunKeepsTurns(INIT, steps);
    var s := Run(INIT, steps).value;
    DeliveredAreInTurn(s);
    SharesConcatenate(s.taken, s.fates, s.turns, s.began);
    assert SharesOf(s.taken, s.fates, s.began) == ReceivedShares(s);
    assert s.taken[..|s.fates|] == s.taken;
  }
}
