// Which lines the prompts see. Every prompt reads one line through a scanner of its own
// (readLine of commands.go), and what that scanner has read beyond the line is lost with it.
module PromptLines {
  import opened Common
  import opened SharedReader

  const NEWLINE: Byte := 10

  function LineEndFrom(text: seq<Byte>, i: nat): (n: nat)
    requires i <= |text|
    ensures i <= n <= |text|
    ensures n < |text| ==> text[n] == NEWLINE
    ensures forall j :: i <= j < n ==> text[j] != NEWLINE
    decreases |text| - i
  {
    if i == |text| || text[i] == NEWLINE then i else LineEndFrom(text, i + 1)
  }

  // Where the first line of a text ends.
  function LineEnd(text: seq<Byte>): (n: nat)
    ensures n <= |text|
    ensures n < |text| ==> text[n] == NEWLINE
    ensures forall j :: 0 <= j < n ==> text[j] != NEWLINE
  {
    LineEndFrom(text, 0)
  }

  // All lines of a text; a last line without a newline counts unless it is empty.
  function Lines(text: seq<Byte>): seq<seq<Byte>>
    decreases |text|
  {
    if text == [] then []
    else if LineEnd(text) == |text| then [text]
    else [text[..LineEnd(text)]] + Lines(text[LineEnd(text) + 1..])
  }

  // What a prompt makes of the bytes its scanner got.
  function FirstLine(share: seq<Byte>): seq<Byte> {
    share[..LineEnd(share)]
  }

  function FirstLines(shares: seq<seq<Byte>>): seq<seq<Byte>> {
    seq(|shares|, k requires 0 <= k < |shares| => FirstLine(shares[k]))
  }

  // A last prompt that meets the end of input before any byte returns no line.
  function WithLine(shares: seq<seq<Byte>>): seq<seq<Byte>> {
    if shares != [] && shares[|shares| - 1] == [] then shares[..|shares| - 1] else shares
  }

  // The lines the prompts return.
  function Seen(shares: seq<seq<Byte>>): seq<seq<Byte>> {
    FirstLines(WithLine(shares))
  }

  // A prompt returns at a newline; only the last one can return at the end of input instead.
  ghost predicate Returned(shares: seq<seq<Byte>>) {
    forall k :: 0 <= k < |shares| - 1 ==> LineEnd(shares[k]) < |shares[k]|
  }

  // Nothing follows the first line of any share.
  ghost predicate OneLineEach(shares: seq<seq<Byte>>) {
    forall k :: 0 <= k < |shares| ==> LineEnd(shares[k]) + 1 >= |shares[k]|
  }

  lemma LineEndIs(text: seq<Byte>, n: nat)
    requires n <= |text| && (n < |text| ==> text[n] == NEWLINE)
    requires forall j :: 0 <= j < n ==> text[j] != NEWLINE
    ensures LineEnd(text) == n
  {
  }

  lemma LineEndOfSum(a: seq<Byte>, b: seq<Byte>)
    ensures LineEnd(a + b) == if LineEnd(a) < |a| then LineEnd(a) else |a| + LineEnd(b)
  {
    LineEndIs(a + b, if LineEnd(a) < |a| then LineEnd(a) else |a| + LineEnd(b));
  }

  // The first line and the rest.
  lemma LinesSplit(text: seq<Byte>)
    requires text != []
    ensures Lines(text) == [FirstLine(text)] + if LineEnd(text) < |text| then Lines(text[LineEnd(text) + 1..]) else []
  {
    assert text[..|text|] == text;
  }

  lemma LinesOfSum(a: seq<Byte>, b: seq<Byte>)
    requires LineEnd(a) < |a|
    ensures Lines(a + b) == [FirstLine(a)] + Lines(a[LineEnd(a) + 1..] + b)
  {
    LineEndOfSum(a, b);
    LinesSplit(a + b);
    assert (a + b)[..LineEnd(a)] == a[..LineEnd(a)];
    assert (a + b)[LineEnd(a) + 1..] == a[LineEnd(a) + 1..] + b;
  }

  lemma FirstLinesSplit(shares: seq<seq<Byte>>)
    requires shares != []
    ensures FirstLines(shares) == [FirstLine(shares[0])] + FirstLines(shares[1..])
    ensures forall k :: 0 <= k < |shares[1..]| ==> shares[1..][k] == shares[k + 1]
  {
  }

  // In front of a share, bytes without a newline make its first line longer.
  lemma LongerFirstLine(t: seq<Byte>, g: seq<Byte>, after: seq<Byte>)
    requires t != [] && LineEnd(t) == |t|
    ensures Lines(t + (g + after)) != []
    ensures |Lines(t + (g + after))[0]| > |FirstLine(g)|
  {
    LineEndOfSum(t, g + after);
    LineEndOfSum(g, after);
    LinesSplit(t + (g + after));
  }

  // Bytes in front of the shares always show.
  lemma {:induction false} LeftoverShows(t: seq<Byte>, shares: seq<seq<Byte>>)
    requires t != [] && forall k :: 0 <= k < |shares| ==> shares[k] != []
    ensures Lines(t + Concat(shares)) != FirstLines(shares)
    decreases |shares|
  {
    if shares == [] {
      assert t + Concat(shares) == t;
      LinesSplit(t);
    } else {
      var g, rest := shares[0], shares[1..];
      FirstLinesSplit(shares);
      if LineEnd(t) < |t| {
        var left := t[LineEnd(t) + 1..];
        LinesOfSum(t, Concat(shares));
        LeftoverShows(left + g, rest);
        assert left + Concat(shares) == left + g + Concat(rest);
        assert Lines(t + Concat(shares))[1..] == Lines(left + g + Concat(rest));
        assert FirstLines(shares)[1..] == FirstLines(rest);
      } else {
        LongerFirstLine(t, g, Concat(rest));
        assert FirstLines(shares)[0] == FirstLine(g);
      }
    }
  }

  lemma OneLineEachSplit(shares: seq<seq<Byte>>)
    requires shares != []
    ensures OneLineEach(shares) <==> LineEnd(shares[0]) + 1 >= |shares[0]| && OneLineEach(shares[1..])
  {
    var rest := shares[1..];
    if OneLineEach(shares) {
      forall k | 0 <= k < |rest|
        ensures LineEnd(rest[k]) + 1 >= |rest[k]|
      {
        assert rest[k] == shares[k + 1];
      }
    }
    if LineEnd(shares[0]) + 1 >= |shares[0]| && OneLineEach(rest) {
      forall k | 0 <= k < |shares|
        ensures LineEnd(shares[k]) + 1 >= |shares[k]|
      {
        assert k > 0 ==> shares[k] == rest[k - 1];
      }
    }
  }

  // The first share ends its line: all lines are seen iff nothing follows it and the rest do.
  lemma FirstShareIff(f: seq<Byte>, rest: seq<seq<Byte>>)
    requires LineEnd(f) < |f| && forall k :: 0 <= k < |rest| ==> rest[k] != []
    ensures Lines(f + Concat(rest)) == [FirstLine(f)] + FirstLines(rest) <==>
            LineEnd(f) + 1 == |f| && Lines(Concat(rest)) == FirstLines(rest)
  {
    var left := f[LineEnd(f) + 1..];
    LinesOfSum(f, Concat(rest));
    assert ([FirstLine(f)] + Lines(left + Concat(rest)))[1..] == Lines(left + Concat(rest));
    assert ([FirstLine(f)] + FirstLines(rest))[1..] == FirstLines(rest);
    if left == [] {
      assert left + Concat(rest) == Concat(rest);
    } else {
      LeftoverShows(left, rest);
    }
  }

  // When every prompt got something.
  lemma {:induction false} AllLinesReadIff(shares: seq<seq<Byte>>)
    requires Returned(shares) && WithLine(shares) == shares
    ensures Lines(Concat(shares)) == FirstLines(shares) <==> OneLineEach(shares)
    decreases |shares|
  {
    if shares == [] {
    } else {
      var f, rest := shares[0], shares[1..];
      FirstLinesSplit(shares);
      OneLineEachSplit(shares);
      AllLinesReadIff(rest);
      if LineEnd(f) < |f| {
        assert forall k :: 0 <= k < |rest| - 1 ==> LineEnd(rest[k]) < |rest[k]|;
        FirstShareIff(f, rest);
      } else {
        assert rest == [];
        assert Concat(shares) == f + [] == f;
        LinesSplit(f);
        assert FirstLines(rest) == [];
      }
    }
  }

  // The prompts see exactly the lines of the input iff no share goes on after its first line.
  lemma AllLinesSeenIff(shares: seq<seq<Byte>>)
    requires Returned(shares)
    ensures Lines(Concat(shares)) == Seen(shares) <==> OneLineEach(shares)
  {
    var heard := WithLine(shares);
    if heard != shares {
      assert shares == heard + [[]];
      ConcatSnoc(heard, []);
      assert Concat(heard) + [] == Concat(heard);
      assert forall k :: 0 <= k < |heard| ==> heard[k] == shares[k];
      assert OneLineEach(shares) <==> OneLineEach(heard);
    }
    AllLinesReadIff(heard);
  }

  // On the shared stdin: when all of it reaches prompts, the lines they see are the lines of
  // stdin iff no prompt was sent more than one line.
  lemma PromptsSeeEveryLineIff(steps: seq<Step>)
    requires Run(INIT, steps).Some? && AllDelivered(Run(INIT, steps).value)
    requires Returned(ReceivedShares(Run(INIT, steps).value))
    ensures var s := Run(INIT, steps).value;
            Lines(s.taken) == Seen(ReceivedShares(s)) <==> OneLineEach(ReceivedShares(s))
  {
    DeliveredInOrder(steps);
    AllLinesSeenIff(ReceivedShares(Run(INIT, steps).value));
  }

  lemma LineThenRest(a: seq<Byte>, rest: seq<Byte>)
    requires NEWLINE !in a
    ensures Lines(a + [NEWLINE] + rest) == [a] + Lines(rest) && FirstLine(a + [NEWLINE] + rest) == a
  {
    var text := a + [NEWLINE] + rest;
    LineEndIs(text, |a|);
    assert text[..|a|] == a && text[|a| + 1..] == rest;
    LinesSplit(text);
  }

  function PipedInput(a: seq<Byte>, b: seq<Byte>): seq<Byte> {
    a + [NEWLINE] + (b + [NEWLINE] + [])
  }

  // One prompt gets all that is piped in one write.
  function PipedRun(share: seq<Byte>): seq<Step> {
    [Lock(0)] + ([Install(0)] + ([ReadChunk(share)] + ([Snapshot] + ([Consume(|share|)] + []))))
  }

  lemma RunFirst(s: State, step: Step, t: State, rest: seq<Step>)
    requires Next(s, step) == Some(t)
    ensures Run(s, [step] + rest) == Run(t, rest)
    ensures Run(t, []) == Some(t)
  {
    assert ([step] + rest)[1..] == rest;
  }

  lemma PipedRunDelivers(share: seq<Byte>)
    ensures Run(INIT, PipedRun(share)).Some?
    ensures var s := Run(INIT, PipedRun(share)).value;
            AllDelivered(s) && s.taken == share && ReceivedShares(s) == [share]
  {
    var s1 := Next(INIT, Lock(0)).value;
    var s2 := Next(s1, Install(0)).value;
    var s3 := Next(s2, ReadChunk(share)).value;
    var s4 := Next(s3, Snapshot).value;
    var s5 := Next(s4, Consume(|share|)).value;
    RunFirst(s4, Consume(|share|), s5, []);
    RunFirst(s3, Snapshot, s4, [Consume(|share|)] + []);
    RunFirst(s2, ReadChunk(share), s3, [Snapshot] + ([Consume(|share|)] + []));
    RunFirst(s1, Install(0), s2, [ReadChunk(share)] + ([Snapshot] + ([Consume(|share|)] + [])));
    RunFirst(INIT, Lock(0), s1, [Install(0)] + ([ReadChunk(share)] + ([Snapshot] + ([Consume(|share|)] + []))));
    assert [] + share[..|share|] == share;
  }

  // Two lines piped in one write: the prompt that gets them sees only the first.
  lemma PipedLinesAreLost(a: seq<Byte>, b: seq<Byte>)
    requires NEWLINE !in a && NEWLINE !in b
    ensures var r := Run(INIT, PipedRun(PipedInput(a, b)));
            && r.Some? && AllDelivered(r.value)
            && Lines(r.value.taken) == [a, b]
            && Seen(ReceivedShares(r.value)) == [a]
  {
    PipedRunDelivers(PipedInput(a, b));
    LineThenRest(b, []);
    LineThenRest(a, b + [NEWLINE] + []);
  }
}
