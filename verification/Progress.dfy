// Build output while a prompt is open: progressWriter of main.go and the ring buffer behind
// `log -n` of log.go.
module Progress {
  import opened Common

  // The writer's fields, with what the destination and the log file have received so far.
  datatype View = View(enabled: bool, buf: seq<Byte>, sent: seq<Byte>, logged: seq<Byte>)

  datatype Op = Write(p: seq<Byte>) | Enable | Disable

  const INIT := View(true, [], [], [])

  function Apply(v: View, op: Op): View {
    match op
    case Write(p) =>
      if v.enabled then v.(sent := v.sent + p, logged := v.logged + p)
      else v.(buf := v.buf + p, logged := v.logged + p)
    case Enable => View(true, [], v.sent + v.buf, v.logged)
    case Disable => v.(enabled := false)
  }

  class ProgressWriter {
    var enabled: bool
    var buf: seq<Byte>
    var sent: seq<Byte>
    var logFile: seq<Byte>

    function State(): View
      reads this
    {
      View(enabled, buf, sent, logFile)
    }

    constructor ()
      ensures State() == INIT
    {
      enabled, buf, sent, logFile := true, [], [], [];
    }

    method DisableOutput()
      modifies this
      ensures State() == Apply(old(State()), Disable)
    {
      enabled := false;
    }

    method EnableOutput()
      modifies this
      ensures State() == Apply(old(State()), Enable)
      ensures sent + buf == old(sent + buf) && buf == []
    {
      enabled := true;
      if |buf| > 0 {
        sent := sent + buf;
        buf := [];
      }
    }

    // A reader over the unsent bytes; they stay in the buffer.
    method Buffered() returns (unread: seq<Byte>)
      ensures unread == buf
    {
      unread := [];
      if |buf| > 0 {
        unread := buf;
      }
    }

    method WriteBytes(p: seq<Byte>) returns (n: nat)
      modifies this
      ensures State() == Apply(old(State()), Write(p)) && n == |p|
      ensures (old(enabled) ==> old(buf) == []) ==> sent + buf == old(sent + buf) + p
    {
      logFile := logFile + p;
      if !enabled {
        buf := buf + p;
        return |p|;
      }
      sent := sent + p;
      n := |p|;
    }
  }

  // ---- runs --------------------------------------------------------------------

  function Run(v: View, ops: seq<Op>): View {
    if ops == [] then v else Apply(Run(v, ops[..|ops| - 1]), ops[|ops| - 1])
  }

  // All bytes ever passed to Write, in order.
  function Written(ops: seq<Op>): seq<Byte> {
    if ops == [] then []
    else Written(ops[..|ops| - 1]) + match ops[|ops| - 1] { case Write(p) => p case _ => [] }
  }

  // Nothing is lost or reordered: what the destination has, followed by the buffer, is all
  // that was written; so is the log; and the buffer is empty whenever output is enabled.
  lemma {:induction false} OutputIsConserved(ops: seq<Op>)
    ensures var v := Run(INIT, ops);
            && v.sent + v.buf == Written(ops)
            && v.logged == Written(ops)
            && (v.enabled ==> v.buf == [])
  {
    if ops == [] {
    } else {
      OutputIsConserved(ops[..|ops| - 1]);
      var v := Run(INIT, ops[..|ops| - 1]);
      if ops[|ops| - 1].Write? {
        var p := ops[|ops| - 1].p;
        assert v.sent + (v.buf + p) == v.sent + v.buf + p;
        assert v.enabled ==> v.sent + p + [] == v.sent + v.buf + p;
      }
    }
  }

  function Writes(ps: seq<seq<Byte>>): seq<Op> {
    seq(|ps|, i requires 0 <= i < |ps| => Write(ps[i]))
  }

  lemma {:induction false} WritesWhileDisabled(v: View, ps: seq<seq<Byte>>)
    requires !v.enabled
    ensures Run(v, Writes(ps)) == View(false, v.buf + Concat(ps), v.sent, v.logged + Concat(ps))
  {
    if ps == [] {
    } else {
      WritesWhileDisabled(v, ps[..|ps| - 1]);
      ConcatSnoc(ps[..|ps| - 1], ps[|ps| - 1]);
      assert ps == ps[..|ps| - 1] + [ps[|ps| - 1]];
      assert Writes(ps)[..|ps| - 1] == Writes(ps[..|ps| - 1]);
    }
  }

  lemma {:induction false} RunAppend(v: View, a: seq<Op>, b: seq<Op>)
    ensures Run(v, a + b) == Run(Run(v, a), b)
  {
    if b == [] {
      assert a + b == a;
    } else {
      RunAppend(v, a, b[..|b| - 1]);
      assert (a + b)[..|a + b| - 1] == a + b[..|b| - 1];
    }
  }

  // While a prompt is open nothing reaches the destination and Buffered shows exactly what was
  // written since; when the prompt closes the destination catches up with all that was written.
  lemma PromptHoldsOutputBack(ops: seq<Op>, ps: seq<seq<Byte>>)
    requires Run(INIT, ops).enabled
    ensures var held := Run(INIT, ops + [Disable] + Writes(ps));
            held.sent == Written(ops) && held.buf == Concat(ps)
    ensures var after := Run(INIT, ops + [Disable] + Writes(ps) + [Enable]);
            after.sent == Written(ops) + Concat(ps) && after.buf == []
  {
    OutputIsConserved(ops);
    var v := Run(INIT, ops);
    assert v.sent + [] == v.sent;
    assert (ops + [Disable])[..|ops|] == ops;
    RunAppend(INIT, ops + [Disable], Writes(ps));
    WritesWhileDisabled(v.(enabled := false), ps);
    var held := ops + [Disable] + Writes(ps);
    assert (held + [Enable])[..|held|] == held;
  }

  // ---- log -n ------------------------------------------------------------------

  // Slots before cur hold the current lap, which began at line total - cur; the others still
  // hold the lap before it.
  ghost predicate RingHolds(slots: seq<string>, cur: int, total: int, lines: seq<string>) {
    && 0 <= cur < |slots| && cur <= total <= |lines|
    && (total - cur == 0 || total - cur >= |slots|)
    && (forall p :: 0 <= p < cur ==> slots[p] == lines[total - cur + p])
    && (total - cur >= |slots| ==> forall p :: cur <= p < |slots| ==> slots[p] == lines[total - cur - |slots| + p])
  }

  method FillRing(buf: array<string>, lines: seq<string>) returns (cur: int, total: int)
    requires buf.Length > 0
    modifies buf
    ensures total == |lines| && RingHolds(buf[..], cur, total, lines)
  {
    cur, total := 0, 0;
    for i := 0 to |lines|
      invariant total == i && RingHolds(buf[..], cur, total, lines)
    {
      ghost var before := buf[..];
      buf[cur] := lines[i];
      assert buf[..] == before[cur := lines[i]];
      cur := cur + 1;
      total := total + 1;
      if cur >= buf.Length {
        cur := 0;
      }
    }
  }

  // The slots from cur on, wrapping around once: the last |slots| lines.
  method ReadRing(buf: array<string>, start: int, total: int, lines: seq<string>) returns (out: seq<string>)
    requires RingHolds(buf[..], start, total, lines) && total > buf.Length
    ensures out == lines[total - buf.Length..total]
  {
    var n, cur := buf.Length, start;
    out := [];
    for i := 0 to n
      invariant 0 <= cur < n
      invariant cur == if start + i < n then start + i else start + i - n
      invariant out == lines[total - n..total - n + i]
    {
      assert buf[..][cur] == buf[cur] == lines[total - n + i];
      out := out + [buf[cur]];
      cur := cur + 1;
      if cur >= buf.Length {
        cur := 0;
      }
    }
  }

  // `log -n`: the last n lines, or all of them when there are no more than n.
  method LogTail(lines: seq<string>, n: int) returns (out: seq<string>)
    ensures n <= 0 ==> out == []
    ensures n > 0 ==> out == if |lines| <= n then lines else lines[|lines| - n..]
  {
    if n <= 0 {
      return [];
    }
    var buf := new string[n](_ => "");
    var cur, total := FillRing(buf, lines);
    if total <= n {
      out := [];
      for i := 0 to total
        invariant out == lines[..i]
      {
        assert buf[..][i] == lines[i];
        out := out + [buf[i]];
      }
      return;
    }
    out := ReadRing(buf, cur, total, lines);
  }
}
