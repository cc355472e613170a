// The DAP requests of pkg/dap that work on data: SetBreakpoints, the ids of a stop, and the
// paged Variables request.
module Dap {
  import opened Common
  import opened Text
  import opened Breakpoints

  // ---- SetBreakpoints ------------------------------------------------------------

  datatype DapBreakpoint = DapBreakpoint(id: int, source: string, line: int, verified: bool)

  // The registry holds on-fail and one automatic key per requested line, nothing else.
  ghost predicate HoldsRequest(t: Table, name: string, lines: seq<int>) {
    && t.index == |lines|
    && ON_FAIL in t.bps && t.bps[ON_FAIL] == OnFail
    && (forall i :: 0 <= i < |lines| ==> Decimal(i) in t.bps && t.bps[Decimal(i)] == Line(name, lines[i]))
    && (forall k :: k in t.bps ==> k == ON_FAIL || IsAutoKey(k, |lines|))
  }

  function Min(a: int, b: int): int {
    if a <= b then a else b
  }

  function Max(a: int, b: int): int {
    if a <= b then b else a
  }

  // Ids are the indices in the request. (From 2^63 lines on a key would not parse back.)
  method OnSetBreakpoints(bps: BreakpointSet, name: string, lines: seq<int>) returns (reply: seq<DapBreakpoint>)
    modifies bps
    ensures HoldsRequest(bps.View(), name, lines)
    ensures |reply| == Min(|lines|, INT64_LIMIT)
    ensures forall i :: 0 <= i < |reply| ==> reply[i] == DapBreakpoint(i, name, lines[i], true)
  {
    reply := [];
    bps.ClearAll();
    var _ := bps.Add(ON_FAIL, OnFail);
    for i := 0 to |lines|
      invariant HoldsRequest(bps.View(), name, lines[..i])
      invariant |reply| == Min(i, INT64_LIMIT)
      invariant forall j :: 0 <= j < |reply| ==> reply[j] == DapBreakpoint(j, name, lines[j], true)
    {
      ghost var before := bps.View();
      AddedLine(before, name, lines, i);
      var key := bps.Add("", Line(name, lines[i]));
      if key.Err? {
        continue;
      }
      ParseDecimal(i);
      var keyI := ParseInt(key.value);
      if keyI.None? {
        continue;
      }
      reply := reply + [DapBreakpoint(keyI.value, name, lines[i], true)];
    }
    assert lines[..|lines|] == lines;
  }

  lemma AddedLine(t: Table, name: string, lines: seq<int>, i: nat)
    requires i < |lines| && HoldsRequest(t, name, lines[..i])
    ensures var (t1, r) := TableAdd(t, "", Line(name, lines[i]));
            r == Ok(Decimal(i)) && HoldsRequest(t1, name, lines[..i + 1])
  {
    NextKeyIsNew(i);
    assert lines[..i + 1] == lines[..i] + [lines[i]];
    var t1 := TableAdd(t, "", Line(name, lines[i])).0;
    forall j | 0 <= j < i + 1
      ensures Decimal(j) in t1.bps && t1.bps[Decimal(j)] == Line(name, lines[j])
    {
      if j < i {
        assert lines[..i][j] == lines[j];
        if Decimal(j) == Decimal(i) {
          DecimalInjective(j, i);
        }
      }
    }
  }

  // The registry has a breakpoint on every requested line.
  ghost predicate Keeps(t: Table, name: string, lines: seq<int>) {
    forall i :: 0 <= i < |lines| ==> exists k :: k in t.bps && t.bps[k] == Line(name, lines[i])
  }

  // A request replaces the breakpoints of every source: after a request for another source the
  // lines of an earlier one are kept iff it had none.
  method SetTwice(bps: BreakpointSet, first: string, lines: seq<int>, second: string, others: seq<int>)
    modifies bps
    ensures HoldsRequest(bps.View(), second, others)
    ensures first != second ==> (Keeps(bps.View(), first, lines) <==> lines == [])
  {
    var _ := OnSetBreakpoints(bps, first, lines);
    var _ := OnSetBreakpoints(bps, second, others);
    if first != second {
      OtherSourceDropped(bps.View(), first, lines, second, others);
    }
  }

  lemma OtherSourceDropped(t: Table, first: string, lines: seq<int>, second: string, others: seq<int>)
    requires HoldsRequest(t, second, others) && first != second
    ensures Keeps(t, first, lines) <==> lines == []
  {
    if lines != [] && Keeps(t, first, lines) {
      var k :| k in t.bps && t.bps[k] == Line(first, lines[0]);
      assert false;
    }
  }

  // ---- the ids of a stop -----------------------------------------------------------

  // Every key of hits that parses contributes one id, and nothing else does.
  ghost predicate IdsFrom(hits: map<string, seq<Location>>, ids: seq<int>, keys: seq<string>) {
    && |ids| == |keys|
    && (forall j :: 0 <= j < |ids| ==> keys[j] in hits && ParseInt(keys[j]) == Some(ids[j]))
    && (forall j, k :: 0 <= j < k < |keys| ==> keys[j] != keys[k])
    && (forall k :: k in hits && ParseInt(k).Some? ==> k in keys)
  }

  // debugger.breakHandler up to sending the ids; `keys` records which key each id came from.
  method StopIds(hits: map<string, seq<Location>>) returns (ids: seq<int>, keys: seq<string>)
    ensures IdsFrom(hits, ids, keys)
  {
    ids, keys := [], [];
    var todo := hits.Keys;
    while todo != {}
      invariant todo <= hits.Keys && |ids| == |keys|
      invariant forall j :: 0 <= j < |ids| ==> keys[j] in hits && keys[j] !in todo && ParseInt(keys[j]) == Some(ids[j])
      invariant forall j, k :: 0 <= j < k < |keys| ==> keys[j] != keys[k]
      invariant forall k :: k in hits && k !in todo && ParseInt(k).Some? ==> k in keys
      decreases |todo|
    {
      var si :| si in todo;
      todo := todo - {si};
      var keyI := ParseInt(si);
      if keyI.Some? {
        ids := ids + [keyI.value];
        keys := keys + [si];
      }
    }
  }

  function HitIdSet(hits: map<string, seq<Location>>): set<int> {
    set k | k in hits && ParseInt(k).Some? :: ParseInt(k).value
  }

  predicate LineHit(name: string, lines: seq<int>, status: Status, locs: seq<Location>, i: int) {
    0 <= i < |lines| && HitLocations(Line(name, lines[i]), status, locs).Some?
  }

  // After SetBreakpoints the numeric hits are exactly the request indices whose line is hit.
  lemma HitIdsAreIndices(t: Table, name: string, lines: seq<int>, status: Status, locs: seq<Location>)
    requires HoldsRequest(t, name, lines) && |lines| <= INT64_LIMIT
    ensures HitIdSet(Hits(t.bps, status, locs)) == set i | 0 <= i < |lines| && LineHit(name, lines, status, locs, i)
  {
    var hits := Hits(t.bps, status, locs);
    forall k | k in hits && ParseInt(k).Some?
      ensures LineHit(name, lines, status, locs, ParseInt(k).value)
    {
      assert !IsDigit(ON_FAIL[0]);
      var n: nat :| n < |lines| && k == Decimal(n);
      ParseDecimal(n);
    }
    forall i | 0 <= i < |lines| && LineHit(name, lines, status, locs, i)
      ensures i in HitIdSet(hits)
    {
      ParseDecimal(i);
      assert Decimal(i) in hits;
    }
  }

  // No key is lost and no two keys merge into one id.
  lemma StopIdsAreExact(t: Table, name: string, lines: seq<int>, status: Status, locs: seq<Location>, ids: seq<int>,
                        keys: seq<string>)
    requires HoldsRequest(t, name, lines) && |lines| <= INT64_LIMIT
    requires IdsFrom(Hits(t.bps, status, locs), ids, keys)
    ensures forall i :: i in ids <==> LineHit(name, lines, status, locs, i)
    ensures forall j, k :: 0 <= j < k < |ids| ==> ids[j] != ids[k]
  {
    var hits := Hits(t.bps, status, locs);
    HitIdsAreIndices(t, name, lines, status, locs);
    forall j | 0 <= j < |ids|
      ensures 0 <= ids[j] < |lines| && keys[j] == Decimal(ids[j])
    {
      assert !IsDigit(ON_FAIL[0]);
      var n: nat :| n < |lines| && keys[j] == Decimal(n);
      ParseDecimal(n);
    }
    forall i
      ensures i in ids <==> LineHit(name, lines, status, locs, i)
    {
      if LineHit(name, lines, status, locs, i) {
        assert i in HitIdSet(hits);
        var k :| k in hits && ParseInt(k) == Some(i);
        var j :| 0 <= j < |keys| && keys[j] == k;
        assert ids[j] == i;
      }
      if i in ids {
        var j :| 0 <= j < |ids| && ids[j] == i;
        assert i in HitIdSet(hits);
      }
    }
  }

  // Some breakpoint hits iff the op failed or a requested line is hit.
  lemma HitsIffFailedOrLineHit(t: Table, name: string, lines: seq<int>, status: Status, locs: seq<Location>)
    requires HoldsRequest(t, name, lines)
    ensures Hits(t.bps, status, locs) != map[] <==>
            status.err.Some? || exists i :: LineHit(name, lines, status, locs, i)
  {
    var hits := Hits(t.bps, status, locs);
    if status.err.Some? {
      assert ON_FAIL in hits;
    }
    if i :| LineHit(name, lines, status, locs, i) {
      assert Decimal(i) in hits;
    }
    if hits != map[] {
      var k :| k in hits;
      if k != ON_FAIL {
        var n: nat :| n < |lines| && k == Decimal(n);
        assert LineHit(name, lines, status, locs, n);
      }
    }
  }

  // The reason of the StoppedEvent.
  function Reason(ids: set<int>): string {
    if ids == {} then "step" else "breakpoint"
  }

  // A stop caused by on-fail alone is reported as a step: the reason is "breakpoint" iff some
  // requested line is hit.
  lemma ReasonIsBreakpointIffLineHit(t: Table, name: string, lines: seq<int>, status: Status, locs: seq<Location>)
    requires HoldsRequest(t, name, lines) && |lines| <= INT64_LIMIT
    ensures Reason(HitIdSet(Hits(t.bps, status, locs))) == "breakpoint" <==>
            exists i :: LineHit(name, lines, status, locs, i)
  {
    HitIdsAreIndices(t, name, lines, status, locs);
    var ids := HitIdSet(Hits(t.bps, status, locs));
    if i :| LineHit(name, lines, status, locs, i) {
      assert i in ids;
    }
    if ids != {} {
      var i :| i in ids;
      assert LineHit(name, lines, status, locs, i);
    }
    assert "step" != "breakpoint";
  }

  // ---- Variables -----------------------------------------------------------------------

  datatype Variable = Variable(name: string, value: string)

  // strings.SplitN(e, "=", 2) read as name and value.
  method SplitVariable(e: string) returns (v: Variable)
    ensures '=' !in v.name
    ensures if '=' in e then e == v.name + "=" + v.value else v == Variable(e, "")
  {
    for i := 0 to |e|
      invariant '=' !in e[..i]
    {
      if e[i] == '=' {
        assert e == e[..i] + "=" + e[i + 1..];
        return Variable(e[..i], e[i + 1..]);
      }
    }
    assert e[..|e|] == e;
    v := Variable(e, "");
  }

  function Page(variables: seq<Variable>, start: int, count: int): seq<Variable> {
    var from := if start <= 0 then variables else if start < |variables| then variables[start..] else [];
    if count > 0 && count < |from| then from[..count] else from
  }

  // The variables from start on, at most count of them unless count is 0 or less.
  lemma PageExact(variables: seq<Variable>, start: int, count: int)
    ensures var page := Page(variables, start, count);
            var from := Max(start, 0);
            var left := Max(|variables| - from, 0);
            && |page| == (if count > 0 then Min(count, left) else left)
            && forall k :: 0 <= k < |page| ==> page[k] == variables[from + k]
  {
  }

  ghost predicate VariablesOf(env: seq<string>, variables: seq<Variable>) {
    && |variables| == |env|
    && forall i :: 0 <= i < |env| ==>
         && '=' !in variables[i].name
         && (if '=' in env[i] then env[i] == variables[i].name + "=" + variables[i].value
             else variables[i] == Variable(env[i], ""))
  }

  // What a stop offers: nothing before the first stop, no environment on a step that is no RUN.
  datatype StopContext = NotYet | NoEnvironment | AtRun(env: seq<string>)

  // onVariablesRequest; `all` is the list the page is taken from.
  method OnVariables(stopped: StopContext, start: int, count: int) returns (page: seq<Variable>, all: seq<Variable>)
    ensures stopped.AtRun? ==> VariablesOf(stopped.env, all)
    ensures !stopped.AtRun? ==> all == []
    ensures page == Page(all, start, count)
  {
    all := [];
    if stopped.NotYet? {
      return [], [];
    }
    if stopped.AtRun? {
      for i := 0 to |stopped.env|
        invariant VariablesOf(stopped.env[..i], all)
      {
        var v := SplitVariable(stopped.env[i]);
        all := all + [v];
        assert forall j :: 0 <= j < i ==> stopped.env[..i + 1][j] == stopped.env[..i][j];
      }
      assert stopped.env[..|stopped.env|] == stopped.env;
    }
    page := all;
    if start > 0 {
      if start < |page| {
        page := page[start..];
      } else {
        page := [];
      }
    }
    if count > 0 {
      if count < |page| {
        page := page[..count];
      }
    }
  }

  // The variable list is determined by the environment.
  lemma VariablesUnique(env: seq<string>, a: seq<Variable>, b: seq<Variable>)
    requires VariablesOf(env, a) && VariablesOf(env, b)
    ensures a == b
  {
    forall i | 0 <= i < |env|
      ensures a[i] == b[i]
    {
      if '=' in env[i] {
        SplitUnique(a[i].name, a[i].value, b[i].name, b[i].value);
      }
    }
  }

  lemma SplitUnique(n1: string, v1: string, n2: string, v2: string)
    requires '=' !in n1 && '=' !in n2
    requires n1 + "=" + v1 == n2 + "=" + v2
    ensures n1 == n2 && v1 == v2
  {
    var e := n1 + "=" + v1;
    assert e[|n1|] == '=' && e[|n2|] == '=';
    assert forall i :: 0 <= i < |n1| ==> e[i] == n1[i];
    assert forall i :: 0 <= i < |n2| ==> e[i] == n2[i];
    assert n1 == e[..|n1|] && n2 == e[..|n2|];
    assert v1 == e[|n1| + 1..] && v2 == e[|n2| + 1..];
  }

  // The pages a client asks for from `start` on, c at a time.
  function PagesFrom(variables: seq<Variable>, start: nat, c: nat): seq<Variable>
    requires c > 0
    decreases if start < |variables| then |variables| - start else 0
  {
    if start >= |variables| then [] else Page(variables, start, c) + PagesFrom(variables, start + c, c)
  }

  // For any page size the pages concatenate to the whole list, nothing missing or repeated.
  lemma PagesConcatenate(variables: seq<Variable>, c: nat)
    requires c > 0
    ensures PagesFrom(variables, 0, c) == variables
    ensures Page(variables, 0, 0) == variables
  {
    PagesCoverRest(variables, 0, c);
  }

  lemma {:induction false} PagesCoverRest(variables: seq<Variable>, start: nat, c: nat)
    requires c > 0 && start <= |variables|
    ensures PagesFrom(variables, start, c) == variables[start..]
    decreases |variables| - start
  {
    if start == |variables| || start + c > |variables| {
    } else {
      PagesCoverRest(variables, start + c, c);
      assert variables[start..] == variables[start..start + c] + variables[start + c..];
    }
  }
}
