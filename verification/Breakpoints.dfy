// pkg/buildkit/breakpoint.go and getHitBreakpoints of pkg/buildkit/handler.go:
// the breakpoint kinds, the registry with its automatic keys, ordered iteration.
module Breakpoints {
  import opened Common
  import opened Text

  // Line numbers of a source range, both ends included.
  datatype Range = Range(start: int, end: int)

  // One *pb.SourceInfo: `id` is its pointer identity, `lines` what a line scanner yields.
  datatype SourceInfo = SourceInfo(id: nat, filename: string, lines: seq<string>)

  datatype Location = Location(source: SourceInfo, ranges: seq<Range>)

  // The parts of a RegisteredStatus that breakpoints look at.
  datatype Status = Status(vertex: string, err: Option<string>)

  datatype Breakpoint = OnFail | Line(filename: string, line: int)

  const ON_FAIL := "on-fail"

  predicate Covers(r: Range, line: int) {
    r.start <= line <= r.end
  }

  // The hits of a line in the ranges of one source, in order.
  function RangeHits(source: SourceInfo, ranges: seq<Range>, line: int): seq<Location> {
    if ranges == [] then []
    else
      var r := ranges[|ranges| - 1];
      RangeHits(source, ranges[..|ranges| - 1], line) + if Covers(r, line) then [Location(source, [r])] else []
  }

  function LineHits(filename: string, line: int, locs: seq<Location>): seq<Location> {
    if locs == [] then []
    else
      var loc := locs[|locs| - 1];
      LineHits(filename, line, locs[..|locs| - 1]) +
      if loc.source.filename == filename then RangeHits(loc.source, loc.ranges, line) else []
  }

  // None when the breakpoint is not a target of the event, otherwise its hit locations.
  function HitLocations(bp: Breakpoint, status: Status, locs: seq<Location>): Option<seq<Location>> {
    match bp
    case OnFail => if status.err.Some? then Some(locs) else None
    case Line(filename, line) =>
      var hits := LineHits(filename, line, locs);
      if hits == [] then None else Some(hits)
  }

  // onFailBreakpoint.isTarget and lineBreakpoint.isTarget.
  method IsTarget(bp: Breakpoint, status: Status, locs: seq<Location>) returns (r: Option<seq<Location>>)
    ensures r == HitLocations(bp, status, locs)
  {
    if bp.OnFail? {
      return if status.err.Some? then Some(locs) else None;
    }
    var hits: seq<Location> := [];
    var found := false;
    for i := 0 to |locs|
      invariant hits == LineHits(bp.filename, bp.line, locs[..i])
      invariant found == (hits != [])
    {
      var loc := locs[i];
      assert locs[..i + 1][..i] == locs[..i];
      if loc.source.filename == bp.filename {
        ghost var before := hits;
        for j := 0 to |loc.ranges|
          invariant hits == before + RangeHits(loc.source, loc.ranges[..j], bp.line)
          invariant found == (hits != [])
        {
          assert loc.ranges[..j + 1][..j] == loc.ranges[..j];
          if loc.ranges[j].start <= bp.line && bp.line <= loc.ranges[j].end {
            hits := hits + [Location(loc.source, [loc.ranges[j]])];
            found := true;
          }
        }
        assert loc.ranges[..|loc.ranges|] == loc.ranges;
      }
    }
    assert locs[..|locs|] == locs;
    r := if found then Some(hits) else None;
  }

  // Some range of some location in that file covers the line: what a hit means.
  ghost predicate CoveredAt(filename: string, line: int, locs: seq<Location>, i: int, j: int) {
    && 0 <= i < |locs| && locs[i].source.filename == filename
    && 0 <= j < |locs[i].ranges| && locs[i].ranges[j].start <= line <= locs[i].ranges[j].end
  }

  lemma {:induction false} RangeHitsExact(source: SourceInfo, ranges: seq<Range>, line: int, h: Location)
    ensures h in RangeHits(source, ranges, line) <==>
            exists j :: 0 <= j < |ranges| && Covers(ranges[j], line) && h == Location(source, [ranges[j]])
  {
    if ranges == [] {
    } else {
      var front, last := ranges[..|ranges| - 1], ranges[|ranges| - 1];
      RangeHitsExact(source, front, line, h);
      assert ranges == front + [last];
      if Covers(last, line) && h == Location(source, [last]) {
        assert ranges[|ranges| - 1] == last;
      }
      if j :| 0 <= j < |front| && Covers(front[j], line) && h == Location(source, [front[j]]) {
        assert ranges[j] == front[j];
      }
      if j :| 0 <= j < |ranges| && Covers(ranges[j], line) && h == Location(source, [ranges[j]]) {
        assert j < |front| ==> front[j] == ranges[j];
      }
    }
  }

  // The hit locations are exactly the ranges of that file that cover the line.
  lemma {:induction false} LineHitsExact(filename: string, line: int, locs: seq<Location>, h: Location)
    ensures h in LineHits(filename, line, locs) <==>
            exists i, j :: CoveredAt(filename, line, locs, i, j) && h == Location(locs[i].source, [locs[i].ranges[j]])
  {
    if locs == [] {
    } else {
      var front, last := locs[..|locs| - 1], locs[|locs| - 1];
      LineHitsExact(filename, line, front, h);
      RangeHitsExact(last.source, last.ranges, line, h);
      assert locs == front + [last];
      if i, j :| CoveredAt(filename, line, front, i, j) && h == Location(front[i].source, [front[i].ranges[j]]) {
        assert locs[i] == front[i] && CoveredAt(filename, line, locs, i, j);
      }
      if last.source.filename == filename {
        if j :| 0 <= j < |last.ranges| && Covers(last.ranges[j], line) && h == Location(last.source, [last.ranges[j]]) {
          assert CoveredAt(filename, line, locs, |front|, j);
        }
      }
      if i, j :| CoveredAt(filename, line, locs, i, j) && h == Location(locs[i].source, [locs[i].ranges[j]]) {
        if i < |front| {
          assert front[i] == locs[i] && CoveredAt(filename, line, front, i, j);
        }
      }
    }
  }

  // A line breakpoint is a target iff its line is covered somewhere in its file.
  lemma LineTargetIffCovered(filename: string, line: int, status: Status, locs: seq<Location>)
    ensures HitLocations(Line(filename, line), status, locs).Some? <==>
            exists i, j :: CoveredAt(filename, line, locs, i, j)
  {
    var hits := LineHits(filename, line, locs);
    if hits != [] {
      LineHitsExact(filename, line, locs, hits[0]);
    }
    if i, j :| CoveredAt(filename, line, locs, i, j) {
      LineHitsExact(filename, line, locs, Location(locs[i].source, [locs[i].ranges[j]]));
    }
  }

  // What a target reports: an op that failed all its locations, a covered line the ranges that
  // cover it.
  lemma TargetLocations(bp: Breakpoint, status: Status, locs: seq<Location>, h: Location)
    ensures bp.OnFail? ==> HitLocations(bp, status, locs) == if status.err.Some? then Some(locs) else None
    ensures bp.Line? && HitLocations(bp, status, locs).Some? ==>
              (h in HitLocations(bp, status, locs).value <==>
                 exists i, j :: CoveredAt(bp.filename, bp.line, locs, i, j)
                                && h == Location(locs[i].source, [locs[i].ranges[j]]))
  {
    if bp.Line? {
      LineHitsExact(bp.filename, bp.line, locs, h);
    }
  }

  // ---- the registry ------------------------------------------------------

  datatype Table = Table(bps: map<string, Breakpoint>, index: nat)

  datatype AddError = AlreadyExists(key: string)

  // Breakpoints.Add: an empty key asks for the next automatic one; the index moves on even
  // when that key turns out to be taken.
  function TableAdd(t: Table, key: string, bp: Breakpoint): (Table, Result<string, AddError>) {
    var t1 := if key == "" then t.(index := t.index + 1) else t;
    var k := if key == "" then Decimal(t.index) else key;
    if k in t1.bps then (t1, Err(AlreadyExists(k)))
    else (t1.(bps := t1.bps[k := bp]), Ok(k))
  }

  function TableClear(t: Table, key: string): Table {
    t.(bps := t.bps - {key})
  }

  const EMPTY_TABLE := Table(map[], 0)

  // The table every session starts with.
  const INITIAL_TABLE := Table(map[ON_FAIL := OnFail], 0)

  function Hits(bps: map<string, Breakpoint>, status: Status, locs: seq<Location>): map<string, seq<Location>> {
    map k | k in bps && HitLocations(bps[k], status, locs).Some? :: HitLocations(bps[k], status, locs).value
  }

  class BreakpointSet {
    var breakpoints: map<string, Breakpoint>
    var breakpointIndex: nat

    function View(): Table
      reads this
    {
      Table(breakpoints, breakpointIndex)
    }

    constructor ()
      ensures View() == EMPTY_TABLE
    {
      breakpoints := map[];
      breakpointIndex := 0;
    }

    method Add(key: string, bp: Breakpoint) returns (r: Result<string, AddError>)
      modifies this
      ensures (View(), r) == TableAdd(old(View()), key, bp)
      ensures r.Ok? ==> r.value !in old(breakpoints) && breakpoints == old(breakpoints)[r.value := bp]
      ensures r.Err? ==> breakpoints == old(breakpoints)
    {
      var k := key;
      if k == "" {
        var currentIdx := breakpointIndex;
        breakpointIndex := breakpointIndex + 1;
        k := Decimal(currentIdx);
      }
      if k in breakpoints {
        return Err(AlreadyExists(k));
      }
      breakpoints := breakpoints[k := bp];
      r := Ok(k);
    }

    method Get(key: string) returns (r: Option<Breakpoint>)
      ensures r.Some? <==> key in breakpoints
      ensures r.Some? ==> r.value == breakpoints[key]
    {
      r := if key in breakpoints then Some(breakpoints[key]) else None;
    }

    method Clear(key: string)
      modifies this
      ensures View() == TableClear(old(View()), key)
    {
      breakpoints := breakpoints - {key};
    }

    method ClearAll()
      modifies this
      ensures View() == EMPTY_TABLE
    {
      breakpoints := map[];
      breakpointIndex := 0;
    }

    // The keys in increasing order until the callback says stop; `visited` are the calls made.
    method ForEach(f: (string, Breakpoint) -> bool) returns (visited: seq<string>)
      ensures StrictlySorted(visited) && forall k :: k in visited ==> k in breakpoints
      ensures forall i :: 0 <= i < |visited| - 1 ==> f(visited[i], breakpoints[visited[i]])
      ensures forall k :: k in breakpoints && k !in visited ==>
                visited != [] && !f(visited[|visited| - 1], breakpoints[visited[|visited| - 1]])
                && Less(visited[|visited| - 1], k)
      // an early-stopping callback decides "some breakpoint satisfies the test"
      ensures (exists k :: k in breakpoints && !f(k, breakpoints[k])) <==>
              visited != [] && !f(visited[|visited| - 1], breakpoints[visited[|visited| - 1]])
    {
      var keys := SortedKeys(breakpoints.Keys);
      visited := [];
      for i := 0 to |keys|
        invariant visited == keys[..i]
        invariant forall j :: 0 <= j < i ==> f(keys[j], breakpoints[keys[j]])
      {
        visited := visited + [keys[i]];
        if !f(keys[i], breakpoints[keys[i]]) {
          assert visited == keys[..i + 1];
          assert forall m :: 0 <= m <= i ==> keys[m] == visited[m];
          forall k | k in breakpoints && k !in visited
            ensures Less(keys[i], k)
          {
            assert k in keys;
            var j :| 0 <= j < |keys| && keys[j] == k;
          }
          return;
        }
      }
      assert visited == keys;
    }

    method GetHitBreakpoints(status: Status, locs: seq<Location>) returns (hit: map<string, seq<Location>>)
      ensures hit == Hits(breakpoints, status, locs)
    {
      var keys := SortedKeys(breakpoints.Keys);
      hit := map[];
      for i := 0 to |keys|
        invariant hit.Keys ==
                  set k | k in breakpoints && k in keys[..i] && HitLocations(breakpoints[k], status, locs).Some?
        invariant forall k :: k in hit ==> hit[k] == HitLocations(breakpoints[k], status, locs).value
      {
        assert keys[..i + 1] == keys[..i] + [keys[i]];
        assert keys[i] in keys;
        var r := IsTarget(breakpoints[keys[i]], status, locs);
        if r.Some? {
          hit := hit[keys[i] := r.value];
        }
      }
      assert keys[..|keys|] == keys;
    }
  }

  // ---- automatic keys never collide --------------------------------------

  // What the CLI commands and the DAP requests do to the registry.
  datatype RegistryOp = AddAuto(bp: Breakpoint) | AddOnFail | Remove(key: string) | RemoveAll

  // The registry and the automatic keys handed out since the last RemoveAll.
  datatype Registry = Registry(table: Table, issued: set<string>)

  function ApplyOp(g: Registry, op: RegistryOp): Registry {
    match op
    case AddAuto(bp) =>
      var (t, r) := TableAdd(g.table, "", bp);
      Registry(t, if r.Ok? then g.issued + {r.value} else g.issued)
    case AddOnFail => g.(table := TableAdd(g.table, ON_FAIL, OnFail).0)
    case Remove(key) => g.(table := TableClear(g.table, key))
    case RemoveAll => Registry(EMPTY_TABLE, {})
  }

  function Replay(ops: seq<RegistryOp>): Registry {
    if ops == [] then Registry(INITIAL_TABLE, {}) else ApplyOp(Replay(ops[..|ops| - 1]), ops[|ops| - 1])
  }

  ghost predicate IsAutoKey(k: string, index: nat) {
    exists n: nat :: n < index && k == Decimal(n)
  }

  ghost predicate KeysBelowIndex(t: Table) {
    forall k :: k in t.bps ==> k == ON_FAIL || IsAutoKey(k, t.index)
  }

  ghost predicate RegistryInv(g: Registry) {
    KeysBelowIndex(g.table) && forall k :: k in g.issued ==> IsAutoKey(k, g.table.index)
  }

  lemma NextKeyIsNew(index: nat)
    ensures !IsAutoKey(Decimal(index), index)
    ensures Decimal(index) != ON_FAIL
    ensures forall k :: IsAutoKey(k, index) ==> IsAutoKey(k, index + 1)
    ensures IsAutoKey(Decimal(index), index + 1)
  {
    forall n: nat | n < index && Decimal(n) == Decimal(index)
      ensures false
    {
      DecimalInjective(n, index);
    }
    assert !IsDigit(ON_FAIL[0]);
  }

  lemma ApplyOpKeepsInv(g: Registry, op: RegistryOp)
    requires RegistryInv(g)
    ensures RegistryInv(ApplyOp(g, op))
  {
  }

  lemma {:induction false} ReplayInv(ops: seq<RegistryOp>)
    ensures RegistryInv(Replay(ops))
  {
    if ops == [] {
    } else {
      ReplayInv(ops[..|ops| - 1]);
      ApplyOpKeepsInv(Replay(ops[..|ops| - 1]), ops[|ops| - 1]);
    }
  }

  // In every reachable registry an automatic Add succeeds, with a key that is neither present
  // nor was handed out since the last ClearAll, and touches no other entry.
  lemma AutoAddNeverCollides(ops: seq<RegistryOp>, bp: Breakpoint)
    ensures var g := Replay(ops);
            var (t, r) := TableAdd(g.table, "", bp);
            && r == Ok(Decimal(g.table.index))
            && r.value !in g.table.bps
            && r.value !in g.issued
            && t == Table(g.table.bps[r.value := bp], g.table.index + 1)
  {
    ReplayInv(ops);
    NextKeyIsNew(Replay(ops).table.index);
  }

  // ClearAll restarts the numbering, so a key may be handed out again after it.
  lemma ClearAllReissues(ops: seq<RegistryOp>, bp: Breakpoint)
    ensures TableAdd(Replay(ops + [RemoveAll]).table, "", bp).1 == Ok("0")
  {
  }
}
