// The source listing of list.go: which lines are printed, marked and pointed at.
module Listing {
  import opened Breakpoints

  // Lines before and after each range, or all lines.
  datatype Window = Window(before: int, after: int, all: bool)

  datatype Out =
    | Filename(name: string)
    | Separator
    | Row(no: int, marked: bool, target: bool, text: string)

  predicate IsMarked(bp: Breakpoint, source: SourceInfo, line: int) {
    bp.Line? && source.filename == bp.filename && line == bp.line
  }

  predicate InWindow(r: Range, w: Window, i: int) {
    w.all || r.start - w.before <= i <= r.end + w.after
  }

  // ---- what a listing must show ---------------------------------------------------

  ghost predicate Printed(ranges: seq<Range>, w: Window, i: int) {
    exists r :: r in ranges && InWindow(r, w, i)
  }

  ghost predicate Targeted(ranges: seq<Range>, w: Window, i: int) {
    exists r :: r in ranges && InWindow(r, w, i) && Covers(r, i)
  }

  ghost predicate Covered(ranges: seq<Range>, i: int) {
    exists r :: r in ranges && Covers(r, i)
  }

  ghost predicate Marked(bps: map<string, Breakpoint>, source: SourceInfo, i: int) {
    exists k :: k in bps && IsMarked(bps[k], source, i)
  }

  ghost function RowFor(bps: map<string, Breakpoint>, source: SourceInfo, ranges: seq<Range>, w: Window, i: int): Out
    requires 1 <= i <= |source.lines|
  {
    Row(i, Marked(bps, source, i), Targeted(ranges, w, i), source.lines[i - 1])
  }

  // Rows for lines 1..n of one source, as a property of the output: exactly the printed lines,
  // in increasing order, and a separator exactly where lines were left out in between.
  ghost predicate IsListing(out: seq<Out>, bps: map<string, Breakpoint>, source: SourceInfo, ranges: seq<Range>,
                            w: Window, n: int)
    requires 0 <= n <= |source.lines|
  {
    && (forall i :: 1 <= i <= n && Printed(ranges, w, i) ==> RowFor(bps, source, ranges, w, i) in out)
    && (forall k :: 0 <= k < |out| && out[k].Row? ==> ProperRow(out[k], bps, source, ranges, w, n))
    && InOrder(out)
    && Separated(out)
  }

  ghost predicate ProperRow(o: Out, bps: map<string, Breakpoint>, source: SourceInfo, ranges: seq<Range>, w: Window,
                            n: int)
    requires o.Row? && 0 <= n <= |source.lines|
  {
    1 <= o.no <= n && Printed(ranges, w, o.no) && o == RowFor(bps, source, ranges, w, o.no)
  }

  ghost predicate InOrder(out: seq<Out>) {
    forall k, l :: 0 <= k < l < |out| && out[k].Row? && out[l].Row? ==> out[k].no < out[l].no
  }

  ghost predicate Separated(out: seq<Out>) {
    && (out != [] ==> out[0].Row? && out[|out| - 1].Row?)
    && (forall k :: 0 <= k < |out| ==> !out[k].Filename?)
    && (forall k :: 0 < k < |out| ==> GapAt(out, k))
  }

  // Rows that follow each other directly are neighbouring lines; a separator stands between
  // two rows that are not.
  ghost predicate GapAt(out: seq<Out>, k: int)
    requires 0 < k < |out|
  {
    && (out[k].Row? && out[k - 1].Row? ==> out[k].no == out[k - 1].no + 1)
    && (out[k].Separator? ==> k + 1 < |out| && out[k - 1].Row? && out[k + 1].Row? && out[k - 1].no + 1 < out[k + 1].no)
  }

  // Such an output is unique, so IsListing says everything about it.
  lemma ListingUnique(a: seq<Out>, b: seq<Out>, bps: map<string, Breakpoint>, source: SourceInfo, ranges: seq<Range>,
                      w: Window, n: int)
    requires 0 <= n <= |source.lines|
    requires IsListing(a, bps, source, ranges, w, n) && IsListing(b, bps, source, ranges, w, n)
    ensures a == b
  {
    RowsOfOther(a, b, bps, source, ranges, w, n);
    RowsOfOther(b, a, bps, source, ranges, w, n);
    var m := if |a| <= |b| then |a| else |b|;
    TwinsAgree(a, b, m);
    NotLonger(a, b, m);
    NotLonger(b, a, m);
    assert a[..|a|] == a && b[..|b|] == b;
  }

  lemma RowsOfOther(a: seq<Out>, b: seq<Out>, bps: map<string, Breakpoint>, source: SourceInfo, ranges: seq<Range>,
                    w: Window, n: int)
    requires 0 <= n <= |source.lines|
    requires IsListing(a, bps, source, ranges, w, n) && IsListing(b, bps, source, ranges, w, n)
    ensures forall k :: 0 <= k < |a| && a[k].Row? ==> a[k] in b
  {
    forall k | 0 <= k < |a| && a[k].Row?
      ensures a[k] in b
    {
      assert ProperRow(a[k], bps, source, ranges, w, n);
    }
  }

  // Two outputs in proper shape with the same rows.
  ghost predicate Twins(a: seq<Out>, b: seq<Out>) {
    && InOrder(a) && Separated(a) && InOrder(b) && Separated(b)
    && (forall k :: 0 <= k < |a| && a[k].Row? ==> a[k] in b)
    && (forall k :: 0 <= k < |b| && b[k].Row? ==> b[k] in a)
  }

  // A row after a common prefix of the two is also in the other, after that prefix.
  lemma RowInBoth(a: seq<Out>, b: seq<Out>, m: nat, k: nat)
    requires Twins(a, b)
    requires m <= |a| && m <= |b| && a[..m] == b[..m]
    requires m <= k < |a| && a[k].Row?
    ensures exists l :: m <= l < |b| && b[l] == a[k]
  {
    assert forall q :: 0 <= q < m ==> a[..m][q] == a[q] && b[..m][q] == b[q];
    var l :| 0 <= l < |b| && b[l] == a[k];
  }

  lemma {:induction false} TwinsAgree(a: seq<Out>, b: seq<Out>, m: nat)
    requires Twins(a, b) && m <= |a| && m <= |b|
    ensures a[..m] == b[..m]
    decreases m
  {
    if m == 0 {
    } else {
      TwinsAgree(a, b, m - 1);
      SameNext(a, b, m - 1);
      assert a[..m] == a[..m - 1] + [a[m - 1]] && b[..m] == b[..m - 1] + [b[m - 1]];
    }
  }

  // The next row of a, at or after position m.
  function NextRow(a: seq<Out>, m: nat): nat
    requires m < |a|
  {
    if a[m].Row? || m + 1 == |a| then m else m + 1
  }

  lemma SameNext(a: seq<Out>, b: seq<Out>, m: nat)
    requires Twins(a, b) && m < |a| && m < |b| && a[..m] == b[..m]
    ensures a[m] == b[m]
  {
    if m > 0 {
      assert a[m - 1] == a[..m][m - 1] == b[..m][m - 1] == b[m - 1];
      assert GapAt(a, m) && GapAt(b, m);
    }
    var i, j := NextRow(a, m), NextRow(b, m);
    RowInBoth(a, b, m, i);
    RowInBoth(b, a, m, j);
    var l :| m <= l < |b| && b[l] == a[i];
    var k :| m <= k < |a| && a[k] == b[j];
    assert b[j].no <= b[l].no && a[i].no <= a[k].no;
    assert a[i].no == b[j].no;
  }

  lemma NotLonger(a: seq<Out>, b: seq<Out>, m: nat)
    requires Twins(a, b) && m <= |a| && m <= |b| && a[..m] == b[..m]
    ensures m == |a| ==> |b| == m
  {
    assert forall q :: 0 <= q < m ==> a[..m][q] == a[q] && b[..m][q] == b[q];
  }

  // ---- printing one source ------------------------------------------------------------

  method PrintSource(source: SourceInfo, ranges: seq<Range>, breakpoints: BreakpointSet, w: Window)
    returns (out: seq<Out>)
    ensures IsListing(out, breakpoints.breakpoints, source, ranges, w, |source.lines|)
  {
    out := [];
    var lastLinePrinted := false;
    var firstPrint := true;
    for n := 0 to |source.lines|
      invariant IsListing(out, breakpoints.breakpoints, source, ranges, w, n)
      invariant firstPrint <==> out == []
      invariant lastLinePrinted <==> n > 0 && Printed(ranges, w, n)
      invariant lastLinePrinted ==> out != [] && out[|out| - 1].no == n
      invariant !lastLinePrinted && out != [] ==> out[|out| - 1].no < n
    {
      var i := n + 1;
      var doPrint, target := Inspect(ranges, w, i);
      if !doPrint {
        lastLinePrinted := false;
        SkipLine(out, breakpoints.breakpoints, source, ranges, w, n);
      } else {
        ghost var before := out;
        if !lastLinePrinted && !firstPrint {
          out := out + [Separator];
        }
        var marked := HasMark(breakpoints, source, i);
        out := out + [Row(i, marked, target, source.lines[n])];
        AddLine(before, out, breakpoints.breakpoints, source, ranges, w, n);
        lastLinePrinted := true;
        firstPrint := false;
      }
    }
  }

  // The loop over the breakpoints: it stops at the first one on this line.
  method HasMark(breakpoints: BreakpointSet, source: SourceInfo, i: int) returns (marked: bool)
    ensures marked <==> Marked(breakpoints.breakpoints, source, i)
  {
    var visited := breakpoints.ForEach((_, b) => !IsMarked(b, source, i));
    marked := visited != [] && IsMarked(breakpoints.breakpoints[visited[|visited| - 1]], source, i);
  }

  // The loop over the ranges: it stops at the first range that covers the line.
  method Inspect(ranges: seq<Range>, w: Window, i: int) returns (doPrint: bool, target: bool)
    ensures doPrint <==> Printed(ranges, w, i)
    ensures target <==> Targeted(ranges, w, i)
  {
    doPrint, target := false, false;
    for j := 0 to |ranges|
      invariant doPrint <==> exists k :: 0 <= k < j && InWindow(ranges[k], w, i)
      invariant !target && forall k :: 0 <= k < j ==> !(InWindow(ranges[k], w, i) && Covers(ranges[k], i))
    {
      var r := ranges[j];
      if w.all || (r.start - w.before <= i && i <= r.end + w.after) {
        doPrint := true;
        assert r in ranges && InWindow(r, w, i);
        if r.start <= i && i <= r.end {
          target := true;
          break;
        }
      }
    }
  }

  lemma SkipLine(out: seq<Out>, bps: map<string, Breakpoint>, source: SourceInfo, ranges: seq<Range>, w: Window, n: int)
    requires 0 <= n < |source.lines|
    requires IsListing(out, bps, source, ranges, w, n) && !Printed(ranges, w, n + 1)
    ensures IsListing(out, bps, source, ranges, w, n + 1)
  {
  }

  // The output after line n + 1: a separator first, exactly when the line before was left out.
  ghost predicate Appends(before: seq<Out>, out: seq<Out>, row: Out, n: int) {
    && (before != [] ==> before[|before| - 1].Row? && before[|before| - 1].no <= n)
    && out == if before == [] || before[|before| - 1].no == n then before + [row] else before + [Separator] + [row]
  }

  lemma AddLineGaps(before: seq<Out>, out: seq<Out>, row: Out, n: int)
    requires Separated(before) && row.Row? && row.no == n + 1 && Appends(before, out, row, n)
    ensures Separated(out)
  {
    assert out[|out| - 1] == row;
    assert forall k :: 0 <= k < |before| ==> out[k] == before[k];
    forall k | 0 < k < |out|
      ensures GapAt(out, k)
    {
      if k < |before| {
        assert GapAt(before, k);
      }
    }
  }

  lemma AddLineOrder(before: seq<Out>, out: seq<Out>, row: Out, n: int)
    requires InOrder(before) && row.Row? && row.no == n + 1 && Appends(before, out, row, n)
    requires forall k :: 0 <= k < |before| && before[k].Row? ==> before[k].no <= n
    ensures InOrder(out)
  {
  }

  lemma AddLineRows(before: seq<Out>, out: seq<Out>, bps: map<string, Breakpoint>, source: SourceInfo,
                    ranges: seq<Range>, w: Window, n: int)
    requires 0 <= n < |source.lines| && Printed(ranges, w, n + 1)
    requires IsListing(before, bps, source, ranges, w, n)
    requires Appends(before, out, RowFor(bps, source, ranges, w, n + 1), n)
    ensures forall i :: 1 <= i <= n + 1 && Printed(ranges, w, i) ==> RowFor(bps, source, ranges, w, i) in out
  {
  }

  lemma AddLineProper(before: seq<Out>, out: seq<Out>, bps: map<string, Breakpoint>, source: SourceInfo,
                      ranges: seq<Range>, w: Window, n: int, k: nat)
    requires 0 <= n < |source.lines| && Printed(ranges, w, n + 1)
    requires forall k :: 0 <= k < |before| && before[k].Row? ==> ProperRow(before[k], bps, source, ranges, w, n)
    requires Appends(before, out, RowFor(bps, source, ranges, w, n + 1), n)
    requires k < |out| && out[k].Row?
    ensures ProperRow(out[k], bps, source, ranges, w, n + 1)
  {
  }

  lemma AddLine(before: seq<Out>, out: seq<Out>, bps: map<string, Breakpoint>, source: SourceInfo,
                ranges: seq<Range>, w: Window, n: int)
    requires 0 <= n < |source.lines| && Printed(ranges, w, n + 1)
    requires IsListing(before, bps, source, ranges, w, n)
    requires Appends(before, out, RowFor(bps, source, ranges, w, n + 1), n)
    ensures IsListing(out, bps, source, ranges, w, n + 1)
  {
    var row := RowFor(bps, source, ranges, w, n + 1);
    AddLineRows(before, out, bps, source, ranges, w, n);
    forall k: nat | k < |out| && out[k].Row?
      ensures ProperRow(out[k], bps, source, ranges, w, n + 1)
    {
      AddLineProper(before, out, bps, source, ranges, w, n, k);
    }
    assert InOrder(out) by {
      AddLineOrder(before, out, row, n);
    }
    assert Separated(out) by {
      AddLineGaps(before, out, row, n);
    }
  }

  // ---- several sources ---------------------------------------------------------------------

  // The ranges of one source over all locations, in order.
  function RangesOf(source: SourceInfo, locs: seq<Location>): seq<Range> {
    if locs == [] then []
    else
      var last := locs[|locs| - 1];
      RangesOf(source, locs[..|locs| - 1]) + if last.source == source then last.ranges else []
  }

  lemma {:induction false} RangesOfMember(source: SourceInfo, locs: seq<Location>, r: Range)
    ensures r in RangesOf(source, locs) <==>
            exists i :: 0 <= i < |locs| && locs[i].source == source && r in locs[i].ranges
  {
    if locs == [] {
    } else {
      var front := locs[..|locs| - 1];
      RangesOfMember(source, front, r);
      if i :| 0 <= i < |front| && front[i].source == source && r in front[i].ranges {
        assert locs[i] == front[i];
      }
      if i :| 0 <= i < |locs| && locs[i].source == source && r in locs[i].ranges {
        assert i < |front| ==> front[i] == locs[i];
      }
    }
  }

  method GroupBySource(locs: seq<Location>) returns (sources: map<SourceInfo, seq<Range>>)
    ensures forall s :: s in sources ==> sources[s] == RangesOf(s, locs)
    ensures forall s :: s !in sources ==> RangesOf(s, locs) == []
  {
    sources := map[];
    for i := 0 to |locs|
      invariant forall s :: s in sources ==> sources[s] == RangesOf(s, locs[..i])
      invariant forall s :: s !in sources ==> RangesOf(s, locs[..i]) == []
    {
      assert locs[..i + 1][..i] == locs[..i];
      var l := locs[i];
      var old' := if l.source in sources then sources[l.source] else [];
      sources := sources[l.source := old' + l.ranges];
    }
    assert locs[..|locs|] == locs;
  }

  // One block per source that has ranges, in whatever order the map is ranged over.
  datatype Block = Block(source: SourceInfo, rows: seq<Out>)

  ghost predicate IsPage(blocks: seq<Block>, bps: map<string, Breakpoint>, locs: seq<Location>, w: Window) {
    && (forall s :: RangesOf(s, locs) != [] ==> HasBlock(blocks, s))
    && (forall k :: 0 <= k < |blocks| ==> BlockOk(blocks[k], bps, locs, w))
    && (forall k, l :: 0 <= k < l < |blocks| ==> blocks[k].source != blocks[l].source)
  }

  ghost predicate HasBlock(blocks: seq<Block>, source: SourceInfo) {
    exists k :: 0 <= k < |blocks| && blocks[k].source == source
  }

  ghost predicate BlockOk(b: Block, bps: map<string, Breakpoint>, locs: seq<Location>, w: Window) {
    && RangesOf(b.source, locs) != []
    && IsListing(b.rows, bps, b.source, RangesOf(b.source, locs), w, |b.source.lines|)
  }

  function Flatten(blocks: seq<Block>): seq<Out> {
    if blocks == [] then []
    else
      var b := blocks[|blocks| - 1];
      Flatten(blocks[..|blocks| - 1]) + [Filename(b.source.filename)] + b.rows
  }

  // The page as far as the sources not in todo are concerned.
  ghost predicate IsPartialPage(blocks: seq<Block>, bps: map<string, Breakpoint>, locs: seq<Location>, w: Window,
                                todo: set<SourceInfo>) {
    && (forall s :: s !in todo && RangesOf(s, locs) != [] ==> HasBlock(blocks, s))
    && (forall k :: 0 <= k < |blocks| ==> BlockOk(blocks[k], bps, locs, w) && blocks[k].source !in todo)
    && (forall k, l :: 0 <= k < l < |blocks| ==> blocks[k].source != blocks[l].source)
  }

  lemma AddBlock(blocks: seq<Block>, b: Block, bps: map<string, Breakpoint>, locs: seq<Location>, w: Window,
                 todo: set<SourceInfo>)
    requires IsPartialPage(blocks, bps, locs, w, todo) && b.source in todo && BlockOk(b, bps, locs, w)
    ensures IsPartialPage(blocks + [b], bps, locs, w, todo - {b.source})
    ensures Flatten(blocks + [b]) == Flatten(blocks) + [Filename(b.source.filename)] + b.rows
  {
  }

  // The text written, and the blocks it consists of.
  method PrintLines(breakpoints: BreakpointSet, locs: seq<Location>, w: Window)
    returns (out: seq<Out>, blocks: seq<Block>)
    ensures IsPage(blocks, breakpoints.breakpoints, locs, w)
    ensures out == Flatten(blocks)
  {
    var sources := GroupBySource(locs);
    out, blocks := [], [];
    var todo := sources.Keys;
    while todo != {}
      invariant todo <= sources.Keys
      invariant IsPartialPage(blocks, breakpoints.breakpoints, locs, w, todo)
      invariant out == Flatten(blocks)
      decreases |todo|
    {
      var source :| source in todo;
      if |sources[source]| > 0 {
        out := out + [Filename(source.filename)];
        var rows := PrintSource(source, sources[source], breakpoints, w);
        out := out + rows;
        assert BlockOk(Block(source, rows), breakpoints.breakpoints, locs, w);
        AddBlock(blocks, Block(source, rows), breakpoints.breakpoints, locs, w, todo);
        blocks := blocks + [Block(source, rows)];
      }
      todo := todo - {source};
    }
  }

  // What a printed row says: it is marked iff a breakpoint is registered on this line of this
  // file, it is pointed at iff a range covers it in whose window it is, and it shows that line.
  lemma RowsTellTheTruth(out: seq<Out>, bps: map<string, Breakpoint>, source: SourceInfo, ranges: seq<Range>,
                         w: Window, o: Out)
    requires IsListing(out, bps, source, ranges, w, |source.lines|)
    requires o in out && o.Row?
    ensures 1 <= o.no <= |source.lines| && o.text == source.lines[o.no - 1]
    ensures o.marked <==> exists k :: k in bps && bps[k] == Line(source.filename, o.no)
    ensures o.target <==> exists r :: r in ranges && InWindow(r, w, o.no) && r.start <= o.no <= r.end
  {
    var k :| 0 <= k < |out| && out[k] == o;
    assert ProperRow(out[k], bps, source, ranges, w, |source.lines|);
    if key :| key in bps && bps[key] == Line(source.filename, o.no) {
      assert IsMarked(bps[key], source, o.no);
    }
    if o.target {
      var r :| r in ranges && InWindow(r, w, o.no) && Covers(r, o.no);
      assert r.start <= o.no <= r.end;
    }
    if r :| r in ranges && InWindow(r, w, o.no) && r.start <= o.no <= r.end {
      assert Covers(r, o.no);
    }
  }

  // What the two options mean: a line is shown iff a range covers it, or starts at most `before`
  // lines below it, or ends at most `after` lines above it.
  lemma ShownIffNear(ranges: seq<Range>, w: Window, i: int)
    requires !w.all && w.before >= 0 && w.after >= 0
    requires forall r :: r in ranges ==> r.start <= r.end
    ensures Printed(ranges, w, i) <==>
            exists r :: r in ranges && (Covers(r, i) || 0 < r.start - i <= w.before || 0 < i - r.end <= w.after)
  {
    if r :| r in ranges && InWindow(r, w, i) {
      assert Covers(r, i) || 0 < r.start - i <= w.before || 0 < i - r.end <= w.after;
    }
    if r :| r in ranges && (Covers(r, i) || 0 < r.start - i <= w.before || 0 < i - r.end <= w.after) {
      assert InWindow(r, w, i);
    }
  }

  // ---- hit and display agree -------------------------------------------------------------------

  // With a window that is not negative, `=>` marks exactly the covered lines; with a negative
  // one it misses some, and that is the only way to miss them.
  lemma CoveredLinesAreShown(w: Window)
    ensures (forall ranges, i :: Covered(ranges, i) ==> Targeted(ranges, w, i)) <==>
            w.all || (w.before >= 0 && w.after >= 0)
    ensures forall ranges, i :: Targeted(ranges, w, i) ==> Covered(ranges, i)
  {
    if !(w.all || (w.before >= 0 && w.after >= 0)) {
      var r := Range(5, 5);
      assert r in [r] && Covers(r, 5);
      assert Covered([r], 5) && !Targeted([r], w, 5);
    }
  }

  // Some block shows this line of this file as marked and pointed at.
  ghost predicate ShownAt(blocks: seq<Block>, filename: string, line: int, k: int) {
    && 0 <= k < |blocks| && blocks[k].source.filename == filename
    && 1 <= line <= |blocks[k].source.lines|
    && Row(line, true, true, blocks[k].source.lines[line - 1]) in blocks[k].rows
  }

  // The listing shows the line of a registered breakpoint with both `*` and `=>` iff the line
  // exists in some source of that file and is covered there. So what is shown is a hit, and
  // every hit is shown provided the line exists wherever it is covered.
  lemma HitIffShown(bps: map<string, Breakpoint>, key: string, filename: string, line: int, status: Status,
                    locs: seq<Location>, w: Window, blocks: seq<Block>)
    requires key in bps && bps[key] == Line(filename, line)
    requires w.all || (w.before >= 0 && w.after >= 0)
    requires IsPage(blocks, bps, locs, w)
    ensures (exists k :: ShownAt(blocks, filename, line, k)) <==>
            exists i, j :: CoveredAt(filename, line, locs, i, j) && 1 <= line <= |locs[i].source.lines|
    ensures (exists k :: ShownAt(blocks, filename, line, k)) ==> key in Hits(bps, status, locs)
    ensures (forall i, j :: CoveredAt(filename, line, locs, i, j) ==> 1 <= line <= |locs[i].source.lines|) ==>
              (key in Hits(bps, status, locs) <==> exists k :: ShownAt(blocks, filename, line, k))
  {
    LineTargetIffCovered(filename, line, status, locs);
    if i, j :| CoveredAt(filename, line, locs, i, j) && 1 <= line <= |locs[i].source.lines| {
      CoveredIsShown(bps, key, filename, line, locs, w, blocks, i, j);
    }
    if k :| ShownAt(blocks, filename, line, k) {
      ShownIsCovered(bps, filename, line, locs, w, blocks, k);
    }
  }

  lemma CoveredIsShown(bps: map<string, Breakpoint>, key: string, filename: string, line: int,
                       locs: seq<Location>, w: Window, blocks: seq<Block>, i: int, j: int)
    requires key in bps && bps[key] == Line(filename, line)
    requires w.all || (w.before >= 0 && w.after >= 0)
    requires IsPage(blocks, bps, locs, w)
    requires CoveredAt(filename, line, locs, i, j) && 1 <= line <= |locs[i].source.lines|
    ensures exists k :: ShownAt(blocks, filename, line, k)
  {
    var s, r := locs[i].source, locs[i].ranges[j];
    RangesOfMember(s, locs, r);
    var k :| 0 <= k < |blocks| && blocks[k].source == s;
    assert BlockOk(blocks[k], bps, locs, w);
    assert IsMarked(bps[key], s, line);
    assert InWindow(r, w, line);
    assert RowFor(bps, s, RangesOf(s, locs), w, line) in blocks[k].rows;
    assert ShownAt(blocks, filename, line, k);
  }

  lemma ShownIsCovered(bps: map<string, Breakpoint>, filename: string, line: int,
                       locs: seq<Location>, w: Window, blocks: seq<Block>, k: int)
    requires IsPage(blocks, bps, locs, w) && ShownAt(blocks, filename, line, k)
    ensures exists i, j :: CoveredAt(filename, line, locs, i, j) && 1 <= line <= |locs[i].source.lines|
  {
    var b := blocks[k];
    assert BlockOk(b, bps, locs, w);
    var row := Row(line, true, true, b.source.lines[line - 1]);
    var m :| 0 <= m < |b.rows| && b.rows[m] == row;
    assert Targeted(RangesOf(b.source, locs), w, line);
    var r :| r in RangesOf(b.source, locs) && InWindow(r, w, line) && Covers(r, line);
    RangesOfMember(b.source, locs, r);
    var i :| 0 <= i < |locs| && locs[i].source == b.source && r in locs[i].ranges;
    var j :| 0 <= j < |locs[i].ranges| && locs[i].ranges[j] == r;
    assert CoveredAt(filename, line, locs, i, j);
  }
}
