// The reference-counted source table of pkg/buildkit/controller.go: concurrent Solve calls
// keep the locations of their vertices alive.
module Sources {
  import opened Common
  import opened Breakpoints

  datatype LocEntry = LocEntry(sourceIndex: int, ranges: seq<Range>)

  // One *pb.Source; `id` is its pointer identity.
  datatype Source = Source(id: nat, infos: seq<SourceInfo>, locations: map<string, seq<LocEntry>>)

  // Every entry names a source info that exists, which the lookup relies on.
  ghost predicate WellFormed(s: Source) {
    forall v :: v in s.locations ==>
      forall i :: 0 <= i < |s.locations[v]| ==> 0 <= s.locations[v][i].sourceIndex < |s.infos|
  }

  function Resolve(s: Source, entries: seq<LocEntry>): seq<Location>
    requires forall i :: 0 <= i < |entries| ==> 0 <= entries[i].sourceIndex < |s.infos|
  {
    seq(|entries|, i requires 0 <= i < |entries| => Location(s.infos[entries[i].sourceIndex], entries[i].ranges))
  }

  function LocationsIn(s: Source, v: string): seq<Location>
    requires WellFormed(s)
  {
    if v in s.locations then Resolve(s, s.locations[v]) else []
  }

  ghost predicate AllWellFormed(ks: set<Source>) {
    forall s :: s in ks ==> WellFormed(s)
  }

  // All locations of a vertex over a set of sources, in no particular order.
  ghost function AllLocations(ks: set<Source>, v: string): multiset<Location>
    requires AllWellFormed(ks)
  {
    if ks == {} then multiset{}
    else
      var s :| s in ks;
      multiset(LocationsIn(s, v)) + AllLocations(ks - {s}, v)
  }

  // The order in which the map is ranged over does not matter.
  lemma {:induction false} AnyOrder(ks: set<Source>, v: string, s: Source)
    requires AllWellFormed(ks) && s in ks
    ensures AllLocations(ks, v) == multiset(LocationsIn(s, v)) + AllLocations(ks - {s}, v)
    decreases |ks|
  {
    var first :| first in ks && AllLocations(ks, v) == multiset(LocationsIn(first, v)) + AllLocations(ks - {first}, v);
    if first != s {
      AnyOrder(ks - {first}, v, s);
      AnyOrder(ks - {s}, v, first);
      assert ks - {first} - {s} == ks - {s} - {first};
    }
  }

  lemma {:induction false} AllLocationsMember(ks: set<Source>, v: string, loc: Location)
    requires AllWellFormed(ks)
    ensures loc in AllLocations(ks, v) <==> exists s :: s in ks && loc in LocationsIn(s, v)
    decreases |ks|
  {
    if ks == {} {
    } else {
      var s :| s in ks;
      AnyOrder(ks, v, s);
      AllLocationsMember(ks - {s}, v, loc);
      if t :| t in ks && loc in LocationsIn(t, v) {
        assert t == s || t in ks - {s};
      }
    }
  }

  // ---- the order of the locations -------------------------------------------------

  // One order in which the map can be ranged over.
  ghost predicate OrderOf(order: seq<Source>, ks: set<Source>) {
    && (forall s :: s in order <==> s in ks)
    && (forall i, j :: 0 <= i < j < |order| ==> order[i] != order[j])
  }

  function Gather(order: seq<Source>, v: string): seq<Location>
    requires forall s :: s in order ==> WellFormed(s)
  {
    if order == [] then [] else LocationsIn(order[0], v) + Gather(order[1..], v)
  }

  lemma {:induction false} GatherSnoc(order: seq<Source>, s: Source, v: string)
    requires WellFormed(s) && forall t :: t in order ==> WellFormed(t)
    ensures Gather(order + [s], v) == Gather(order, v) + LocationsIn(s, v)
  {
    if order == [] {
      assert Gather([s], v) == LocationsIn(s, v) + [];
    } else {
      var first, rest := order[0], order[1..];
      assert order == [first] + rest;
      GatherSnoc(rest, s, v);
      assert (order + [s])[1..] == rest + [s];
      assert LocationsIn(first, v) + (Gather(rest, v) + LocationsIn(s, v)) == Gather(order, v) + LocationsIn(s, v);
    }
  }

  // The file a prompt takes line numbers to mean: that of the first location.
  function FirstFile(locs: seq<Location>): Option<string> {
    if locs == [] then None else Some(locs[0].source.filename)
  }

  lemma {:induction false} GatherIsAll(order: seq<Source>, ks: set<Source>, v: string)
    requires AllWellFormed(ks) && OrderOf(order, ks)
    ensures multiset(Gather(order, v)) == AllLocations(ks, v)
    decreases |order|
  {
    if order == [] {
      assert ks == {};
    } else {
      var s := order[0];
      assert order == [s] + order[1..];
      GatherIsAll(order[1..], ks - {s}, v);
      AnyOrder(ks, v, s);
      MultisetOfSum(LocationsIn(s, v), Gather(order[1..], v), Gather(order, v));
    }
  }

  ghost predicate SameFirstFile(s: Source, t: Source, v: string)
    requires WellFormed(s) && WellFormed(t)
  {
    LocationsIn(s, v) != [] && LocationsIn(t, v) != [] ==>
      FirstFile(LocationsIn(s, v)) == FirstFile(LocationsIn(t, v))
  }

  // The first file is that of some source that has the vertex, if there is one.
  lemma {:induction false} FirstFileOfSome(order: seq<Source>, v: string)
    requires forall s :: s in order ==> WellFormed(s)
    ensures Gather(order, v) == [] <==> forall s :: s in order ==> LocationsIn(s, v) == []
    ensures Gather(order, v) != [] ==>
              exists s :: s in order && LocationsIn(s, v) != []
                          && FirstFile(Gather(order, v)) == FirstFile(LocationsIn(s, v))
  {
    if order == [] {
    } else {
      FirstFileOfSome(order[1..], v);
      assert order == [order[0]] + order[1..];
    }
  }

  lemma {:induction false} SomeOrder(ks: set<Source>) returns (order: seq<Source>)
    ensures OrderOf(order, ks)
    decreases |ks|
  {
    if ks == {} {
      order := [];
    } else {
      var s :| s in ks;
      var rest := SomeOrder(ks - {s});
      order := [s] + rest;
    }
  }

  // Any source that has the vertex can come first.
  lemma AnyFileCanBeFirst(ks: set<Source>, v: string, s: Source) returns (order: seq<Source>)
    requires AllWellFormed(ks) && s in ks && LocationsIn(s, v) != []
    ensures OrderOf(order, ks) && FirstFile(Gather(order, v)) == FirstFile(LocationsIn(s, v))
  {
    var rest := SomeOrder(ks - {s});
    order := [s] + rest;
    assert order[1..] == rest;
  }

  lemma AgreedFirstFile(a: seq<Source>, b: seq<Source>, ks: set<Source>, v: string)
    requires AllWellFormed(ks) && OrderOf(a, ks) && OrderOf(b, ks)
    requires forall s, t :: s in ks && t in ks ==> SameFirstFile(s, t, v)
    ensures FirstFile(Gather(a, v)) == FirstFile(Gather(b, v))
  {
    FirstFileOfSome(a, v);
    FirstFileOfSome(b, v);
    if Gather(a, v) != [] {
      var s :| s in a && LocationsIn(s, v) != [] && FirstFile(Gather(a, v)) == FirstFile(LocationsIn(s, v));
      assert s in b;
      var t :| t in b && LocationsIn(t, v) != [] && FirstFile(Gather(b, v)) == FirstFile(LocationsIn(t, v));
      assert SameFirstFile(s, t, v);
    }
  }

  // Whatever the order of the map the first file is the same iff all sources that have the
  // vertex agree on it; otherwise `break NUMBER` may mean either file.
  lemma FirstFileIsFixedIff(ks: set<Source>, v: string)
    requires AllWellFormed(ks)
    ensures (forall a, b :: OrderOf(a, ks) && OrderOf(b, ks) ==> FirstFile(Gather(a, v)) == FirstFile(Gather(b, v)))
            <==> (forall s, t :: s in ks && t in ks ==> SameFirstFile(s, t, v))
  {
    if s, t :| s in ks && t in ks && !SameFirstFile(s, t, v) {
      var a := AnyFileCanBeFirst(ks, v, s);
      var b := AnyFileCanBeFirst(ks, v, t);
      assert FirstFile(Gather(a, v)) != FirstFile(Gather(b, v));
    } else {
      forall a, b | OrderOf(a, ks) && OrderOf(b, ks)
        ensures FirstFile(Gather(a, v)) == FirstFile(Gather(b, v))
      {
        AgreedFirstFile(a, b, ks, v);
      }
    }
  }

  // Source s places the vertex on this line of this file.
  ghost predicate PlacesOnLine(s: Source, v: string, filename: string, line: int, i: int, j: int)
    requires WellFormed(s)
  {
    && v in s.locations && 0 <= i < |s.locations[v]|
    && s.infos[s.locations[v][i].sourceIndex].filename == filename
    && 0 <= j < |s.locations[v][i].ranges|
    && s.locations[v][i].ranges[j].start <= line <= s.locations[v][i].ranges[j].end
  }

  lemma {:induction false} GatherMember(order: seq<Source>, v: string, loc: Location)
    requires forall s :: s in order ==> WellFormed(s)
    ensures loc in Gather(order, v) <==> exists s :: s in order && loc in LocationsIn(s, v)
  {
    if order == [] {
    } else {
      GatherMember(order[1..], v, loc);
      assert order == [order[0]] + order[1..];
    }
  }

  // From the sources to the breakpoint: in whatever order the locations were gathered, a line
  // breakpoint hits iff some source in the table places the vertex on that line of that file.
  lemma LineHitsIffPlaced(order: seq<Source>, ks: set<Source>, v: string, filename: string, line: int, status: Status)
    requires AllWellFormed(ks) && OrderOf(order, ks)
    ensures HitLocations(Line(filename, line), status, Gather(order, v)).Some? <==>
            exists s, i, j :: s in ks && PlacesOnLine(s, v, filename, line, i, j)
  {
    LineTargetIffCovered(filename, line, status, Gather(order, v));
    if k, j :| CoveredAt(filename, line, Gather(order, v), k, j) {
      CoveredIsPlaced(order, v, filename, line, k, j);
    }
    if s, i, j :| s in ks && PlacesOnLine(s, v, filename, line, i, j) {
      PlacedIsCovered(order, v, filename, line, s, i, j);
    }
  }

  lemma CoveredIsPlaced(order: seq<Source>, v: string, filename: string, line: int, k: int, j: int)
    requires forall s :: s in order ==> WellFormed(s)
    requires CoveredAt(filename, line, Gather(order, v), k, j)
    ensures exists s, i, j :: s in order && PlacesOnLine(s, v, filename, line, i, j)
  {
    var loc := Gather(order, v)[k];
    GatherMember(order, v, loc);
    var s :| s in order && loc in LocationsIn(s, v);
    var i :| 0 <= i < |LocationsIn(s, v)| && LocationsIn(s, v)[i] == loc;
    assert PlacesOnLine(s, v, filename, line, i, j);
  }

  lemma PlacedIsCovered(order: seq<Source>, v: string, filename: string, line: int, s: Source, i: int, j: int)
    requires forall s :: s in order ==> WellFormed(s)
    requires s in order && PlacesOnLine(s, v, filename, line, i, j)
    ensures exists k, j :: CoveredAt(filename, line, Gather(order, v), k, j)
  {
    var loc := LocationsIn(s, v)[i];
    assert loc in LocationsIn(s, v);
    GatherMember(order, v, loc);
    var k :| 0 <= k < |Gather(order, v)| && Gather(order, v)[k] == loc;
    assert CoveredAt(filename, line, Gather(order, v), k, j);
  }

  datatype LookupError = NotFound(vertex: string)

  function References(t: map<Source, int>, s: Source): int {
    if s in t then t[s] else 0
  }

  function AddSource(t: map<Source, int>, s: Source): map<Source, int> {
    if s in t then t[s := t[s] + 1] else t[s := 1]
  }

  function DeleteSource(t: map<Source, int>, s: Source): map<Source, int> {
    if s !in t then t
    else if t[s] == 1 then t - {s}
    else t[s := t[s] - 1]
  }

  // The end of a Solve undoes its beginning.
  lemma DeleteUndoesAdd(t: map<Source, int>, s: Source)
    requires s in t ==> t[s] > 0
    ensures DeleteSource(AddSource(t, s), s) == t
  {
  }

  class SourceTable {
    var sources: map<Source, int>

    constructor ()
      ensures sources == map[]
    {
      sources := map[];
    }

    method AddLocationSource(source: Source)
      modifies this
      ensures sources == AddSource(old(sources), source)
      ensures forall s :: References(sources, s) == References(old(sources), s) + if s == source then 1 else 0
    {
      if source in sources {
        sources := sources[source := sources[source] + 1];
      } else {
        sources := sources[source := 1];
      }
    }

    method DeleteLocationSource(source: Source)
      modifies this
      ensures sources == DeleteSource(old(sources), source)
      ensures source in old(sources) ==>
                forall s :: References(sources, s) == References(old(sources), s) - if s == source then 1 else 0
      ensures source in sources ==> sources[source] != 0
    {
      if source in sources {
        sources := sources[source := sources[source] - 1];
        if sources[source] == 0 {
          sources := sources - {source};
        }
      }
    }

    method GetLocation(v: string) returns (r: Result<seq<Location>, LookupError>)
      requires AllWellFormed(sources.Keys)
      ensures r.Ok? ==> r.value != [] && multiset(r.value) == AllLocations(sources.Keys, v)
      ensures r.Err? <==> AllLocations(sources.Keys, v) == multiset{}
      ensures r.Ok? ==> exists order :: OrderOf(order, sources.Keys) && r.value == Gather(order, v)
    {
      var locs: seq<Location> := [];
      var todo := sources.Keys;
      ghost var order: seq<Source> := [];
      while todo != {}
        invariant todo <= sources.Keys
        invariant OrderOf(order, sources.Keys - todo) && locs == Gather(order, v)
        decreases |todo|
      {
        var s :| s in todo;
        if v in s.locations {
          locs := AppendLocations(locs, s, s.locations[v]);
        }
        GatherSnoc(order, s, v);
        order := order + [s];
        todo := todo - {s};
      }
      assert OrderOf(order, sources.Keys);
      GatherIsAll(order, sources.Keys, v);
      if |locs| == 0 {
        assert locs == [];
        return Err(NotFound(v));
      }
      assert locs[0] in multiset(locs);
      r := Ok(locs);
    }
  }

  lemma MultisetOfSum<T>(a: seq<T>, b: seq<T>, c: seq<T>)
    requires c == a + b
    ensures multiset(c) == multiset(a) + multiset(b)
  {
  }

  method AppendLocations(locs: seq<Location>, s: Source, entries: seq<LocEntry>) returns (r: seq<Location>)
    requires forall i :: 0 <= i < |entries| ==> 0 <= entries[i].sourceIndex < |s.infos|
    ensures r == locs + Resolve(s, entries)
  {
    r := locs;
    for i := 0 to |entries|
      invariant r == locs + Resolve(s, entries)[..i]
    {
      r := r + [Location(s.infos[entries[i].sourceIndex], entries[i].ranges)];
    }
  }

  // ---- Solve calls in flight -----------------------------------------------------

  // active maps each running Solve to the source it registered, if its request carries one.
  datatype State = State(table: map<Source, int>, active: map<nat, Option<Source>>)

  datatype Step = Begin(call: nat, source: Option<Source>) | End(call: nat)

  const INIT := State(map[], map[])

  function Next(s: State, step: Step): Option<State> {
    match step
    case Begin(call, source) =>
      if call in s.active then None
      else Some(State(if source.Some? then AddSource(s.table, source.value) else s.table, s.active[call := source]))
    case End(call) =>
      if call !in s.active then None
      else
        var source := s.active[call];
        Some(State(if source.Some? then DeleteSource(s.table, source.value) else s.table, s.active - {call}))
  }

  function Run(s: State, steps: seq<Step>): Option<State>
    decreases |steps|
  {
    if steps == [] then Some(s)
    else
      var t := Next(s, steps[0]);
      if t.None? then None else Run(t.value, steps[1..])
  }

  ghost function Callers(active: map<nat, Option<Source>>, source: Source): set<nat> {
    set c | c in active && active[c] == Some(source)
  }

  // Counts are positive and equal to the number of active callers.
  ghost predicate ExactFor(s: State, source: Source) {
    if source in s.table then s.table[source] == |Callers(s.active, source)| > 0
    else Callers(s.active, source) == {}
  }

  ghost predicate Exact(s: State) {
    forall source :: ExactFor(s, source)
  }

  lemma BeginKeepsExact(s: State, call: nat, source: Option<Source>, t: State, other: Source)
    requires ExactFor(s, other) && Next(s, Begin(call, source)) == Some(t)
    ensures ExactFor(t, other)
  {
    var before, after := Callers(s.active, other), Callers(t.active, other);
    assert after == if source == Some(other) then before + {call} else before;
  }

  lemma EndKeepsExact(s: State, call: nat, t: State, other: Source)
    requires ExactFor(s, other) && Next(s, End(call)) == Some(t)
    ensures ExactFor(t, other)
  {
    var before, after := Callers(s.active, other), Callers(t.active, other);
    assert after == before - {call};
    if call in before {
      assert |after| == |before| - 1;
    } else {
      assert after == before;
    }
  }

  lemma StepKeepsExact(s: State, step: Step, t: State)
    requires Exact(s) && Next(s, step) == Some(t)
    ensures Exact(t)
  {
    forall other
      ensures ExactFor(t, other)
    {
      match step
      case Begin(call, source) => BeginKeepsExact(s, call, source, t, other);
      case End(call) => EndKeepsExact(s, call, t, other);
    }
  }

  // The last thing this call did.
  function LastOf(steps: seq<Step>, call: nat): Option<Step> {
    if steps == [] then None
    else if steps[|steps| - 1].call == call then Some(steps[|steps| - 1])
    else LastOf(steps[..|steps| - 1], call)
  }

  lemma {:induction false} RunSnoc(s: State, a: seq<Step>, step: Step)
    ensures Run(s, a + [step]) == if Run(s, a).None? then None else Next(Run(s, a).value, step)
    decreases |a|
  {
    if a == [] {
      assert [step][1..] == [];
      var t := Next(s, step);
      assert t.Some? ==> Run(t.value, []) == t;
    } else {
      var t := Next(s, a[0]);
      assert (a + [step])[0] == a[0] && (a + [step])[1..] == a[1..] + [step];
      if t.Some? {
        RunSnoc(t.value, a[1..], step);
      }
    }
  }

  // A call is in flight with this source iff the last it did was to begin with it; and any other
  // call can begin, any call in flight can end.
  lemma {:induction false} InFlightIff(steps: seq<Step>, call: nat, source: Option<Source>)
    requires Run(INIT, steps).Some?
    ensures var s := Run(INIT, steps).value;
            && (call in s.active && s.active[call] == source <==> LastOf(steps, call) == Some(Begin(call, source)))
            && (Next(s, Begin(call, source)).Some? <==> call !in s.active)
            && (Next(s, End(call)).Some? <==> call in s.active)
    decreases |steps|
  {
    if steps == [] {
    } else {
      var front, step := steps[..|steps| - 1], steps[|steps| - 1];
      assert steps == front + [step];
      RunSnoc(INIT, front, step);
      InFlightIff(front, call, source);
    }
  }

  lemma {:induction false} RunKeepsExact(s: State, steps: seq<Step>)
    requires Exact(s) && Run(s, steps).Some?
    ensures Exact(Run(s, steps).value)
    decreases |steps|
  {
    if steps == [] {
    } else {
      StepKeepsExact(s, steps[0], Next(s, steps[0]).value);
      RunKeepsExact(Next(s, steps[0]).value, steps[1..]);
    }
  }

  // Under every interleaving of Solve calls the table is exactly the multiset of sources in
  // flight, and it is empty again once the last of them has ended.
  lemma TableIsExact(steps: seq<Step>)
    requires Run(INIT, steps).Some?
    ensures Exact(Run(INIT, steps).value)
    ensures Run(INIT, steps).value.active == map[] ==> Run(INIT, steps).value.table == map[]
  {
    assert forall source :: ExactFor(INIT, source);
    RunKeepsExact(INIT, steps);
    var s := Run(INIT, steps).value;
    if s.active == map[] {
      forall source
        ensures source !in s.table
      {
        assert ExactFor(s, source) && Callers(s.active, source) == {};
      }
      assert s.table.Keys == {};
    }
  }

  // So a lookup finds a location iff some Solve in flight has one, and exactly those.
  lemma LookupSeesActiveSolves(steps: seq<Step>, v: string, loc: Location)
    requires Run(INIT, steps).Some?
    requires AllWellFormed(Run(INIT, steps).value.table.Keys)
    ensures var s := Run(INIT, steps).value;
            loc in AllLocations(s.table.Keys, v) <==>
            exists c :: c in s.active && s.active[c].Some? && s.active[c].value in s.table
                        && loc in LocationsIn(s.active[c].value, v)
    ensures var s := Run(INIT, steps).value;
            forall c :: c in s.active && s.active[c].Some? ==> s.active[c].value in s.table
  {
    TableIsExact(steps);
    var s := Run(INIT, steps).value;
    AllLocationsMember(s.table.Keys, v, loc);
    forall c | c in s.active && s.active[c].Some?
      ensures s.active[c].value in s.table
    {
      assert ExactFor(s, s.active[c].value) && c in Callers(s.active, s.active[c].value);
    }
    if source :| source in s.table.Keys && loc in LocationsIn(source, v) {
      assert ExactFor(s, source) && |Callers(s.active, source)| > 0;
      var c :| c in Callers(s.active, source);
      assert s.active[c] == Some(source);
    }
  }
}
