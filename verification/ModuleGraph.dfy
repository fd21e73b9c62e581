/** Scheduling project modules: strongly connected components of the import graph, in waves whose
    imports are all in earlier waves. */
module ModuleGraph {
  import opened Graphs
  import opened Components
  import opened Sorting

  // ---- what a schedule is ----

  ghost predicate InWave(waves: seq<seq<set<Node>>>, n: Node, w: nat) {
    w < |waves| && exists i :: 0 <= i < |waves[w]| && n in waves[w][i]
  }

  /** Some edge leads from `c` into `d`. */
  ghost predicate Imports(succ: Table, c: set<Node>, d: set<Node>) {
    exists a, b :: a in c && b in d && Edge(succ, a, b)
  }

  /** Every edge that leaves component `i` of wave `w` leads to an earlier wave. */
  ghost predicate ImportsEarlier(succ: Table, waves: seq<seq<set<Node>>>, w: nat, i: nat)
    requires w < |waves| && i < |waves[w]|
  {
    forall a, b {:trigger Edge(succ, a, b)} :: a in waves[w][i] && Edge(succ, a, b) && b !in waves[w][i] ==>
      exists v: nat :: v < w && InWave(waves, b, v)
  }

  /** Component `i` of wave `w` could not be in an earlier wave. */
  ghost predicate NoSooner(succ: Table, waves: seq<seq<set<Node>>>, w: nat, i: nat)
    requires w < |waves| && i < |waves[w]|
  {
    w > 0 ==> exists d :: d in waves[w - 1] && Imports(succ, waves[w][i], d)
  }

  ghost predicate WellPlaced(succ: Table, waves: seq<seq<set<Node>>>, w: nat, i: nat)
    requires w < |waves| && i < |waves[w]|
  {
    IsComponent(succ, waves[w][i]) && ImportsEarlier(succ, waves, w, i) && NoSooner(succ, waves, w, i)
  }

  /** The waves hold every module once, in whole components, each in the first wave after all
      that it imports outside itself. */
  ghost predicate IsSchedule(succ: Table, waves: seq<seq<set<Node>>>) {
    && (forall w, i {:trigger WellPlaced(succ, waves, w, i)} :: 0 <= w < |waves| && 0 <= i < |waves[w]| ==>
      WellPlaced(succ, waves, w, i))
    && (forall n, w, v, i, j ::
          (0 <= w < |waves| && 0 <= i < |waves[w]| && n in waves[w][i]) ==>
          (0 <= v < |waves| && 0 <= j < |waves[v]| && n in waves[v][j]) ==> w == v && i == j)
    && (forall n :: n in succ ==> exists w: nat :: InWave(waves, n, w))
    && (forall w :: 0 <= w < |waves| ==> waves[w] != [])
  }

  lemma OneWave(succ: Table, waves: seq<seq<set<Node>>>, n: Node, w: nat, v: nat)
    requires IsSchedule(succ, waves) && InWave(waves, n, w) && InWave(waves, n, v)
    ensures w == v
  {
    hide WellPlaced;
    var i :| 0 <= i < |waves[w]| && n in waves[w][i];
    var j :| 0 <= j < |waves[v]| && n in waves[v][j];
  }

  /** If two schedules agree on the waves before `w`, a module in wave `w` of one is not later in
      the other: the component it is in there would import something from those waves or later. */
  lemma NotLater(succ: Table, waves: seq<seq<set<Node>>>, other: seq<seq<set<Node>>>, n: Node, w: nat, v: nat)
    requires IsSchedule(succ, waves) && IsSchedule(succ, other) && InWave(waves, n, w) && InWave(other, n, v)
    requires forall m, u: nat {:trigger InWave(waves, m, u)} {:trigger InWave(other, m, u)} :: u < w ==>
      (InWave(waves, m, u) <==> InWave(other, m, u))
    ensures v <= w
  {
    hide IsComponent;
    if v > 0 {
      var i :| 0 <= i < |waves[w]| && n in waves[w][i];
      var j :| 0 <= j < |other[v]| && n in other[v][j];
      assert WellPlaced(succ, waves, w, i) && WellPlaced(succ, other, v, j);
      OneComponent(succ, waves[w][i], other[v][j], n);
      var d :| d in other[v - 1] && Imports(succ, other[v][j], d);
      var a, b :| a in other[v][j] && b in d && Edge(succ, a, b);
      var k :| 0 <= k < |other[v - 1]| && other[v - 1][k] == d;
      assert b !in other[v][j];
      var u: nat :| u < w && InWave(waves, b, u);
      OneWave(succ, other, b, u, v - 1);
    }
  }

  lemma {:induction false} WavesAgree(succ: Table, waves: seq<seq<set<Node>>>, other: seq<seq<set<Node>>>, w: nat)
    requires IsSchedule(succ, waves) && IsSchedule(succ, other)
    ensures forall m, u: nat {:trigger InWave(waves, m, u)} {:trigger InWave(other, m, u)} :: u < w ==>
      (InWave(waves, m, u) <==> InWave(other, m, u))
  {
    hide WellPlaced;
    if w > 0 {
      WavesAgree(succ, waves, other, w - 1);
      forall m, u: nat | u == w - 1 && InWave(waves, m, u) ensures InWave(other, m, u) {
        AlsoThere(succ, waves, other, m, u);
      }
      forall m, u: nat | u == w - 1 && InWave(other, m, u) ensures InWave(waves, m, u) {
        AlsoThere(succ, other, waves, m, u);
      }
    }
  }

  lemma AlsoThere(succ: Table, waves: seq<seq<set<Node>>>, other: seq<seq<set<Node>>>, n: Node, w: nat)
    requires IsSchedule(succ, waves) && IsSchedule(succ, other) && InWave(waves, n, w)
    requires forall m, u: nat {:trigger InWave(waves, m, u)} {:trigger InWave(other, m, u)} :: u < w ==>
      (InWave(waves, m, u) <==> InWave(other, m, u))
    ensures InWave(other, n, w)
  {
    var i :| 0 <= i < |waves[w]| && n in waves[w][i];
    assert WellPlaced(succ, waves, w, i) && n in succ;
    var v: nat :| InWave(other, n, v);
    hide WellPlaced, IsSchedule;
    NotLater(succ, waves, other, n, w, v);
    if v < w {
      OneWave(succ, waves, n, v, w);
    }
  }

  /** A module's wave does not depend on the order in which modules and imports are visited. */
  lemma ScheduleIsUnique(succ: Table, waves: seq<seq<set<Node>>>, other: seq<seq<set<Node>>>, n: Node, w: nat)
    requires IsSchedule(succ, waves) && IsSchedule(succ, other)
    ensures InWave(waves, n, w) <==> InWave(other, n, w)
  {
    WavesAgree(succ, waves, other, w + 1);
  }

  // ---- the order inside a wave ----

  /** Where the first name of a component stands, names being listed in order. */
  function LeastPlace(names: seq<Node>, c: set<Node>): (k: nat)
    ensures k <= |names| && (k < |names| ==> names[k] in c) && forall j :: 0 <= j < k ==> names[j] !in c
  {
    if names == [] || names[0] in c then 0
    else
      var k := LeastPlace(names[1..], c);
      assert k < |names[1..]| ==> names[1..][k] == names[k + 1];
      assert forall j :: 0 < j < k + 1 ==> names[j] == names[1..][j - 1];
      k + 1
  }

  function ByLeast(names: seq<Node>): set<Node> -> int {
    c => LeastPlace(names, c)
  }

  /** No name of `d` comes before all of `c`. */
  ghost predicate ComesFirst(names: seq<Node>, c: set<Node>, d: set<Node>) {
    forall l :: 0 <= l < |names| && names[l] in d ==> exists k :: 0 <= k <= l && names[k] in c
  }

  /** Every wave lists its components by their least names. */
  ghost predicate InNameOrder(names: seq<Node>, waves: seq<seq<set<Node>>>) {
    forall w, i, j {:trigger waves[w][i], waves[w][j]} :: 0 <= w < |waves| && 0 <= i < j < |waves[w]| ==>
      ComesFirst(names, waves[w][i], waves[w][j])
  }

  lemma LeastFirst(names: seq<Node>, c: set<Node>, d: set<Node>)
    ensures ComesFirst(names, c, d) <==> LeastPlace(names, c) <= LeastPlace(names, d)
  {
    var k, l := LeastPlace(names, c), LeastPlace(names, d);
    if l < |names| && ComesFirst(names, c, d) {
      assert names[l] in d;
    }
  }

  lemma OrderedIsSorted(names: seq<Node>, wave: seq<set<Node>>)
    ensures SortedBy(wave, ByLeast(names)) <==> forall i, j :: 0 <= i < j < |wave| ==> ComesFirst(names, wave[i], wave[j])
  {
    forall i, j | 0 <= i < j < |wave|
      ensures ComesFirst(names, wave[i], wave[j]) <==> ByLeast(names)(wave[i]) <= ByLeast(names)(wave[j]) {
      LeastFirst(names, wave[i], wave[j]);
    }
  }

  /** Putting the components of each wave in another order leaves a schedule. */
  ghost predicate Reordered(waves: seq<seq<set<Node>>>, other: seq<seq<set<Node>>>, from: seq<seq<nat>>) {
    && |waves| == |other| == |from|
    && forall w {:trigger Rearranges(waves[w], other[w], from[w])} :: 0 <= w < |waves| ==>
      Rearranges(waves[w], other[w], from[w])
  }

  lemma SameInWave(waves: seq<seq<set<Node>>>, other: seq<seq<set<Node>>>, from: seq<seq<nat>>, n: Node, w: nat)
    requires Reordered(waves, other, from) && InWave(waves, n, w)
    ensures InWave(other, n, w)
  {
    var i :| 0 <= i < |waves[w]| && n in waves[w][i];
    assert Rearranges(waves[w], other[w], from[w]);
    assert waves[w][i] in waves[w];
    SameElements(waves[w], other[w], from[w], waves[w][i]);
    var j :| 0 <= j < |other[w]| && other[w][j] == waves[w][i];
  }

  lemma ReorderedPlaced(succ: Table, waves: seq<seq<set<Node>>>, other: seq<seq<set<Node>>>, from: seq<seq<nat>>,
      w: nat, i: nat)
    requires IsSchedule(succ, waves) && Reordered(waves, other, from) && w < |other| && i < |other[w]|
    ensures WellPlaced(succ, other, w, i)
  {
    hide IsComponent, Imports;
    assert Rearranges(waves[w], other[w], from[w]);
    var k := from[w][i];
    assert WellPlaced(succ, waves, w, k);
    forall a, b | a in other[w][i] && Edge(succ, a, b) && b !in other[w][i]
      ensures exists v: nat :: v < w && InWave(other, b, v)
    {
      var v: nat :| v < w && InWave(waves, b, v);
      SameInWave(waves, other, from, b, v);
    }
    if w > 0 {
      var d :| d in waves[w - 1] && Imports(succ, waves[w][k], d);
      assert Rearranges(waves[w - 1], other[w - 1], from[w - 1]);
      SameElements(waves[w - 1], other[w - 1], from[w - 1], d);
    }
  }

  lemma ReorderedIsSchedule(succ: Table, waves: seq<seq<set<Node>>>, other: seq<seq<set<Node>>>, from: seq<seq<nat>>)
    requires IsSchedule(succ, waves) && Reordered(waves, other, from)
    ensures IsSchedule(succ, other)
  {
    hide WellPlaced;
    forall w, i | 0 <= w < |other| && 0 <= i < |other[w]| ensures WellPlaced(succ, other, w, i) {
      ReorderedPlaced(succ, waves, other, from, w, i);
    }
    forall n, w, v, i, j | 0 <= w < |other| && 0 <= i < |other[w]| && n in other[w][i] &&
      0 <= v < |other| && 0 <= j < |other[v]| && n in other[v][j]
      ensures w == v && i == j
    {
      assert Rearranges(waves[w], other[w], from[w]) && Rearranges(waves[v], other[v], from[v]);
      assert n in waves[w][from[w][i]] && n in waves[v][from[v][j]];
    }
    forall n | n in succ ensures exists w: nat :: InWave(other, n, w) {
      var w: nat :| InWave(waves, n, w);
      SameInWave(waves, other, from, n, w);
    }
    forall w | 0 <= w < |other| ensures other[w] != [] {
      assert Rearranges(waves[w], other[w], from[w]);
    }
  }

  /** Components with the same least name are the same. */
  lemma LeastTellsApart(succ: Table, names: seq<Node>, c: set<Node>, d: set<Node>)
    requires IsComponent(succ, c) && IsComponent(succ, d) && forall n :: n in succ ==> n in names
    requires LeastPlace(names, c) == LeastPlace(names, d)
    ensures c == d
  {
    var n :| n in c;
    assert n in names;
    var j :| 0 <= j < |names| && names[j] == n;
    assert LeastPlace(names, c) < |names|;
    OneComponent(succ, c, d, names[LeastPlace(names, c)]);
  }

  lemma OneOfEach(succ: Table, names: seq<Node>, waves: seq<seq<set<Node>>>, w: nat)
    requires IsSchedule(succ, waves) && w < |waves| && forall n :: n in succ ==> n in names
    ensures forall i, j :: 0 <= i < j < |waves[w]| ==> ByLeast(names)(waves[w][i]) != ByLeast(names)(waves[w][j])
  {
    hide ImportsEarlier, NoSooner;
    forall i, j | 0 <= i < j < |waves[w]| ensures ByLeast(names)(waves[w][i]) != ByLeast(names)(waves[w][j]) {
      assert WellPlaced(succ, waves, w, i) && WellPlaced(succ, waves, w, j);
      var n :| n in waves[w][i];
      assert n !in waves[w][j];
      if LeastPlace(names, waves[w][i]) == LeastPlace(names, waves[w][j]) {
        LeastTellsApart(succ, names, waves[w][i], waves[w][j]);
      }
    }
  }

  lemma SameComponents(succ: Table, waves: seq<seq<set<Node>>>, other: seq<seq<set<Node>>>, w: nat, c: set<Node>)
    requires IsSchedule(succ, waves) && IsSchedule(succ, other) && w < |waves| && c in waves[w]
    ensures w < |other| && c in other[w]
  {
    hide ImportsEarlier, NoSooner;
    var i :| 0 <= i < |waves[w]| && waves[w][i] == c;
    assert WellPlaced(succ, waves, w, i);
    var n :| n in c;
    assert InWave(waves, n, w);
    ScheduleIsUnique(succ, waves, other, n, w);
    var j :| 0 <= j < |other[w]| && n in other[w][j];
    assert WellPlaced(succ, other, w, j);
    OneComponent(succ, c, other[w][j], n);
  }

  /** There is one schedule in name order: it depends neither on the order in which modules are
      visited nor on that of their imports. */
  lemma ScheduleIsOne(succ: Table, names: seq<Node>, waves: seq<seq<set<Node>>>, other: seq<seq<set<Node>>>)
    requires IsSchedule(succ, waves) && IsSchedule(succ, other) && forall n :: n in succ ==> n in names
    requires InNameOrder(names, waves) && InNameOrder(names, other)
    ensures waves == other
  {
    hide WellPlaced;
    forall w | 0 <= w < |waves| ensures w < |other| && waves[w] == other[w] {
      SameWave(succ, names, waves, other, w);
    }
    assert |waves| == |other| by {
      if |waves| < |other| {
        SameWave(succ, names, other, waves, |waves|);
      } else if |other| < |waves| {
        SameWave(succ, names, waves, other, |other|);
      }
    }
  }

  lemma SameWave(succ: Table, names: seq<Node>, waves: seq<seq<set<Node>>>, other: seq<seq<set<Node>>>, w: nat)
    requires IsSchedule(succ, waves) && IsSchedule(succ, other) && forall n :: n in succ ==> n in names
    requires InNameOrder(names, waves) && InNameOrder(names, other) && w < |waves|
    ensures w < |other| && waves[w] == other[w]
  {
    hide WellPlaced;
    assert waves[w] != [] && waves[w][0] in waves[w];
    SameComponents(succ, waves, other, w, waves[w][0]);
    forall c ensures c in waves[w] <==> c in other[w] {
      if c in waves[w] {
        SameComponents(succ, waves, other, w, c);
      }
      if c in other[w] {
        SameComponents(succ, other, waves, w, c);
      }
    }
    OneOfEach(succ, names, waves, w);
    OneOfEach(succ, names, other, w);
    OrderedIsSorted(names, waves[w]);
    OrderedIsSorted(names, other[w]);
    assert SortedBy(waves[w], ByLeast(names)) && SortedBy(other[w], ByLeast(names));
    hide *;
    OneOrder(waves[w], other[w], ByLeast(names));
  }

  // ---- the search ----

  /** Components are known by their place, each module by that of its own. */
  ghost predicate Numbered(componentOf: map<Node, nat>, components: seq<set<Node>>) {
    && componentOf.Keys == Popped(components)
    && forall n :: n in componentOf ==> componentOf[n] < |components| && n in components[componentOf[n]]
  }

  /** Some edge leads from component `k` to component `j`. */
  ghost predicate Leads(succ: Table, components: seq<set<Node>>, k: nat, j: nat) {
    j != k && j < |components| && k < |components| && Imports(succ, components[k], components[j])
  }

  /** A component's level is one more than the highest below it. */
  ghost predicate LevelOk(succ: Table, components: seq<set<Node>>, depth: map<nat, nat>, k: nat)
    requires k in depth
  {
    && k < |components|
    && (forall j: nat {:trigger Leads(succ, components, k, j)} :: Leads(succ, components, k, j) ==>
      j in depth && depth[j] < depth[k])
    && (depth[k] > 0 ==> exists j: nat :: Leads(succ, components, k, j) && j in depth && depth[j] + 1 == depth[k])
  }

  ghost predicate LevelsOk(succ: Table, components: seq<set<Node>>, depth: map<nat, nat>) {
    forall k {:trigger LevelOk(succ, components, depth, k)} :: k in depth ==> LevelOk(succ, components, depth, k)
  }

  lemma NumberedOnce(succ: Table, componentOf: map<Node, nat>, components: seq<set<Node>>, n: Node, k: nat)
    requires Numbered(componentOf, components) && Ordered(succ, components) && k < |components| && n in components[k]
    ensures n in componentOf && componentOf[n] == k
  {
    hide Descends;
    assert n in Popped(components);
    assert n in components[componentOf[n]];
  }

  /** Components lead only to those completed before them. */
  lemma LeadsBack(succ: Table, components: seq<set<Node>>, k: nat, j: nat)
    requires Ordered(succ, components) && Leads(succ, components, k, j)
    ensures j < k
  {
    var a, b :| a in components[k] && b in components[j] && Edge(succ, a, b);
    assert Descends(succ, components, k);
    assert b in Popped(components[..k + 1]);
    var i :| 0 <= i < k + 1 && b in components[..k + 1][i];
    assert b in components[i];
  }

  /** Levels given stay, and new ones are given to components before `end` only. */
  ghost predicate Deeper(was: map<nat, nat>, depth: map<nat, nat>, end: nat) {
    && (forall k :: k in was ==> k in depth && depth[k] == was[k])
    && (forall k :: k in depth ==> k in was || k < end)
  }

  /** The highest of some levels, or -1 when there is none. */
  ghost predicate HighestIs(depth: map<nat, nat>, some: set<nat>, highest: int) {
    && (forall c :: c in some ==> c in depth && depth[c] <= highest)
    && (highest >= 0 ==> exists c :: c in some && c in depth && depth[c] == highest)
  }

  /** The search for the components of the modules' imports, and their levels. */
  class Scheduler {
    const edges: Table
    var index: map<Node, nat>
    var low: map<Node, nat>
    var stack: seq<Node>
    var components: seq<set<Node>>
    var componentOf: map<Node, nat>
    var depth: map<nat, nat>

    ghost function State(): Search
      reads this
    {
      Search(index, low, stack, components)
    }

    ghost predicate Valid(gray: set<Node>)
      reads this
    {
      Inv(edges, State(), gray) && Numbered(componentOf, components)
    }

    constructor (edges: Table)
      requires Closed(edges)
      ensures this.edges == edges && Valid({}) && index == map[] && depth == map[] && components == []
    {
      this.edges := edges;
      index, low, stack, components := map[], map[], [], [];
      componentOf, depth := map[], map[];
      new;
      StartOk(edges);
    }

    /** Takes off the stack what is there from `name` on. */
    method PopTo(name: Node, ghost i: nat) returns (members: seq<Node>)
      requires i < |stack| && stack[i] == name && forall j :: i < j < |stack| ==> stack[j] != name
      modifies this`stack
      ensures stack == old(stack)[..i]
      ensures forall x :: x in members <==> x in old(stack)[i..]
    {
      ghost var before := stack;
      members := [];
      var member := stack[|stack| - 1];
      stack := stack[..|stack| - 1];
      members := members + [member];
      assert before[|stack|..] == [member];
      while member != name
        modifies this`stack
        invariant i <= |stack| < |before| && stack == before[..|stack|] && member == before[|stack|]
        invariant forall x :: x in members <==> x in before[|stack|..]
        decreases |stack|
      {
        member := stack[|stack| - 1];
        stack := stack[..|stack| - 1];
        assert before[|stack|..] == [member] + before[|stack| + 1..];
        members := members + [member];
      }
    }

    /** What is on the stack from `name` on becomes a component. */
    method Complete(name: Node, ghost i: nat)
      requires i < |stack| && stack[i] == name && forall j :: i < j < |stack| ==> stack[j] != name
      requires Numbered(componentOf, components)
      modifies this`stack, this`components, this`componentOf
      ensures State() == Completed(old(State()), i)
      ensures Numbered(componentOf, components)
    {
      var members := PopTo(name, i);
      var at := 0;
      while at < |members|
        modifies this`componentOf
        invariant 0 <= at <= |members|
        invariant componentOf.Keys == Popped(components) + (set x | x in members[..at])
        invariant forall n :: n in members[..at] ==> componentOf[n] == |components|
        invariant forall n :: n in componentOf && n !in members[..at] ==>
          componentOf[n] < |components| && n in components[componentOf[n]]
      {
        componentOf := componentOf[members[at] := |components|];
        assert members[..at + 1] == members[..at] + [members[at]];
        at := at + 1;
      }
      assert members[..at] == members;
      assert (set x | x in members) == (set x | x in old(stack)[i..]);
      PoppedMore(components, set x | x in members);
      components := components + [set x | x in members];
    }

    /** Finds `name` and all not found yet that it leads to, with `gray` open. */
    method Visit(name: Node, ghost gray: set<Node>)
      requires Valid(gray) && name in edges && name !in index
      requires forall g :: g in gray ==> Reaches(edges, g, name)
      modifies this`index, this`low, this`stack, this`components, this`componentOf
      ensures Valid(gray)
      ensures Kept(edges, old(State()), State())
      ensures Done(edges, State(), name) && index[name] == |old(index)|
      decreases edges.Keys - index.Keys
    {
      hide Inv, Kept, Frame, Done, Numbered, Reaches, Latest, Completed, Closed;
      ghost var s0 := State();
      FoundOk(edges, s0, gray, name);
      EnterKept(edges, s0, gray, name);
      index, low, stack := index[name := |index|], low[name := |index|], stack + [name];
      assert State() == Found(s0, name);
      var k := 0;
      while k < |edges[name]|
        modifies this`index, this`low, this`stack, this`components, this`componentOf
        invariant k <= |edges[name]|
        invariant Valid(gray + {name}) && Kept(edges, s0, State())
        invariant name in index && index[name] == |s0.index| && Frame(edges, State(), name, k, |index|)
      {
        var imported := edges[name][k];
        ghost var s := State();
        FrameHas(edges, s, name, k, |index|);
        if imported !in index {
          ChildReached(edges, s0, s, gray, name, k);
          assert name !in s0.index && edges.Keys - index.Keys < edges.Keys - s0.index.Keys;
          Visit(imported, gray + {name});
          ChildBack(edges, s0, s, State(), gray, name, k);
          low := low[name := if low[imported] < low[name] then low[imported] else low[name]];
        } else {
          SeenBack(edges, s0, s, gray, name, k);
          if imported in stack {
            low := low[name := if index[imported] < low[name] then index[imported] else low[name]];
          }
        }
        k := k + 1;
      }
      FrameHas(edges, State(), name, k, |index|);
      Close(name, gray, s0);
    }

    /** Ends the visit of `name`, all its imports seen. */
    method Close(name: Node, ghost gray: set<Node>, ghost s0: Search)
      requires Valid(gray + {name}) && name in edges && Inv(edges, s0, gray) && name !in s0.index
      requires Kept(edges, s0, State()) && name in index && name in low && index[name] == |s0.index|
      requires Frame(edges, State(), name, |edges[name]|, |index|)
      modifies this`stack, this`components, this`componentOf
      ensures Valid(gray) && Kept(edges, s0, State()) && Done(edges, State(), name)
    {
      hide Inv, Kept, Frame, Done, Numbered, Latest, Completed;
      ghost var s := State();
      FrameHas(edges, s, name, |edges[name]|, |index|);
      LastOpen(edges, s0, s, gray, name);
      assert gray + {name} - {name} == gray by {
        NotOpenYet(edges, s0, gray, name);
      }
      if low[name] == index[name] {
        ghost var i := PlaceOf(s, name);
        EndCompleted(edges, s0, s, gray, name, i);
        Complete(name, i);
      } else {
        FinishedOk(edges, s, gray + {name}, name);
      }
    }

    /** Finds every module, and so completes every component. */
    method FindAll(names: seq<Node>)
      requires Valid({}) && (forall n :: n in names <==> n in edges)
      modifies this`index, this`low, this`stack, this`components, this`componentOf
      ensures Valid({}) && Popped(components) == edges.Keys
    {
      hide Inv, Kept, Frame, Done, Numbered;
      var k := 0;
      while k < |names|
        modifies this`index, this`low, this`stack, this`components, this`componentOf
        invariant k <= |names| && Valid({})
        invariant forall i :: 0 <= i < k ==> names[i] in index
      {
        if names[k] !in index {
          ghost var s := State();
          Visit(names[k], {});
          KeptIndex(edges, s, State());
          DoneHas(edges, State(), names[k]);
        }
        k := k + 1;
      }
      NothingWaits(edges, State());
      FoundInside(edges, State(), {});
    }

    /** The level of a component, remembered with those below it. */
    method Level(component: nat) returns (level: nat)
      requires Ordered(edges, components) && Numbered(componentOf, components) && Popped(components) == edges.Keys
        && Closed(edges)
      requires component < |components| && LevelsOk(edges, components, depth)
      modifies this`depth
      ensures LevelsOk(edges, components, depth) && component in depth && depth[component] == level
      ensures Deeper(old(depth), depth, component + 1)
      decreases component, 1
    {
      hide Ordered, Numbered, LevelsOk, Popped, Leads;
      if component !in depth {
        var below := set member, imported | member in components[component] && member in edges
          && imported in edges[member] && imported in componentOf && componentOf[imported] != component ::
          componentOf[imported];
        BelowIsLeads(edges, componentOf, components, component, below);
        var highest := Highest(component, below);
        LevelAdded(edges, components, depth, component, below, 1 + highest);
        depth := depth[component := 1 + highest];
      }
      level := depth[component];
    }

    /** The highest level among the components below one. */
    method Highest(component: nat, below: set<nat>) returns (highest: int)
      requires Ordered(edges, components) && Numbered(componentOf, components) && Popped(components) == edges.Keys
        && Closed(edges)
      requires component < |components| && LevelsOk(edges, components, depth)
      requires forall j: nat {:trigger j in below} :: j in below ==> Leads(edges, components, component, j)
      modifies this`depth
      ensures LevelsOk(edges, components, depth) && Deeper(old(depth), depth, component)
      ensures highest >= -1 && HighestIs(depth, below, highest)
      decreases component, 0
    {
      hide Ordered, Numbered, LevelsOk, Popped, Leads;
      var left := below;
      highest := -1;
      assert below - left == {};
      while left != {}
        modifies this`depth
        invariant left <= below && highest >= -1
        invariant LevelsOk(edges, components, depth) && Deeper(old(depth), depth, component)
        invariant HighestIs(depth, below - left, highest)
        decreases left
      {
        var c :| c in left;
        LeadsBack(edges, components, component, c);
        var l := Level(c);
        highest := if l > highest then l else highest;
        assert below - left + {c} == below - (left - {c});
        left := left - {c};
      }
      assert below - left == below;
    }

    /** The components, by level. */
    method Waves() returns (waves: map<nat, seq<set<Node>>>, ghost from: map<nat, seq<nat>>)
      requires Ordered(edges, components) && Numbered(componentOf, components) && Popped(components) == edges.Keys
        && Closed(edges)
      requires depth == map[]
      modifies this`depth
      ensures LevelsOk(edges, components, depth) && Grouped(components, depth, from, waves, |components|)
    {
      hide Ordered, Numbered, LevelOk, Popped;
      waves, from := map[], map[];
      var number := 0;
      while number < |components|
        modifies this`depth
        invariant number <= |components|
        invariant LevelsOk(edges, components, depth) && Grouped(components, depth, from, waves, number)
      {
        ghost var was := depth;
        var level := Level(number);
        GroupedStill(components, was, depth, from, waves, number);
        GroupedMore(components, depth, from, waves, number);
        from := from[level := (if level in from then from[level] else []) + [number]];
        waves := waves[level := (if level in waves then waves[level] else []) + [components[number]]];
        number := number + 1;
      }
    }
  }

  lemma NotOpenYet(succ: Table, s: Search, gray: set<Node>, n: Node)
    requires Inv(succ, s, gray) && n !in s.index
    ensures n !in gray
  {
  }

  lemma EnterKept(succ: Table, s: Search, gray: set<Node>, n: Node)
    requires Inv(succ, s, gray) && n !in s.index
    ensures Kept(succ, s, Found(s, n))
  {
    FoundKept(succ, s, n);
  }

  lemma FrameHas(succ: Table, s: Search, n: Node, k: nat, top: nat)
    requires Frame(succ, s, n, k, top)
    ensures n in succ && k <= |succ[n]| && n in s.index && n in s.low && n in s.stack && s.low[n] <= s.index[n]
  {
  }

  /** All that are open reach the next node found. */
  lemma ChildReached(succ: Table, s0: Search, s: Search, gray: set<Node>, n: Node, k: nat)
    requires n in succ && k < |succ[n]| && n in s.index && Inv(succ, s, gray + {n}) && Kept(succ, s0, s)
    requires forall g :: g in gray ==> Reaches(succ, g, n)
    ensures s.index[n] < |s.index| && s0.index.Keys <= s.index.Keys <= succ.Keys
    ensures succ[n][k] in succ && forall g :: g in gray + {n} ==> Reaches(succ, g, succ[n][k])
  {
    hide Reaches;
    ReachesSelf(succ, n);
    assert Edge(succ, n, succ[n][k]);
    forall g | g in gray + {n} ensures Reaches(succ, g, succ[n][k]) {
      ReachesEdge(succ, g, n, succ[n][k]);
    }
  }

  lemma ChildBack(succ: Table, s0: Search, s: Search, s': Search, gray: set<Node>, n: Node, k: nat)
    requires Frame(succ, s, n, k, |s.index|) && k < |succ[n]| && succ[n][k] !in s.index
    requires Kept(succ, s0, s) && Kept(succ, s, s') && n !in s0.index
    requires Inv(succ, s', gray + {n}) && Done(succ, s', succ[n][k]) && s'.index[succ[n][k]] == |s.index|
    requires s.index[n] < |s.index|
    ensures n in s'.low && succ[n][k] in s'.low && n in s'.index && s'.index[n] == s.index[n]
    ensures Inv(succ, Lowered(s', n, s'.low[succ[n][k]]), gray + {n})
    ensures Frame(succ, Lowered(s', n, s'.low[succ[n][k]]), n, k + 1, |s'.index|)
    ensures Kept(succ, s0, Lowered(s', n, s'.low[succ[n][k]]))
  {
    assert Frame(succ, s', n, k, |s.index|);
    FrameHas(succ, s', n, k, |s.index|);
    hide Inv, Frame, Done;
    DoneHas(succ, s', succ[n][k]);
    KeptOn(succ, s0, s, s');
    assert s'.index[n] == s.index[n];
    hide Kept;
    ChildDone(succ, s', n, k, |s.index|);
    LoweredOk(succ, s', gray + {n}, n, s'.low[succ[n][k]]);
    LoweredKept(succ, s0, s', n, s'.low[succ[n][k]]);
  }

  lemma DoneHas(succ: Table, s: Search, n: Node)
    requires Done(succ, s, n)
    ensures n in s.index && n in s.low
  {
  }

  lemma SeenBack(succ: Table, s0: Search, s: Search, gray: set<Node>, n: Node, k: nat)
    requires Frame(succ, s, n, k, |s.index|) && k < |succ[n]| && succ[n][k] in s.index
    requires Kept(succ, s0, s) && n !in s0.index && Inv(succ, s, gray + {n})
    ensures n in s.low && Inv(succ, Seen(succ, s, n, k), gray + {n})
    ensures Frame(succ, Seen(succ, s, n, k), n, k + 1, |s.index|)
    ensures Kept(succ, s0, Seen(succ, s, n, k))
  {
    FrameHas(succ, s, n, k, |s.index|);
    hide Inv, Frame, Kept;
    SeenOk(succ, s, n, k, |s.index|);
    if succ[n][k] in s.stack {
      LoweredOk(succ, s, gray + {n}, n, s.index[succ[n][k]]);
      LoweredKept(succ, s0, s, n, s.index[succ[n][k]]);
    }
  }

  /** What was open when `n` was found was found before it. */
  lemma LastOpen(succ: Table, s0: Search, s: Search, gray: set<Node>, n: Node)
    requires Inv(succ, s0, gray) && Kept(succ, s0, s) && n in s.index && s.index[n] == |s0.index|
    ensures Latest(s, gray + {n}, n)
  {
    forall g | g in gray ensures g in s.index && s.index[g] <= s.index[n] {
      assert g in s0.stack && g in s0.index;
    }
  }

  lemma PlaceOf(s: Search, n: Node) returns (i: nat)
    requires n in s.stack
    ensures i < |s.stack| && s.stack[i] == n
  {
    i :| 0 <= i < |s.stack| && s.stack[i] == n;
  }

  lemma EndCompleted(succ: Table, s0: Search, s: Search, gray: set<Node>, n: Node, i: nat)
    requires Inv(succ, s, gray + {n}) && Inv(succ, s0, gray) && Latest(s, gray + {n}, n) && i < |s.stack|
      && s.stack[i] == n
    requires n in succ && Frame(succ, s, n, |succ[n]|, |s.index|) && n in s.low && s.low[n] == s.index[n]
    requires Kept(succ, s0, s) && s.index[n] == |s0.index| && n !in s0.index
    ensures Inv(succ, Completed(s, i), gray) && Done(succ, Completed(s, i), n) && Kept(succ, s0, Completed(s, i))
    ensures forall j :: i < j < |s.stack| ==> s.stack[j] != n
  {
    hide Frame, Done;
    NotOpenYet(succ, s0, gray, n);
    assert gray + {n} - {n} == gray;
    CompletedOk(succ, s, gray + {n}, n, i);
    CompletedKept(succ, s0, s, i);
    forall j | i < j < |s.stack| ensures s.stack[j] != n {
      assert s.index[s.stack[i]] < s.index[s.stack[j]];
    }
  }

  lemma KeptIndex(succ: Table, s: Search, s': Search)
    requires Kept(succ, s, s')
    ensures forall m :: m in s.index ==> m in s'.index
  {
  }

  lemma FoundInside(succ: Table, s: Search, gray: set<Node>)
    requires Inv(succ, s, gray)
    ensures s.index.Keys <= succ.Keys
  {
  }

  // ---- levels ----

  lemma BelowIsLeads(succ: Table, componentOf: map<Node, nat>, components: seq<set<Node>>, k: nat, below: set<nat>)
    requires Ordered(succ, components) && Numbered(componentOf, components) && Popped(components) == succ.Keys
      && Closed(succ) && k < |components|
    requires below == set member, imported | member in components[k] && member in succ && imported in succ[member]
      && imported in componentOf && componentOf[imported] != k :: componentOf[imported]
    ensures forall j: nat {:trigger j in below} {:trigger Leads(succ, components, k, j)} :: j in below <==>
      Leads(succ, components, k, j)
  {
    hide Ordered;
    forall j: nat | j in below ensures Leads(succ, components, k, j) {
      var a, b :| a in components[k] && a in succ && b in succ[a] && b in componentOf && componentOf[b] != k
        && componentOf[b] == j;
      assert Edge(succ, a, b);
    }
    forall j: nat | Leads(succ, components, k, j) ensures j in below {
      var a, b :| a in components[k] && b in components[j] && Edge(succ, a, b);
      NumberedOnce(succ, componentOf, components, b, j);
    }
  }

  lemma LevelAdded(succ: Table, components: seq<set<Node>>, depth: map<nat, nat>, k: nat, below: set<nat>, level: nat)
    requires LevelsOk(succ, components, depth) && k !in depth && k < |components|
    requires forall j: nat {:trigger j in below} {:trigger Leads(succ, components, k, j)} :: j in below <==>
      Leads(succ, components, k, j)
    requires forall c :: c in below ==> c in depth && depth[c] < level
    requires level > 0 ==> exists c :: c in below && c in depth && depth[c] + 1 == level
    ensures LevelsOk(succ, components, depth[k := level])
  {
    hide Leads;
    var more := depth[k := level];
    forall c | c in more ensures LevelOk(succ, components, more, c) {
      if c != k {
        assert LevelOk(succ, components, depth, c);
        if depth[c] > 0 {
          var j: nat :| Leads(succ, components, c, j) && j in depth && depth[j] + 1 == depth[c];
          assert j in more && more[j] + 1 == more[c];
        }
      } else if level > 0 {
        var j :| j in below && j in depth && depth[j] + 1 == level;
        assert Leads(succ, components, k, j) && j in more && more[j] + 1 == level;
      }
    }
  }

  // ---- waves ----

  /** The group of level `l`: components in the order of their numbers, none after `number`. */
  ghost predicate Group(components: seq<set<Node>>, depth: map<nat, nat>, numbers: seq<nat>, group: seq<set<Node>>,
      l: nat, number: nat) {
    && |numbers| == |group| > 0
    && (forall i :: 0 <= i < |numbers| ==>
      numbers[i] < number <= |components| && numbers[i] in depth && depth[numbers[i]] == l
      && group[i] == components[numbers[i]])
    && (forall i, j :: 0 <= i < j < |numbers| ==> numbers[i] < numbers[j])
  }

  ghost predicate Grouped(components: seq<set<Node>>, depth: map<nat, nat>, from: map<nat, seq<nat>>,
      waves: map<nat, seq<set<Node>>>, number: nat) {
    && from.Keys == waves.Keys
    && (forall l {:trigger from[l]} :: l in from ==> Group(components, depth, from[l], waves[l], l, number))
    && (forall j :: 0 <= j < number ==> j in depth && depth[j] in from && j in from[depth[j]])
  }

  lemma GroupedStill(components: seq<set<Node>>, depth: map<nat, nat>, more: map<nat, nat>, from: map<nat, seq<nat>>,
      waves: map<nat, seq<set<Node>>>, number: nat)
    requires Grouped(components, depth, from, waves, number) && forall k :: k in depth ==>
      k in more && more[k] == depth[k]
    ensures Grouped(components, more, from, waves, number)
  {
    forall l | l in from ensures Group(components, more, from[l], waves[l], l, number) {
      assert Group(components, depth, from[l], waves[l], l, number);
    }
  }

  lemma GroupedMore(components: seq<set<Node>>, depth: map<nat, nat>, from: map<nat, seq<nat>>,
      waves: map<nat, seq<set<Node>>>, number: nat)
    requires Grouped(components, depth, from, waves, number) && number < |components| && number in depth
    ensures var l := depth[number];
            Grouped(components, depth, from[l := (if l in from then from[l] else []) + [number]],
              waves[l := (if l in waves then waves[l] else []) + [components[number]]], number + 1)
  {
    hide Group;
    var level := depth[number];
    var from' := from[level := (if level in from then from[level] else []) + [number]];
    var waves' := waves[level := (if level in waves then waves[level] else []) + [components[number]]];
    forall l | l in from' ensures Group(components, depth, from'[l], waves'[l], l, number + 1) {
      if l in from {
        assert Group(components, depth, from[l], waves[l], l, number);
        if l == level {
          GroupMore(components, depth, from[l], waves[l], l, number);
        } else {
          GroupStill(components, depth, from[l], waves[l], l, number);
        }
      } else {
        GroupNew(components, depth, number);
      }
    }
    forall j | 0 <= j < number + 1 ensures j in depth && depth[j] in from' && j in from'[depth[j]] {
      if j == number {
        assert from'[level][|from'[level]| - 1] == number;
      }
    }
  }

  lemma GroupMore(components: seq<set<Node>>, depth: map<nat, nat>, numbers: seq<nat>, group: seq<set<Node>>, l: nat,
      number: nat)
    requires Group(components, depth, numbers, group, l, number) && number < |components| && number in depth
      && depth[number] == l
    ensures Group(components, depth, numbers + [number], group + [components[number]], l, number + 1)
  {
  }

  lemma GroupStill(components: seq<set<Node>>, depth: map<nat, nat>, numbers: seq<nat>, group: seq<set<Node>>, l: nat,
      number: nat)
    requires Group(components, depth, numbers, group, l, number) && number < |components|
    ensures Group(components, depth, numbers, group, l, number + 1)
  {
  }

  lemma GroupNew(components: seq<set<Node>>, depth: map<nat, nat>, number: nat)
    requires number < |components| && number in depth
    ensures Group(components, depth, [] + [number], [] + [components[number]], depth[number], number + 1)
  {
  }

  /** Levels leave no gap. */
  lemma {:induction false} NoGap(succ: Table, components: seq<set<Node>>, depth: map<nat, nat>,
      from: map<nat, seq<nat>>, waves: map<nat, seq<set<Node>>>, l: nat, m: nat)
    requires LevelsOk(succ, components, depth) && Grouped(components, depth, from, waves, |components|)
    requires l in waves && m <= l
    ensures m in waves
    decreases l
  {
    if m < l {
      assert l in from && Group(components, depth, from[l], waves[l], l, |components|);
      var k := from[l][0];
      assert LevelOk(succ, components, depth, k);
      var j: nat :| Leads(succ, components, k, j) && j in depth && depth[j] + 1 == depth[k];
      NoGap(succ, components, depth, from, waves, depth[j], m);
    }
  }

  /** The groups in order of level, as waves. */
  ghost predicate InOrder(groups: map<nat, seq<set<Node>>>, waves: seq<seq<set<Node>>>) {
    |waves| == |groups| && forall l: nat :: (l in groups <==> l < |waves|) && (l < |waves| ==> waves[l] == groups[l])
  }

  lemma GroupAt(succ: Table, components: seq<set<Node>>, depth: map<nat, nat>, from: map<nat, seq<nat>>,
      groups: map<nat, seq<set<Node>>>, waves: seq<seq<set<Node>>>, w: nat, i: nat)
      returns (k: nat)
    requires Grouped(components, depth, from, groups, |components|) && InOrder(groups, waves) && w < |waves|
      && i < |waves[w]|
    ensures w in from && i < |from[w]| && from[w][i] == k < |components| && k in depth && depth[k] == w
      && waves[w][i] == components[k]
  {
    assert w in groups && w in from && Group(components, depth, from[w], groups[w], w, |components|);
    k := from[w][i];
  }

  lemma ComponentIn(succ: Table, components: seq<set<Node>>, depth: map<nat, nat>, from: map<nat, seq<nat>>,
      groups: map<nat, seq<set<Node>>>, waves: seq<seq<set<Node>>>, k: nat)
      returns (w: nat, i: nat)
    requires Grouped(components, depth, from, groups, |components|) && InOrder(groups, waves) && k < |components|
    ensures k in depth && w == depth[k] < |waves| && i < |waves[w]| && waves[w][i] == components[k]
  {
    w := depth[k];
    assert w in from && Group(components, depth, from[w], groups[w], w, |components|);
    i :| 0 <= i < |from[w]| && from[w][i] == k;
  }

  lemma WavesPlaced(succ: Table, components: seq<set<Node>>, depth: map<nat, nat>, from: map<nat, seq<nat>>,
      groups: map<nat, seq<set<Node>>>, waves: seq<seq<set<Node>>>, w: nat, i: nat)
    requires Closed(succ) && Ordered(succ, components) && Popped(components) == succ.Keys
      && LevelsOk(succ, components, depth)
    requires Grouped(components, depth, from, groups, |components|) && InOrder(groups, waves) && w < |waves|
      && i < |waves[w]|
    ensures WellPlaced(succ, waves, w, i)
  {
    hide Grouped, InOrder, IsComponent;
    var k := GroupAt(succ, components, depth, from, groups, waves, w, i);
    assert Descends(succ, components, k) && LevelOk(succ, components, depth, k);
    forall a, b | a in waves[w][i] && Edge(succ, a, b) && b !in waves[w][i] ensures exists v: nat ::
      v < w && InWave(waves, b, v) {
      assert b in Popped(components);
      var j :| 0 <= j < |components| && b in components[j];
      assert Imports(succ, components[k], components[j]);
      assert Leads(succ, components, k, j);
      var v, at := ComponentIn(succ, components, depth, from, groups, waves, j);
      assert InWave(waves, b, v);
    }
    if w > 0 {
      var j: nat :| Leads(succ, components, k, j) && j in depth && depth[j] + 1 == w;
      var v, at := ComponentIn(succ, components, depth, from, groups, waves, j);
      assert components[j] in waves[w - 1];
    }
  }

  lemma WavesOnce(succ: Table, components: seq<set<Node>>, depth: map<nat, nat>, from: map<nat, seq<nat>>,
      groups: map<nat, seq<set<Node>>>, waves: seq<seq<set<Node>>>, n: Node, w: nat, i: nat, v: nat, j: nat)
    requires Ordered(succ, components) && Grouped(components, depth, from, groups, |components|)
      && InOrder(groups, waves)
    requires w < |waves| && i < |waves[w]| && v < |waves| && j < |waves[v]| && n in waves[w][i] && n in waves[v][j]
    ensures w == v && i == j
  {
    hide Descends, InOrder;
    var k := GroupAt(succ, components, depth, from, groups, waves, w, i);
    var l := GroupAt(succ, components, depth, from, groups, waves, v, j);
    assert k == l;
    assert Group(components, depth, from[w], groups[w], w, |components|);
  }

  lemma WavesSchedule(succ: Table, components: seq<set<Node>>, depth: map<nat, nat>, from: map<nat, seq<nat>>,
      groups: map<nat, seq<set<Node>>>, waves: seq<seq<set<Node>>>)
    requires Closed(succ) && Ordered(succ, components) && Popped(components) == succ.Keys
      && LevelsOk(succ, components, depth)
    requires Grouped(components, depth, from, groups, |components|) && InOrder(groups, waves)
    ensures IsSchedule(succ, waves)
  {
    hide Ordered, LevelsOk, WellPlaced, Closed, Grouped;
    forall w, i | 0 <= w < |waves| && 0 <= i < |waves[w]| ensures WellPlaced(succ, waves, w, i) {
      WavesPlaced(succ, components, depth, from, groups, waves, w, i);
    }
    forall n, w, v, i, j | 0 <= w < |waves| && 0 <= i < |waves[w]| && 0 <= v < |waves| && 0 <= j < |waves[v]|
      && n in waves[w][i] && n in waves[v][j] ensures w == v && i == j {
      WavesOnce(succ, components, depth, from, groups, waves, n, w, i, v, j);
    }
    forall n | n in succ ensures exists w: nat :: InWave(waves, n, w) {
      assert n in Popped(components);
      var k :| 0 <= k < |components| && n in components[k];
      var w, i := ComponentIn(succ, components, depth, from, groups, waves, k);
      assert InWave(waves, n, w);
    }
    forall w | 0 <= w < |waves| ensures waves[w] != [] {
      GroupNotEmpty(components, depth, from, groups, w, waves);
    }
  }

  lemma GroupNotEmpty(components: seq<set<Node>>, depth: map<nat, nat>, from: map<nat, seq<nat>>,
      groups: map<nat, seq<set<Node>>>, w: nat, waves: seq<seq<set<Node>>>)
    requires Grouped(components, depth, from, groups, |components|) && InOrder(groups, waves) && w < |waves|
    ensures waves[w] != []
  {
    assert w in from && Group(components, depth, from[w], groups[w], w, |components|);
  }

  // ---- the whole ----

  /** The imports of a module that are modules of the project. */
  function Known(names: seq<Node>, imported: seq<Node>): (r: seq<Node>)
    ensures forall m :: m in r <==> m in imported && m in names
  {
    if imported == [] then []
    else (if imported[0] in names then [imported[0]] else []) + Known(names, imported[1..])
  }

  /** The import edges between project modules: an import of anything else leaves none. */
  function EdgesAmong(names: seq<Node>, imports: Table): (succ: Table)
    ensures Closed(succ)
    ensures forall a, b :: Edge(succ, a, b) <==> a in names && b in names && a in imports && b in imports[a]
  {
    map n | n in names :: Known(names, if n in imports then imports[n] else [])
  }

  /** Schedules the modules of a project, visited in the order of `names`. */
  method Schedule(names: seq<Node>, imports: Table) returns (waves: seq<seq<set<Node>>>)
    ensures IsSchedule(EdgesAmong(names, imports), waves) && InNameOrder(names, waves)
  {
    var edges := EdgesAmong(names, imports);
    var search := new Scheduler(edges);
    search.FindAll(names);
    SearchOrdered(edges, search.State());
    hide Inv, Ordered, Grouped, LevelsOk, Numbered, IsSchedule, InNameOrder;
    var groups, from := search.Waves();
    forall l, m: nat | l in groups && m <= l ensures m in groups {
      NoGap(edges, search.components, search.depth, from, groups, l, m);
    }
    var unsorted := ByLevel(groups);
    WavesSchedule(edges, search.components, search.depth, from, groups, unsorted);
    ghost var moved;
    waves, moved := SortWaves(names, unsorted);
    ReorderedIsSchedule(edges, unsorted, waves, moved);
  }

  /** Sorts the components of each wave by their least names. */
  method SortWaves(names: seq<Node>, waves: seq<seq<set<Node>>>)
    returns (sorted: seq<seq<set<Node>>>, ghost from: seq<seq<nat>>)
    ensures Reordered(waves, sorted, from) && InNameOrder(names, sorted)
  {
    hide SortedBy, Rearranges;
    sorted, from := [], [];
    for w := 0 to |waves|
      invariant |sorted| == |from| == w && InNameOrder(names, sorted)
      invariant forall v {:trigger Rearranges(waves[v], sorted[v], from[v])} :: 0 <= v < w ==>
        Rearranges(waves[v], sorted[v], from[v])
    {
      var wave, moved := SortBy(waves[w], ByLeast(names));
      OrderedIsSorted(names, wave);
      sorted, from := sorted + [wave], from + [moved];
    }
  }

  /** The groups in the order of their levels. */
  method ByLevel(groups: map<nat, seq<set<Node>>>) returns (waves: seq<seq<set<Node>>>)
    requires forall l, m: nat :: l in groups && m <= l ==> m in groups
    ensures InOrder(groups, waves)
  {
    waves := [];
    var left := groups.Keys;
    while left != {}
      invariant left == set l | l in groups && |waves| <= l
      invariant forall l: nat :: l < |waves| ==> l in groups && waves[l] == groups[l]
      decreases left
    {
      assert |waves| in left by {
        var l :| l in left;
        assert l in groups && |waves| <= l;
      }
      var wave :| wave in left && forall l :: l in left ==> wave <= l;
      waves := waves + [groups[wave]];
      left := left - {wave};
    }
    forall l: nat | l in groups ensures l < |waves| {
      assert l in left <==> |waves| <= l;
    }
    Counted(groups, waves);
  }

  lemma SearchOrdered(succ: Table, s: Search)
    requires Inv(succ, s, {})
    ensures Ordered(succ, s.components)
  {
  }

  lemma Counted(groups: map<nat, seq<set<Node>>>, waves: seq<seq<set<Node>>>)
    requires forall l: nat :: l in groups <==> l < |waves|
    requires forall l: nat :: l < |waves| ==> l in groups && waves[l] == groups[l]
    ensures InOrder(groups, waves)
  {
    UpTo(|waves|, groups.Keys);
  }

  lemma {:induction false} UpTo(n: nat, s: set<nat>)
    requires forall l: nat :: l in s <==> l < n
    ensures |s| == n
  {
    if n == 0 {
      assert s == {};
    } else {
      UpTo(n - 1, s - {n - 1});
    }
  }
}
