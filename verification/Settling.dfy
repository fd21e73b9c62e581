/** Settling what the render of every template reaches, component by component. */
module Settling {
  import opened Graphs
  import opened Components
  import opened TemplateComponents
  import opened TemplateFacts
  import opened TemplateBounds
  import opened Sorting

  type Found = map<Node, seq<Fact>>

  function Targets(references: seq<(Node, Reference)>): (r: seq<Node>)
    ensures |r| == |references| && forall k :: 0 <= k < |r| ==> r[k] == references[k].0
  {
    seq(|references|, k requires 0 <= k < |references| => references[k].0)
  }

  /** The templates each template includes. */
  function Includes(renders: Renders): Table {
    map t | t in renders :: Targets(renders[t].references)
  }

  /** The first occurrences, in order. */
  function Once<T(==,!new)>(s: seq<T>): (r: seq<T>)
    ensures forall x :: x in r <==> x in s
    ensures forall i, j :: 0 <= i < j < |r| ==> r[i] != r[j]
  {
    if s == [] then []
    else
      var r, last := Once(s[..|s| - 1]), s[|s| - 1];
      assert s == s[..|s| - 1] + [last];
      if last in r then r else r + [last]
  }

  /** They are in the order in which they first occur. */
  lemma {:induction false} OnceInOrder<T(!new)>(s: seq<T>, i: nat, j: nat)
    requires i < j < |Once(s)|
    ensures exists k :: 0 <= k < |s| && s[k] == Once(s)[i] && Once(s)[j] !in s[..k + 1]
  {
    var n := |s| - 1;
    var r := Once(s[..n]);
    if j < |r| {
      OnceInOrder(s[..n], i, j);
      var k :| 0 <= k < n && s[..n][k] == r[i] && r[j] !in s[..n][..k + 1];
      assert s[..n][..k + 1] == s[..k + 1];
    } else {
      assert r[i] in s[..n];
      var k :| 0 <= k < n && s[..n][k] == r[i];
      assert s[..k + 1] <= s[..n];
      forall x | x in s[..k + 1] ensures x in s[..n] {
        var l :| 0 <= l < k + 1 && s[l] == x;
        assert s[..n][l] == x;
      }
    }
  }

  /** The facts are those the include paths bring, no more and no fewer. */
  ghost predicate Exact(renders: Renders, t: Node, facts: seq<Fact>) {
    forall i {:trigger Listed(facts, i)} {:trigger Reached(renders, t, i)} :: Listed(facts, i) <==>
      Reached(renders, t, i)
  }

  ghost predicate AllExact(renders: Renders, reached: Found) {
    forall t {:trigger reached[t]} :: t in reached ==> Exact(renders, t, reached[t])
  }

  // ---- one step ----

  /** What is known of a template: of the component at hand by `names`, of earlier ones by `reached`. */
  ghost predicate Known(names: map<Node, Joined>, reached: Found, t: Node, i: Item) {
    if t in names then Holds(names[t], i) else t in reached && Listed(reached[t], i)
  }

  ghost predicate Comes(renders: Renders, names: map<Node, Joined>, reached: Found, t: Node, k: nat, i: Item)
    requires t in renders && k < |renders[t].references|
  {
    exists j :: Known(names, reached, renders[t].references[k].0, j) && Carries(renders[t].references[k].1, j, i)
  }

  /** What `t` applies, or a reference among its first `n` carries. */
  ghost predicate Gathers(renders: Renders, names: map<Node, Joined>, reached: Found, t: Node, n: nat, i: Item)
    requires t in renders && n <= |renders[t].references|
  {
    Listed(renders[t].applied, i) || exists k :: 0 <= k < n && Comes(renders, names, reached, t, k, i)
  }

  ghost predicate Step(renders: Renders, names: map<Node, Joined>, reached: Found, t: Node, i: Item)
    requires t in renders
  {
    Gathers(renders, names, reached, t, |renders[t].references|, i)
  }

  lemma GathersMore(renders: Renders, names: map<Node, Joined>, reached: Found, t: Node, n: nat, i: Item)
    requires t in renders && n < |renders[t].references|
    ensures Gathers(renders, names, reached, t, n + 1, i) <==>
      Gathers(renders, names, reached, t, n, i) || Comes(renders, names, reached, t, n, i)
  {
  }

  /** Every reference of `t` is to a template known. */
  ghost predicate Supplied(renders: Renders, members: set<Node>, reached: Found, t: Node)
    requires t in renders
  {
    forall k :: 0 <= k < |renders[t].references| ==>
      renders[t].references[k].0 in members || renders[t].references[k].0 in reached
  }

  /** What is true of the templates known is true of what a step gathers. */
  lemma StepReached(renders: Renders, names: map<Node, Joined>, reached: Found, t: Node, i: Item)
    requires t in renders && Step(renders, names, reached, t, i)
    requires AllExact(renders, reached)
    requires forall b, j {:trigger Holds(names[b], j)} :: b in names && Holds(names[b], j) ==> Reached(renders, b, j)
    ensures Reached(renders, t, i)
  {
    hide Reached, Carries, Listed, Holds;
    if Listed(renders[t].applied, i) {
      ReachedHere(renders, t, i);
    } else {
      var k :| 0 <= k < |renders[t].references| && Comes(renders, names, reached, t, k, i);
      var b := renders[t].references[k].0;
      var j :| Known(names, reached, b, j) && Carries(renders[t].references[k].1, j, i);
      if b !in names {
        assert Exact(renders, b, reached[b]);
      }
      ReachedThrough(renders, t, k, j, i);
    }
  }

  /** What include paths bring is the least that holds what each template applies and what each
      reference carries: it is within any `x` that does. */
  lemma {:induction false} ReachedIsLeast(renders: Renders, x: map<Node, set<Item>>, t: Node, path: seq<nat>, i: Item)
    requires Closed(Includes(renders)) && x.Keys == renders.Keys
    requires forall b, j {:trigger Listed(renders[b].applied, j)} :: b in renders && Listed(renders[b].applied, j) ==>
      j in x[b]
    requires forall b, k, j, h {:trigger Carries(renders[b].references[k].1, j, h)} ::
      b in renders && 0 <= k < |renders[b].references| && Carries(renders[b].references[k].1, j, h) ==>
      renders[b].references[k].0 in x && j in x[renders[b].references[k].0] ==> h in x[b]
    requires Brings(renders, t, path, i)
    ensures i in x[t]
    decreases |path|
  {
    if path != [] {
      var e := renders[t].references[path[0]];
      var j :| Brings(renders, e.0, path[1..], j) && Carries(e.1, j, i);
      ReachedIsLeast(renders, x, e.0, path[1..], j);
    }
  }

  // ---- a template outside any cycle ----

  /** What `t` applies, then what each of its first `n` references reaches, in order. */
  function InTurn(renders: Renders, reached: Found, t: Node, n: nat): seq<Fact>
    requires t in renders && n <= |renders[t].references|
    requires forall k :: 0 <= k < |renders[t].references| ==> renders[t].references[k].0 in reached
  {
    if n == 0 then renders[t].applied
    else InTurn(renders, reached, t, n - 1) + MappedFacts(renders[t].references[n - 1].1,
      reached[renders[t].references[n - 1].0])
  }

  lemma ListedBoth(a: seq<Fact>, b: seq<Fact>, i: Item)
    ensures Listed(a + b, i) <==> Listed(a, i) || Listed(b, i)
  {
    if Listed(a, i) {
      var f :| f in a && Says(f, i);
      assert f in a + b;
    }
    if Listed(b, i) {
      var f :| f in b && Says(f, i);
      assert f in a + b;
    }
  }

  lemma {:induction false} InTurnGathers(renders: Renders, reached: Found, t: Node, n: nat, i: Item)
    requires t in renders && n <= |renders[t].references|
    requires forall k :: 0 <= k < |renders[t].references| ==> renders[t].references[k].0 in reached
    ensures Listed(InTurn(renders, reached, t, n), i) <==> Gathers(renders, map[], reached, t, n, i)
  {
    hide Listed, Carries;
    if n > 0 {
      InTurnGathers(renders, reached, t, n - 1, i);
      GathersMore(renders, map[], reached, t, n - 1, i);
      var (b, r) := renders[t].references[n - 1];
      ListedBoth(InTurn(renders, reached, t, n - 1), MappedFacts(r, reached[b]), i);
      MappedListed(r, reached[b], i);
      if j :| Listed(reached[b], j) && Carries(r, j, i) {
        assert Known(map[], reached, b, j);
      }
    }
  }

  /** What include paths bring: what the template applies, or what a reference carries. */
  lemma ReachedIsStep(renders: Renders, reached: Found, t: Node, i: Item)
    requires t in renders && AllExact(renders, reached) && Supplied(renders, {}, reached, t)
    ensures Reached(renders, t, i) <==> Step(renders, map[], reached, t, i)
  {
    if Reached(renders, t, i) {
      var path :| Brings(renders, t, path, i);
      if path != [] {
        var e := renders[t].references[path[0]];
        var j :| Brings(renders, e.0, path[1..], j) && Carries(e.1, j, i);
        assert Reached(renders, e.0, j) && Exact(renders, e.0, reached[e.0]);
        assert Known(map[], reached, e.0, j);
        assert Comes(renders, map[], reached, t, path[0], i);
      }
    }
    if Step(renders, map[], reached, t, i) {
      StepReached(renders, map[], reached, t, i);
    }
  }

  /** Adds to `found` the facts it lacks. */
  method Update(found: seq<Fact>, more: seq<Fact>, ghost base: seq<Fact>) returns (all: seq<Fact>)
    requires found == Once(base)
    ensures all == Once(base + more)
  {
    hide Once;
    all := found;
    assert base + more[..0] == base;
    for k := 0 to |more|
      invariant all == Once(base + more[..k])
    {
      OnceMore(base + more[..k], more[k]);
      assert base + more[..k + 1] == base + more[..k] + [more[k]];
      if more[k] !in all {
        all := all + [more[k]];
      }
    }
    assert more[..|more|] == more;
  }

  lemma OnceMore<T(!new)>(s: seq<T>, x: T)
    ensures Once(s + [x]) == if x in Once(s) then Once(s) else Once(s) + [x]
  {
    assert (s + [x])[..|s|] == s;
  }

  /** What a template outside any cycle reaches, what its references reach being final. */
  method Settle(renders: Renders, reached: Found, t: Node) returns (found: seq<Fact>)
    requires t in renders && AllExact(renders, reached) && Supplied(renders, {}, reached, t)
    ensures found == Once(InTurn(renders, reached, t, |renders[t].references|))
    ensures Exact(renders, t, found)
  {
    hide AllExact, Exact, Once, InTurn, MappedFacts;
    NothingInTurn(renders, reached, t);
    found := Update([], renders[t].applied, []);
    for k := 0 to |renders[t].references|
      invariant found == Once(InTurn(renders, reached, t, k))
    {
      var (below, reference) := renders[t].references[k];
      var mapped := Mapped(reference, reached[below]);
      found := Update(found, mapped, InTurn(renders, reached, t, k));
      MoreInTurn(renders, reached, t, k);
    }
    SettledExact(renders, reached, t, found);
  }

  lemma NothingInTurn(renders: Renders, reached: Found, t: Node)
    requires t in renders && Supplied(renders, {}, reached, t)
    ensures Once<Fact>([]) == [] && [] + renders[t].applied == renders[t].applied == InTurn(renders, reached, t, 0)
  {
  }

  lemma MoreInTurn(renders: Renders, reached: Found, t: Node, k: nat)
    requires t in renders && Supplied(renders, {}, reached, t) && k < |renders[t].references|
    ensures InTurn(renders, reached, t, k + 1) == InTurn(renders, reached, t, k)
      + MappedFacts(renders[t].references[k].1, reached[renders[t].references[k].0])
  {
  }

  lemma SettledExact(renders: Renders, reached: Found, t: Node, found: seq<Fact>)
    requires t in renders && AllExact(renders, reached) && Supplied(renders, {}, reached, t)
    requires found == Once(InTurn(renders, reached, t, |renders[t].references|))
    ensures Exact(renders, t, found)
  {
    var all := InTurn(renders, reached, t, |renders[t].references|);
    hide AllExact, Once, InTurn, Reached;
    forall i ensures Listed(found, i) <==> Reached(renders, t, i) {
      assert Listed(found, i) <==> Listed(all, i);
      InTurnGathers(renders, reached, t, |renders[t].references|, i);
      ReachedIsStep(renders, reached, t, i);
    }
  }

  // ---- templates in a cycle ----

  ghost predicate NameReached(renders: Renders, names: map<Node, Joined>) {
    forall b, j {:trigger Holds(names[b], j)} :: b in names && Holds(names[b], j) ==> Reached(renders, b, j)
  }

  /** What is held of `m` is gathered from what is held now. */
  ghost predicate Backed(renders: Renders, names: map<Node, Joined>, reached: Found, m: Node)
    requires m in names && m in renders
  {
    forall i {:trigger Holds(names[m], i)} :: Holds(names[m], i) ==> Step(renders, names, reached, m, i)
  }

  /** All that is gathered for `m` is held. */
  ghost predicate Fixed(renders: Renders, names: map<Node, Joined>, reached: Found, m: Node)
    requires m in names && m in renders
  {
    forall i {:trigger Holds(names[m], i)} :: Step(renders, names, reached, m, i) ==> Holds(names[m], i)
  }

  ghost predicate AllBacked(renders: Renders, names: map<Node, Joined>, reached: Found)
    requires names.Keys <= renders.Keys
  {
    forall m {:trigger Backed(renders, names, reached, m)} :: m in names ==> Backed(renders, names, reached, m)
  }

  ghost predicate FixedBut(renders: Renders, names: map<Node, Joined>, reached: Found, pending: seq<Node>)
    requires names.Keys <= renders.Keys
  {
    forall m {:trigger Fixed(renders, names, reached, m)} :: m in names && m !in pending ==>
      Fixed(renders, names, reached, m)
  }

  ghost predicate HoldsMore(m: Joined, more: Joined) {
    forall i {:trigger Holds(m, i)} {:trigger Holds(more, i)} :: Holds(m, i) ==> Holds(more, i)
  }

  /** More known, more gathered. */
  lemma StepGrows(renders: Renders, names: map<Node, Joined>, reached: Found, m: Node, grown: Joined, t: Node, i: Item)
    requires t in renders && m in names && HoldsMore(names[m], grown) && Step(renders, names, reached, t, i)
    ensures Step(renders, names[m := grown], reached, t, i)
  {
    hide Holds, Listed, Carries;
    if !Listed(renders[t].applied, i) {
      var k :| 0 <= k < |renders[t].references| && Comes(renders, names, reached, t, k, i);
      var b := renders[t].references[k].0;
      var j :| Known(names, reached, b, j) && Carries(renders[t].references[k].1, j, i);
      assert Known(names[m := grown], reached, b, j);
      assert Comes(renders, names[m := grown], reached, t, k, i);
    }
  }

  ghost predicate IncludesIt(renders: Renders, t: Node, m: Node)
    requires t in renders
  {
    exists k :: 0 <= k < |renders[t].references| && renders[t].references[k].0 == m
  }

  /** A template that does not include `m` gathers nothing new when `m` grows. */
  lemma StepUnread(renders: Renders, names: map<Node, Joined>, reached: Found, m: Node, grown: Joined, t: Node, i: Item)
    requires t in renders && m in names && !IncludesIt(renders, t, m) && Step(renders, names[m := grown], reached, t, i)
    ensures Step(renders, names, reached, t, i)
  {
    hide Holds, Listed, Carries;
    if !Listed(renders[t].applied, i) {
      var k :| 0 <= k < |renders[t].references| && Comes(renders, names[m := grown], reached, t, k, i);
      var b := renders[t].references[k].0;
      var j :| Known(names[m := grown], reached, b, j) && Carries(renders[t].references[k].1, j, i);
      assert Known(names, reached, b, j);
      assert Comes(renders, names, reached, t, k, i);
    }
  }

  /** The facts that hold of `m` grow to what is gathered for it. */
  ghost predicate Recomputed(renders: Renders, names: map<Node, Joined>, reached: Found, m: Node, grown: Joined)
    requires m in renders
  {
    forall i {:trigger Holds(grown, i)} :: Holds(grown, i) <==> Step(renders, names, reached, m, i)
  }

  lemma GrownBacked(renders: Renders, names: map<Node, Joined>, reached: Found, m: Node, grown: Joined)
    requires names.Keys <= renders.Keys && m in names && AllBacked(renders, names, reached)
      && Recomputed(renders, names, reached, m, grown)
    ensures AllBacked(renders, names[m := grown], reached) && HoldsMore(names[m], grown)
  {
    hide Holds, Step;
    assert Backed(renders, names, reached, m);
    var names' := names[m := grown];
    forall t | t in names' ensures Backed(renders, names', reached, t) {
      assert Backed(renders, names, reached, t);
      forall i | Holds(names'[t], i) ensures Step(renders, names', reached, t, i) {
        StepGrows(renders, names, reached, m, grown, t, i);
      }
    }
  }

  lemma GrownFixed(renders: Renders, names: map<Node, Joined>, reached: Found, m: Node, grown: Joined,
      pending: seq<Node>, pending': seq<Node>)
    requires names.Keys <= renders.Keys && m in names && Recomputed(renders, names, reached, m, grown)
    requires forall t :: t in names && t !in pending && t != m ==> Fixed(renders, names, reached, t)
    requires forall t :: t in names && (t in pending || IncludesIt(renders, t, m)) ==> t in pending'
    ensures FixedBut(renders, names[m := grown], reached, pending')
  {
    hide Holds, Step, IncludesIt;
    var names' := names[m := grown];
    forall t | t in names' && t !in pending' ensures Fixed(renders, names', reached, t) {
      forall i | Step(renders, names', reached, t, i) ensures Holds(names'[t], i) {
        StepUnread(renders, names, reached, m, grown, t, i);
        if t != m {
          assert Fixed(renders, names, reached, t);
          assert Holds(names[t], i);
        }
      }
    }
  }

  lemma GrownReached(renders: Renders, names: map<Node, Joined>, reached: Found, m: Node, grown: Joined)
    requires names.Keys <= renders.Keys && m in names && Recomputed(renders, names, reached, m, grown)
    requires AllExact(renders, reached) && NameReached(renders, names)
    ensures NameReached(renders, names[m := grown])
  {
    hide Holds, Step, Reached, AllExact;
    var names' := names[m := grown];
    forall b, j | b in names' && Holds(names'[b], j) ensures Reached(renders, b, j) {
      if b == m {
        StepReached(renders, names, reached, m, j);
      } else {
        assert Holds(names[b], j);
      }
    }
  }

  /** No growth in size is no growth. */
  lemma SameSize(renders: Renders, names: map<Node, Joined>, reached: Found, m: Node, grown: Joined)
    requires m in names && m in renders && Backed(renders, names, reached, m)
      && Recomputed(renders, names, reached, m, grown)
    ensures |Items(names[m])| <= |Items(grown)|
    ensures |Items(names[m])| == |Items(grown)| ==> Fixed(renders, names, reached, m)
    ensures |Items(names[m])| < |Items(grown)| ==> exists i :: Holds(grown, i) && !Holds(names[m], i)
  {
    hide Holds, Step, Items;
    Grows(Items(names[m]), Items(grown));
    if |Items(names[m])| < |Items(grown)| {
      assert exists i :: i in Items(grown) && i !in Items(names[m]);
    }
  }

  /** The items not held yet of the members of a component. */
  ghost function Missing(renders: Renders, names: map<Node, Joined>): set<(Node, Item)> {
    set m, i | m in names && i in Universe(renders) && i !in Items(names[m]) :: (m, i)
  }

  lemma MissingLess(renders: Renders, names: map<Node, Joined>, m: Node, grown: Joined)
    requires m in names && HoldsMore(names[m], grown)
    requires forall i :: Holds(grown, i) ==> Reached(renders, m, i)
    requires exists i :: Holds(grown, i) && !Holds(names[m], i)
    ensures Missing(renders, names[m := grown]) < Missing(renders, names)
  {
    hide Holds, Items, Universe, Reached;
    var i :| Holds(grown, i) && !Holds(names[m], i);
    ReachedKnown(renders, m, i);
    assert (m, i) in Missing(renders, names) && (m, i) !in Missing(renders, names[m := grown]);
  }

  /** Once nothing is pending, all that include paths bring is held. */
  lemma {:induction false} AllHeld(renders: Renders, names: map<Node, Joined>, reached: Found, t: Node, path: seq<nat>,
      i: Item)
    requires names.Keys <= renders.Keys && t in names && FixedBut(renders, names, reached, [])
      && AllExact(renders, reached)
    requires forall m :: m in names ==> Supplied(renders, names.Keys, reached, m)
    requires Brings(renders, t, path, i)
    ensures Holds(names[t], i)
    decreases |path|
  {
    hide Holds, Carries, Listed, Reached;
    assert Fixed(renders, names, reached, t);
    assert Step(renders, names, reached, t, i) by {
      if path != [] {
        var e := renders[t].references[path[0]];
        var j :| Brings(renders, e.0, path[1..], j) && Carries(e.1, j, i);
        if e.0 in names {
          AllHeld(renders, names, reached, e.0, path[1..], j);
        } else {
          Brought(renders, e.0, path[1..], j);
          assert Exact(renders, e.0, reached[e.0]);
        }
        assert Known(names, reached, e.0, j);
        assert Comes(renders, names, reached, t, path[0], i);
      }
    }
  }

  lemma Brought(renders: Renders, t: Node, path: seq<nat>, i: Item)
    requires Brings(renders, t, path, i)
    ensures Reached(renders, t, i)
  {
  }

  // ---- the computation for one cycle ----

  /** What a template of a cycle gathers from what its references hold now. */
  method Recompute(renders: Renders, names: map<Node, Joined>, reached: Found, member: Node) returns (grown: Joined)
    requires member in names && member in renders && Supplied(renders, names.Keys, reached, member)
    ensures Recomputed(renders, names, reached, member, grown)
  {
    hide Holds, Listed, Carries;
    NothingHeld();
    grown := Join(renders[member].applied, map[]);
    for k := 0 to |renders[member].references|
      invariant forall i {:trigger Holds(grown, i)} :: Holds(grown, i) <==>
        Gathers(renders, names, reached, member, k, i)
    {
      ghost var was := grown;
      var (below, reference) := renders[member].references[k];
      var facts;
      if below in names {
        var sites := SitesOf(names[below].Keys);
        facts := FactsAt(names[below], sites);
        AllSites(names[below], sites, facts);
      } else {
        facts := reached[below];
      }
      var mapped := Mapped(reference, facts);
      grown := Join(mapped, grown);
      forall i ensures Holds(grown, i) <==> Gathers(renders, names, reached, member, k + 1, i) {
        MappedListed(reference, facts, i);
        GathersMore(renders, names, reached, member, k, i);
        CarriedComes(renders, names, reached, member, k, facts, i);
      }
    }
  }

  lemma NothingHeld()
    ensures forall i {:trigger Holds(map[], i)} :: !Holds(map[], i)
  {
  }

  lemma AllSites(m: Joined, sites: seq<Site>, facts: seq<Fact>)
    requires forall s :: s in sites <==> s in m
    requires |facts| == |sites| && forall k :: 0 <= k < |sites| ==>
      facts[k] == Fact(sites[k], m[sites[k]].0, m[sites[k]].1)
    ensures forall i {:trigger Listed(facts, i)} {:trigger Holds(m, i)} :: Listed(facts, i) <==> Holds(m, i)
  {
    forall i ensures Listed(facts, i) <==> Holds(m, i) {
      ListedAt(m, sites, facts, i);
    }
  }

  lemma CarriedComes(renders: Renders, names: map<Node, Joined>, reached: Found, t: Node, k: nat, facts: seq<Fact>,
      i: Item)
    requires t in renders && k < |renders[t].references|
    requires forall j {:trigger Listed(facts, j)} :: Listed(facts, j) <==>
      Known(names, reached, renders[t].references[k].0, j)
    ensures Comes(renders, names, reached, t, k, i) <==>
      exists j :: Listed(facts, j) && Carries(renders[t].references[k].1, j, i)
  {
    hide Known, Listed, Carries;
    if Comes(renders, names, reached, t, k, i) {
      var j :| Known(names, reached, renders[t].references[k].0, j) && Carries(renders[t].references[k].1, j, i);
      assert Listed(facts, j);
    }
    if j :| Listed(facts, j) && Carries(renders[t].references[k].1, j, i) {
      assert Known(names, reached, renders[t].references[k].0, j);
    }
  }

  function Members(component: seq<Node>): (s: set<Node>) {
    set m | m in component
  }

  /** The members of a component that include each of them. */
  ghost predicate ReadersOk(renders: Renders, component: seq<Node>, readers: map<Node, seq<Node>>, n: nat)
    requires n <= |component| && forall m :: m in component ==> m in renders
  {
    && (forall m :: m in component ==> m in readers)
    && (forall m, r :: m in readers && r in readers[m] ==> r in component)
    && (forall m, k {:trigger IncludesIt(renders, component[k], m)} ::
          m in component && 0 <= k < n && IncludesIt(renders, component[k], m) ==> component[k] in readers[m])
  }

  method ReadersOf(renders: Renders, component: seq<Node>) returns (readers: map<Node, seq<Node>>)
    requires forall m :: m in component ==> m in renders
    ensures ReadersOk(renders, component, readers, |component|)
  {
    readers := map m | m in component :: [];
    for at := 0 to |component|
      invariant ReadersOk(renders, component, readers, at)
    {
      var member := component[at];
      ghost var was := readers;
      for k := 0 to |renders[member].references|
        invariant ReadersOk(renders, component, readers, at)
        invariant forall j :: 0 <= j < k && renders[member].references[j].0 in component ==>
          member in readers[renders[member].references[j].0]
      {
        var below := renders[member].references[k].0;
        if below in component {
          readers := readers[below := readers[below] + [member]];
        }
      }
    }
  }

  ghost predicate Queue(pending: seq<Node>, queued: set<Node>) {
    && (forall m {:trigger m in pending} {:trigger m in queued} :: m in queued <==> m in pending)
    && (forall i, j :: 0 <= i < j < |pending| ==> pending[i] != pending[j])
  }

  method Requeue(pending0: seq<Node>, queued0: set<Node>, readers: seq<Node>)
      returns (pending: seq<Node>, queued: set<Node>)
    requires Queue(pending0, queued0)
    ensures Queue(pending, queued)
    ensures forall m {:trigger m in pending} :: m in pending <==> m in pending0 || m in readers
  {
    pending, queued := pending0, queued0;
    for k := 0 to |readers|
      invariant Queue(pending, queued)
      invariant forall m {:trigger m in pending} :: m in pending <==> m in pending0 || m in readers[..k]
    {
      var reader := readers[k];
      assert readers[..k + 1] == readers[..k] + [reader];
      if reader !in queued {
        pending, queued := pending + [reader], queued + {reader};
      }
    }
    assert readers[..|readers|] == readers;
  }

  lemma Taken(pending: seq<Node>, queued: set<Node>)
    requires Queue(pending, queued) && pending != []
    ensures Queue(pending[1..], queued - {pending[0]})
    ensures forall m {:trigger m in pending} {:trigger m in pending[1..]} :: m in pending <==>
      m == pending[0] || m in pending[1..]
  {
    assert pending == [pending[0]] + pending[1..];
    forall k | 0 <= k < |pending[1..]| ensures pending[1..][k] != pending[0] {
      assert pending[1..][k] == pending[k + 1];
    }
  }

  /** What holds of the names of a component while they grow. */
  ghost predicate Growing(renders: Renders, names: map<Node, Joined>, sizes: map<Node, nat>, reached: Found,
      pending: seq<Node>) {
    && names.Keys <= renders.Keys && sizes.Keys == names.Keys
    && NameReached(renders, names) && AllBacked(renders, names, reached) && FixedBut(renders, names, reached, pending)
    && forall m :: m in names ==> sizes[m] == |Items(names[m])|
  }

  lemma StillGrowing(renders: Renders, names: map<Node, Joined>, sizes: map<Node, nat>, reached: Found, m: Node,
      pending: seq<Node>, rest: seq<Node>, grown: Joined)
    requires Growing(renders, names, sizes, reached, pending) && m in names
    requires forall x :: x in pending <==> x == m || x in rest
    requires Recomputed(renders, names, reached, m, grown) && |Items(grown)| <= sizes[m]
    ensures Growing(renders, names, sizes, reached, rest)
  {
    hide NameReached, Fixed, Recomputed;
    assert Backed(renders, names, reached, m);
    SameSize(renders, names, reached, m, grown);
  }

  lemma MoreGrowing(renders: Renders, names: map<Node, Joined>, sizes: map<Node, nat>, reached: Found, m: Node,
      pending: seq<Node>, rest: seq<Node>, pending': seq<Node>, grown: Joined)
    requires Growing(renders, names, sizes, reached, pending) && m in names && AllExact(renders, reached)
    requires forall x :: x in pending <==> x == m || x in rest
    requires forall x :: x in names && (x in rest || IncludesIt(renders, x, m)) ==> x in pending'
    requires Recomputed(renders, names, reached, m, grown) && |Items(grown)| > sizes[m]
    ensures Growing(renders, names[m := grown], sizes[m := |Items(grown)|], reached, pending')
    ensures Missing(renders, names[m := grown]) < Missing(renders, names)
  {
    hide NameReached, Fixed, Recomputed, Holds, Items, IncludesIt, AllBacked, AllExact;
    GrownBacked(renders, names, reached, m, grown);
    GrownReached(renders, names, reached, m, grown);
    GrownFixed(renders, names, reached, m, grown, rest, pending');
    BackedOne(renders, names, reached, m);
    SameSize(renders, names, reached, m, grown);
    ReachedOf(renders, names[m := grown], m);
    MissingLess(renders, names, m, grown);
  }

  lemma BackedOne(renders: Renders, names: map<Node, Joined>, reached: Found, m: Node)
    requires names.Keys <= renders.Keys && m in names && AllBacked(renders, names, reached)
    ensures Backed(renders, names, reached, m)
  {
  }

  lemma ReachedOf(renders: Renders, names: map<Node, Joined>, m: Node)
    requires NameReached(renders, names) && m in names
    ensures forall i {:trigger Holds(names[m], i)} :: Holds(names[m], i) ==> Reached(renders, m, i)
  {
  }

  lemma StartGrowing(renders: Renders, component: seq<Node>, reached: Found)
    requires forall m :: m in component ==> m in renders
    ensures Growing(renders, map m | m in component :: map[], map m | m in component :: 0, reached, component)
  {
    NothingHeld();
    assert Items(map[]) == {};
  }

  /** The names joined at each application, for the templates of one component. */
  method SettleNames(renders: Renders, reached: Found, component: seq<Node>) returns (names: map<Node, Joined>)
    requires AllExact(renders, reached)
    requires forall m :: m in component ==> m in renders
    requires forall m :: m in component ==> Supplied(renders, Members(component), reached, m)
    requires forall i, j :: 0 <= i < j < |component| ==> component[i] != component[j]
    ensures names.Keys == Members(component)
    ensures forall m, i {:trigger Holds(names[m], i)} :: m in names ==> (Holds(names[m], i) <==> Reached(renders, m, i))
  {
    hide Growing, Recomputed, Holds, Reached, Queue, ReadersOk, Supplied, AllExact, Items, Missing, IncludesIt;
    var readers := ReadersOf(renders, component);
    names := map m | m in component :: map[];
    var sizes: map<Node, nat> := map m | m in component :: 0;
    var pending, queued := component, Members(component);
    StartGrowing(renders, component, reached);
    assert Queue(pending, queued) by {
      QueueStart(component);
    }
    while pending != []
      invariant Growing(renders, names, sizes, reached, pending) && Queue(pending, queued)
      invariant names.Keys == Members(component) == sizes.Keys
      invariant forall m :: m in pending ==> m in component
      decreases Missing(renders, names), |pending|
    {
      Taken(pending, queued);
      ghost var was := pending;
      var member := pending[0];
      pending, queued := pending[1..], queued - {member};
      assert Supplied(renders, names.Keys, reached, member);
      var grown := Recompute(renders, names, reached, member);
      var size := Size(grown);
      if size > sizes[member] {
        ReadersHave(renders, component, readers, member);
        ghost var rest := pending;
        pending, queued := Requeue(pending, queued, readers[member]);
        MoreGrowing(renders, names, sizes, reached, member, was, rest, pending, grown);
        names, sizes := names[member := grown], sizes[member := size];
      } else {
        StillGrowing(renders, names, sizes, reached, member, was, pending, grown);
      }
    }
    Settles(renders, names, sizes, reached, component);
  }

  lemma QueueStart(component: seq<Node>)
    requires forall i, j :: 0 <= i < j < |component| ==> component[i] != component[j]
    ensures Queue(component, Members(component))
  {
  }

  lemma ReadersHave(renders: Renders, component: seq<Node>, readers: map<Node, seq<Node>>, m: Node)
    requires (forall x :: x in component ==> x in renders) && ReadersOk(renders, component, readers, |component|)
      && m in component
    ensures m in readers && forall x :: x in readers[m] ==> x in component
    ensures forall x :: x in component && IncludesIt(renders, x, m) ==> x in readers[m]
  {
    forall x | x in component && IncludesIt(renders, x, m) ensures x in readers[m] {
      var k :| 0 <= k < |component| && component[k] == x;
    }
  }

  lemma Settles(renders: Renders, names: map<Node, Joined>, sizes: map<Node, nat>, reached: Found, component: seq<Node>)
    requires Growing(renders, names, sizes, reached, []) && AllExact(renders, reached)
    requires names.Keys == Members(component)
    requires forall m :: m in component ==> Supplied(renders, Members(component), reached, m)
    ensures forall m, i {:trigger Holds(names[m], i)} :: m in names ==> (Holds(names[m], i) <==> Reached(renders, m, i))
  {
    hide Holds, Items, Supplied, Reached;
    forall m, i | m in names && Reached(renders, m, i) ensures Holds(names[m], i) {
      var path := PathOf(renders, m, i);
      AllHeld(renders, names, reached, m, path, i);
    }
  }

  lemma PathOf(renders: Renders, t: Node, i: Item) returns (path: seq<nat>)
    requires Reached(renders, t, i)
    ensures Brings(renders, t, path, i)
  {
    path :| Brings(renders, t, path, i);
  }

  // ---- every template ----

  /** An include path leads from the template back to it. */
  ghost predicate InCycle(renders: Renders, t: Node) {
    exists b :: Edge(Includes(renders), t, b) && Reaches(Includes(renders), b, t)
  }

  /** What a template outside any cycle reaches: first occurrences of what it applies, then of what
      each reference reaches, in turn. */
  ghost predicate ListsInTurn(renders: Renders, reached: Found, t: Node)
    requires t in renders
  {
    && Supplied(renders, {}, reached, t) && t in reached
    && reached[t] == Once(InTurn(renders, reached, t, |renders[t].references|))
  }

  function SitesIn(facts: seq<Fact>): (sites: seq<Site>)
    ensures |sites| == |facts| && forall k :: 0 <= k < |facts| ==> sites[k] == facts[k].site
  {
    seq(|facts|, k requires 0 <= k < |facts| => facts[k].site)
  }

  /** What a template in a cycle reaches: one fact for each application, first for those it makes, in
      turn, then for the others in canonical order. */
  ghost predicate ListsOnce(renders: Renders, canonical: Fact -> int, facts: seq<Fact>, t: Node)
    requires t in renders
  {
    && Once(SitesIn(renders[t].applied)) <= SitesIn(facts)
    && SortedBy(facts[|Once(SitesIn(renders[t].applied))|..], canonical)
    && forall j, k :: 0 <= j < k < |facts| ==> facts[j].site != facts[k].site
  }

  ghost predicate CycleFacts(renders: Renders, canonical: Fact -> int, t: Node, facts: seq<Fact>) {
    t in renders && Exact(renders, t, facts) && ListsOnce(renders, canonical, facts, t)
  }

  ghost predicate SettledAt(renders: Renders, canonical: Fact -> int, reached: Found, t: Node) {
    && t in renders && t in reached && Exact(renders, t, reached[t])
    && (if InCycle(renders, t) then ListsOnce(renders, canonical, reached[t], t) else ListsInTurn(renders, reached, t))
  }

  /** The facts of a template in a cycle: what it applies first. */
  method FactsOf(renders: Renders, canonical: Fact -> int, t: Node, names: Joined) returns (facts: seq<Fact>)
    requires t in renders && forall i {:trigger Holds(names, i)} :: Holds(names, i) <==> Reached(renders, t, i)
    ensures CycleFacts(renders, canonical, t, facts)
  {
    hide Exact, Reached, Once, SortedBy, Rearranges;
    var own := Once(SitesIn(renders[t].applied));
    OwnHeld(renders, t, names, own);
    var applied := FactsAt(names, own);
    var others := SitesOf(set s | s in names && s !in own);
    var rest := FactsAt(names, others);
    var sorted, from := SortBy(rest, canonical);
    StillAt(names, others, rest, sorted, from);
    facts := applied + sorted;
    OwnThenOthers(renders, canonical, t, names, own, applied, sorted);
  }

  lemma OwnThenOthers(renders: Renders, canonical: Fact -> int, t: Node, names: Joined, own: seq<Site>,
      applied: seq<Fact>, sorted: seq<Fact>)
    requires t in renders && forall i {:trigger Holds(names, i)} :: Holds(names, i) <==> Reached(renders, t, i)
    requires own == Once(SitesIn(renders[t].applied)) && |applied| == |own| && SortedBy(sorted, canonical)
    requires forall s :: s in names <==> s in own || s in SitesIn(sorted)
    requires forall k :: 0 <= k < |own| ==> applied[k] == Fact(own[k], names[own[k]].0, names[own[k]].1)
    requires forall k :: 0 <= k < |sorted| ==>
      sorted[k].site in names && sorted[k] == Fact(sorted[k].site, names[sorted[k].site].0, names[sorted[k].site].1)
    requires forall j, k :: 0 <= j < k < |sorted| ==> SitesIn(sorted)[j] != SitesIn(sorted)[k]
    requires forall s :: s in SitesIn(sorted) ==> s !in own
    ensures CycleFacts(renders, canonical, t, applied + sorted)
  {
    hide Exact, Reached, SortedBy, Once, SitesIn, Holds;
    var facts := applied + sorted;
    SitesJoin(applied, sorted, own);
    assert facts[|own|..] == sorted;
    BothOnce(own, SitesIn(sorted));
    ExactOnce(renders, t, names, own + SitesIn(sorted), facts);
  }

  lemma SitesJoin(applied: seq<Fact>, sorted: seq<Fact>, own: seq<Site>)
    requires |applied| == |own| && forall k :: 0 <= k < |own| ==> applied[k].site == own[k]
    ensures SitesIn(applied + sorted) == own + SitesIn(sorted)
  {
  }

  /** Sorted, the facts are still one for each of the sites. */
  lemma StillAt(names: Joined, sites: seq<Site>, facts: seq<Fact>, sorted: seq<Fact>, from: seq<nat>)
    requires (forall s :: s in sites ==> s in names) && |facts| == |sites| && Rearranges(facts, sorted, from)
    requires forall k :: 0 <= k < |sites| ==> facts[k] == Fact(sites[k], names[sites[k]].0, names[sites[k]].1)
    requires forall j, k :: 0 <= j < k < |sites| ==> sites[j] != sites[k]
    ensures forall s :: s in SitesIn(sorted) <==> s in sites
    ensures forall k :: 0 <= k < |sorted| ==>
      sorted[k].site in names && sorted[k] == Fact(sorted[k].site, names[sorted[k].site].0, names[sorted[k].site].1)
    ensures forall j, k :: 0 <= j < k < |sorted| ==> SitesIn(sorted)[j] != SitesIn(sorted)[k]
  {
    forall s | s in sites ensures s in SitesIn(sorted) {
      var k :| 0 <= k < |sites| && sites[k] == s;
      assert facts[k] in facts;
      SameElements(facts, sorted, from, facts[k]);
      var j :| 0 <= j < |sorted| && sorted[j] == facts[k];
      assert SitesIn(sorted)[j] == s;
    }
    forall j, k | 0 <= j < k < |sorted| ensures SitesIn(sorted)[j] != SitesIn(sorted)[k] {
      assert from[j] != from[k];
      assert sorted[j].site == sites[from[j]] && sorted[k].site == sites[from[k]];
    }
  }

  lemma BothOnce(a: seq<Site>, b: seq<Site>)
    requires (forall i, j :: 0 <= i < j < |a| ==> a[i] != a[j]) && (forall i, j :: 0 <= i < j < |b| ==> b[i] != b[j])
    requires forall x :: x in b ==> x !in a
    ensures forall i, j :: 0 <= i < j < |a + b| ==> (a + b)[i] != (a + b)[j]
  {
    forall i, j | 0 <= i < |a| && 0 <= j < |b| ensures a[i] != b[j] {
      assert b[j] in b && a[i] in a;
    }
    forall i, j | 0 <= i < j < |a + b| ensures (a + b)[i] != (a + b)[j] {
      if i < |a| <= j {
        assert (a + b)[i] == a[i] && (a + b)[j] == b[j - |a|];
      }
    }
  }

  lemma OwnHeld(renders: Renders, t: Node, names: Joined, own: seq<Site>)
    requires t in renders && forall i {:trigger Holds(names, i)} :: Holds(names, i) <==> Reached(renders, t, i)
    requires own == Once(SitesIn(renders[t].applied))
    ensures forall s :: s in own ==> s in names
  {
    forall s | s in own ensures s in names {
      var k :| 0 <= k < |renders[t].applied| && renders[t].applied[k].site == s;
      assert Says(renders[t].applied[k], Applied(s));
      ReachedHere(renders, t, Applied(s));
      assert Holds(names, Applied(s));
    }
  }

  lemma ExactOnce(renders: Renders, t: Node, names: Joined, sites: seq<Site>, facts: seq<Fact>)
    requires forall i {:trigger Holds(names, i)} :: Holds(names, i) <==> Reached(renders, t, i)
    requires (forall s :: s in sites <==> s in names) && |facts| == |sites| && forall k :: 0 <= k < |sites| ==>
      facts[k] == Fact(sites[k], names[sites[k]].0, names[sites[k]].1)
    ensures Exact(renders, t, facts)
  {
    hide Reached;
    forall i ensures Listed(facts, i) <==> Reached(renders, t, i) {
      ListedAt(names, sites, facts, i);
      assert Holds(names, i) <==> Reached(renders, t, i);
    }
  }

  /** A component of one template that does not include itself is outside any cycle; the templates
      of any other component are in one. */
  lemma CycleOf(renders: Renders, c: set<Node>, t: Node)
    requires IsComponent(Includes(renders), c) && t in c
    ensures InCycle(renders, t) <==> c != {t} || IncludesIt(renders, t, t)
  {
    var succ := Includes(renders);
    if InCycle(renders, t) && c == {t} {
      var b :| Edge(succ, t, b) && Reaches(succ, b, t);
      ReachesSelf(succ, t);
      ReachesEdge(succ, t, t, b);
      assert SameComponent(succ, t, b);
      IncludedEdge(renders, t, b);
    }
    if IncludesIt(renders, t, t) {
      IncludedEdge(renders, t, t);
      ReachesSelf(succ, t);
    }
    if c != {t} {
      var x :| x in c && x != t;
      assert SameComponent(succ, t, x);
      var p :| WalkTo(succ, p, t, x);
      assert Edge(succ, p[0], p[0 + 1]) && (|p| > 2 ==> Edge(succ, p[1], p[1 + 1]));
      var q := FromSecond(succ, p);
      assert Reaches(succ, p[1], x);
      ReachesOn(succ, p[1], x, t);
    }
  }

  lemma FromSecond(succ: Table, p: seq<Node>) returns (q: seq<Node>)
    requires IsWalk(succ, p) && |p| > 1 && p[1] in succ
    ensures WalkTo(succ, q, p[1], p[|p| - 1])
  {
    q := p[1..];
    forall k | 0 <= k < |q| - 1 ensures Edge(succ, q[k], q[k + 1]) {
      assert Edge(succ, p[k + 1], p[k + 1 + 1]);
    }
  }

  lemma IncludedEdge(renders: Renders, t: Node, b: Node)
    requires t in renders
    ensures IncludesIt(renders, t, b) <==> Edge(Includes(renders), t, b)
  {
    var targets := Targets(renders[t].references);
    if Edge(Includes(renders), t, b) {
      var k :| 0 <= k < |targets| && targets[k] == b;
      assert renders[t].references[k].0 == b;
    }
    if IncludesIt(renders, t, b) {
      var k :| 0 <= k < |renders[t].references| && renders[t].references[k].0 == b;
      assert targets[k] == b;
    }
  }

  /** The templates of the next component include only what is settled or each other. */
  lemma SuppliedNext(renders: Renders, components: seq<seq<Node>>, k: nat, reached: Found, t: Node)
    requires Ordered(Includes(renders), AsSets(components)) && k < |components| && t in components[k]
    requires reached.Keys == Popped(AsSets(components)[..k])
    ensures t in renders && Supplied(renders, Members(components[k]), reached, t)
      && IsComponent(Includes(renders), Members(components[k]))
  {
    var succ, sets := Includes(renders), AsSets(components);
    assert sets[k] == Members(components[k]);
    assert Descends(succ, sets, k) && t in sets[k];
    assert t in succ;
    assert sets[..k + 1] == sets[..k] + [sets[k]];
    PoppedMore(sets[..k], sets[k]);
    hide Popped, AsSets;
    forall j | 0 <= j < |renders[t].references| ensures renders[t].references[j].0 in Members(components[k])
      || renders[t].references[j].0 in reached {
      IncludedEdge(renders, t, renders[t].references[j].0);
    }
  }

  /** Does a template include itself? */
  method IncludesItself(renders: Renders, t: Node) returns (itself: bool)
    requires t in renders
    ensures itself <==> IncludesIt(renders, t, t)
  {
    itself := false;
    for k := 0 to |renders[t].references|
      invariant itself <==> exists j :: 0 <= j < k && renders[t].references[j].0 == t
    {
      if renders[t].references[k].0 == t {
        itself := true;
      }
    }
  }

  ghost predicate AllSettled(renders: Renders, canonical: Fact -> int, reached: Found) {
    forall t {:trigger SettledAt(renders, canonical, reached, t)} :: t in reached ==>
      SettledAt(renders, canonical, reached, t)
  }

  /** What is settled stays so as more is. */
  lemma SettledStays(renders: Renders, canonical: Fact -> int, reached: Found, more: Found)
    requires AllSettled(renders, canonical, reached) && forall t :: t in reached ==> t in more && more[t] == reached[t]
    ensures forall t {:trigger SettledAt(renders, canonical, more, t)} :: t in reached ==>
      SettledAt(renders, canonical, more, t)
  {
    hide Exact, InCycle, ListsOnce, Once;
    forall t | t in reached ensures SettledAt(renders, canonical, more, t) {
      assert SettledAt(renders, canonical, reached, t);
      if !InCycle(renders, t) {
        SameInTurn(renders, reached, more, t, |renders[t].references|);
      }
    }
  }

  lemma {:induction false} SameInTurn(renders: Renders, reached: Found, more: Found, t: Node, n: nat)
    requires t in renders && n <= |renders[t].references|
    requires forall k :: 0 <= k < |renders[t].references| ==> renders[t].references[k].0 in reached
    requires forall x :: x in reached ==> x in more && more[x] == reached[x]
    ensures InTurn(renders, more, t, n) == InTurn(renders, reached, t, n)
  {
    if n > 0 {
      SameInTurn(renders, reached, more, t, n - 1);
    }
  }

  lemma SettledIsExact(renders: Renders, canonical: Fact -> int, reached: Found)
    requires AllSettled(renders, canonical, reached)
    ensures AllExact(renders, reached)
  {
    hide Exact, InCycle, ListsOnce, ListsInTurn;
    forall t | t in reached ensures Exact(renders, t, reached[t]) {
      assert SettledAt(renders, canonical, reached, t);
    }
  }

  lemma SettledOne(renders: Renders, canonical: Fact -> int, reached: Found, t: Node, found: seq<Fact>)
    requires AllSettled(renders, canonical, reached) && t in renders && t !in reached && !InCycle(renders, t)
    requires Supplied(renders, {}, reached, t) && Exact(renders, t, found)
    requires found == Once(InTurn(renders, reached, t, |renders[t].references|))
    ensures AllSettled(renders, canonical, reached[t := found])
  {
    hide Exact, InCycle, ListsOnce, Once;
    var more := reached[t := found];
    SettledStays(renders, canonical, reached, more);
    SameInTurn(renders, reached, more, t, |renders[t].references|);
    assert ListsInTurn(renders, more, t);
    assert SettledAt(renders, canonical, more, t);
  }

  lemma SettledAll(renders: Renders, canonical: Fact -> int, reached: Found, more: Found, members: set<Node>)
    requires AllSettled(renders, canonical, reached) && more.Keys == reached.Keys + members && members <= renders.Keys
    requires forall t :: t in reached ==> more[t] == reached[t]
    requires forall m :: m in members ==> InCycle(renders, m) && CycleFacts(renders, canonical, m, more[m])
    ensures AllSettled(renders, canonical, more)
  {
    hide Exact, InCycle, ListsOnce, ListsInTurn;
    SettledStays(renders, canonical, reached, more);
    forall m | m in members ensures SettledAt(renders, canonical, more, m) {
    }
  }

  /** What each template of one component reaches, those it includes outside it being settled. */
  method SettleComponent(renders: Renders, canonical: Fact -> int, reached0: Found, component: seq<Node>)
      returns (reached: Found)
    requires AllSettled(renders, canonical, reached0) && component != []
    requires forall m :: m in component ==>
      m in renders && m !in reached0 && Supplied(renders, Members(component), reached0, m)
    requires IsComponent(Includes(renders), Members(component))
    requires forall i, j :: 0 <= i < j < |component| ==> component[i] != component[j]
    ensures AllSettled(renders, canonical, reached) && reached.Keys == reached0.Keys + Members(component)
  {
    hide IsComponent, Exact, InCycle, ListsOnce, AllExact, AllSettled, Reached, Includes, IncludesIt, Once, InTurn;
    SettledIsExact(renders, canonical, reached0);
    var single := component[0];
    var itself := IncludesItself(renders, single);
    CycleOf(renders, Members(component), single);
    if |component| == 1 && !itself {
      assert component == [single] && Members(component) == {single};
      assert Supplied(renders, {}, reached0, single) by {
        NotItself(renders, reached0, single);
      }
      var found := Settle(renders, reached0, single);
      reached := reached0[single := found];
      SettledOne(renders, canonical, reached0, single, found);
    } else {
      reached := SettleCycle(renders, canonical, reached0, component);
      forall m | m in component ensures InCycle(renders, m) {
        CycleOf(renders, Members(component), m);
        if |component| > 1 {
          assert component[0] != component[1] && component[0] in Members(component)
            && component[1] in Members(component);
        }
      }
      SettledAll(renders, canonical, reached0, reached, Members(component));
    }
  }

  /** What each template of a component that is a cycle reaches. */
  method SettleCycle(renders: Renders, canonical: Fact -> int, reached0: Found, component: seq<Node>)
      returns (reached: Found)
    requires AllExact(renders, reached0)
    requires forall m :: m in component ==>
      m in renders && m !in reached0 && Supplied(renders, Members(component), reached0, m)
    requires forall i, j :: 0 <= i < j < |component| ==> component[i] != component[j]
    ensures reached.Keys == reached0.Keys + Members(component) && forall t :: t in reached0 ==>
      reached[t] == reached0[t]
    ensures forall m :: m in component ==> CycleFacts(renders, canonical, m, reached[m])
  {
    hide Exact, ListsOnce, AllExact, Reached, Holds, Supplied, CycleFacts, Members;
    var names := SettleNames(renders, reached0, component);
    reached := reached0;
    NoMembers(component);
    for k := 0 to |component|
      invariant reached.Keys == reached0.Keys + Members(component[..k]) && forall t :: t in reached0 ==>
        reached[t] == reached0[t]
      invariant forall m {:trigger CycleFacts(renders, canonical, m, reached[m])} :: m in Members(component[..k]) ==>
        CycleFacts(renders, canonical, m, reached[m])
    {
      MoreMembers(component, k);
      var facts := FactsOf(renders, canonical, component[k], names[component[k]]);
      reached := reached[component[k] := facts];
    }
    assert component[..|component|] == component;
    InMembers(component);
  }

  lemma NoMembers(component: seq<Node>)
    ensures Members(component[..0]) == {}
  {
  }

  lemma MoreMembers(component: seq<Node>, k: nat)
    requires k < |component| && forall i, j :: 0 <= i < j < |component| ==> component[i] != component[j]
    ensures Members(component[..k + 1]) == Members(component[..k]) + {component[k]}
    ensures component[k] in Members(component) && component[k] !in Members(component[..k])
  {
    assert component[..k + 1] == component[..k] + [component[k]];
  }

  lemma InMembers(component: seq<Node>)
    ensures forall m :: m in component <==> m in Members(component)
  {
  }

  lemma NextReady(renders: Renders, components: seq<seq<Node>>, k: nat, reached: Found)
    requires Ordered(Includes(renders), AsSets(components)) && EachOnce(components) && k < |components|
    requires reached.Keys == Popped(AsSets(components)[..k])
    ensures components[k] != [] && IsComponent(Includes(renders), Members(components[k]))
    ensures forall m :: m in components[k] ==>
      m in renders && m !in reached && Supplied(renders, Members(components[k]), reached, m)
    ensures forall i, j :: 0 <= i < j < |components[k]| ==> components[k][i] != components[k][j]
    ensures Popped(AsSets(components)[..k + 1]) == reached.Keys + Members(components[k])
  {
    var sets := AsSets(components);
    assert sets[k] == Members(components[k]);
    assert Descends(Includes(renders), sets, k);
    assert sets[..k + 1] == sets[..k] + [sets[k]];
    PoppedMore(sets[..k], sets[k]);
    forall m | m in reached ensures m !in sets[k] {
      var j :| 0 <= j < k && m in sets[..k][j];
      assert m in sets[j];
    }
    forall m | m in components[k] ensures m in renders && m !in reached
      && Supplied(renders, Members(components[k]), reached, m) {
      SuppliedNext(renders, components, k, reached, m);
    }
  }

  lemma NotItself(renders: Renders, reached: Found, t: Node)
    requires t in renders && Supplied(renders, {t}, reached, t) && !IncludesIt(renders, t, t)
    ensures Supplied(renders, {}, reached, t)
  {
  }

  /** What the render of every template reaches. */
  method Settled(templates: seq<Node>, renders: Renders, canonical: Fact -> int) returns (reached: Found)
    requires Closed(Includes(renders)) && forall t :: t in templates <==> t in renders
    ensures forall t {:trigger SettledAt(renders, canonical, reached, t)} :: t in renders ==>
      SettledAt(renders, canonical, reached, t)
  {
    hide Ordered, IsComponent, SettledAt, Supplied, EachOnce;
    var components := ComponentsOf(templates, Includes(renders));
    ghost var sets := AsSets(components);
    reached := map[];
    assert sets[..0] == [];
    for k := 0 to |components|
      invariant AllSettled(renders, canonical, reached) && reached.Keys == Popped(sets[..k])
    {
      NextReady(renders, components, k, reached);
      reached := SettleComponent(renders, canonical, reached, components[k]);
    }
    assert sets[..|components|] == sets;
  }
}
