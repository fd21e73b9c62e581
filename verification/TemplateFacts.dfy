/** What rendering a template reaches: filter applications with the names whose values reach them,
    carried from the templates it includes through the bindings of each reference. */
module TemplateFacts {
  import opened Graphs

  /** `variable.attribute`, or `variable` alone when the attribute is empty. */
  datatype Name = Name(variable: string, attribute: string)

  /** How an include passes names on. A variable bound by the include itself takes those names; any
      other is passed from the scope, or as it is, and not at all when `only` is given. */
  datatype Reference = Reference(bindings: map<string, set<Name>>, only: bool, scope: map<string, set<Name>>)

  /** One place where a filter is applied; facts about the same place are joined. */
  datatype Site = Site(symbol: string, span: nat, template: string)

  datatype Fact = Fact(site: Site, value: set<Name>, argument: set<Name>)

  /** What a template applies rendered on its own, and the templates it includes. */
  datatype Render = Render(applied: seq<Fact>, references: seq<(Node, Reference)>)

  type Renders = map<Node, Render>

  // ---- names through references ----

  /** The names `name` stands for once its variable stands for `bound`; no name has two attributes. */
  function Through(bound: set<Name>, name: Name): set<Name> {
    if name.attribute == "" then bound
    else set b | b in bound :: if b.attribute == "" then Name(b.variable, name.attribute) else b
  }

  /** What one name of the referenced template reads. */
  function Reads(r: Reference, name: Name): set<Name> {
    if name.variable in r.bindings then Through(r.bindings[name.variable], name)
    else if r.only then {}
    else Through(if name.variable in r.scope then r.scope[name.variable] else {Name(name.variable, "")}, name)
  }

  function AllRead(r: Reference, names: set<Name>): set<Name> {
    set n, m | n in names && m in Reads(r, n) :: m
  }

  /** The names that names of the referenced template stand for. */
  method Maps(r: Reference, names: set<Name>) returns (found: set<Name>)
    ensures found == AllRead(r, names)
  {
    found := {};
    var left := names;
    while left != {}
      invariant left <= names && found == AllRead(r, names - left)
      decreases left
    {
      var name :| name in left;
      ReadMore(r, names - left, name);
      assert names - left + {name} == names - (left - {name});
      if name.variable in r.bindings {
        found := found + Through(r.bindings[name.variable], name);
      } else if !r.only {
        found := found + Through(if name.variable in r.scope then r.scope[name.variable] else {Name(name.variable, "")},
          name);
      }
      left := left - {name};
    }
    assert names - left == names;
  }

  lemma ReadMore(r: Reference, names: set<Name>, name: Name)
    ensures AllRead(r, names + {name}) == AllRead(r, names) + Reads(r, name)
  {
  }

  // ---- facts, item by item ----

  /** One thing a fact says: that the filter is applied, or that a name reaches its value or its
      argument. */
  datatype Item = Applied(site: Site) | ValueOf(site: Site, name: Name) | ArgumentOf(site: Site, name: Name)

  ghost predicate Says(f: Fact, i: Item) {
    && f.site == i.site
    && match i
       case Applied(_) => true
       case ValueOf(_, n) => n in f.value
       case ArgumentOf(_, n) => n in f.argument
  }

  /** What is listed in facts. */
  ghost predicate Listed(facts: seq<Fact>, i: Item) {
    exists f :: f in facts && Says(f, i)
  }

  /** The item `i` of the referencing template stands for `j` of the referenced one. */
  ghost predicate Carries(r: Reference, j: Item, i: Item) {
    && j.site == i.site
    && match i
       case Applied(_) => j.Applied?
       case ValueOf(_, n) => j.ValueOf? && n in Reads(r, j.name)
       case ArgumentOf(_, n) => j.ArgumentOf? && n in Reads(r, j.name)
  }

  /** The templates and references along an include path from `t`, `path` numbering the
      references, bring the item `i`. */
  ghost predicate Brings(renders: Renders, t: Node, path: seq<nat>, i: Item)
    decreases |path|
  {
    t in renders &&
    if path == [] then Listed(renders[t].applied, i)
    else
      path[0] < |renders[t].references| &&
      exists j :: Brings(renders, renders[t].references[path[0]].0, path[1..], j)
        && Carries(renders[t].references[path[0]].1, j, i)
  }

  /** Some include path, of whatever length, brings the item. */
  ghost predicate Reached(renders: Renders, t: Node, i: Item) {
    exists path :: Brings(renders, t, path, i)
  }

  lemma ReachedHere(renders: Renders, t: Node, i: Item)
    requires t in renders && Listed(renders[t].applied, i)
    ensures Reached(renders, t, i)
  {
    assert Brings(renders, t, [], i);
  }

  lemma ReachedThrough(renders: Renders, t: Node, k: nat, j: Item, i: Item)
    requires t in renders && k < |renders[t].references|
    requires Reached(renders, renders[t].references[k].0, j) && Carries(renders[t].references[k].1, j, i)
    ensures Reached(renders, t, i)
  {
    var path :| Brings(renders, renders[t].references[k].0, path, j);
    assert ([k] + path)[1..] == path;
    assert Brings(renders, t, [k] + path, i);
  }

  // ---- facts through a reference ----

  function MappedFact(r: Reference, f: Fact): Fact {
    Fact(f.site, AllRead(r, f.value), AllRead(r, f.argument))
  }

  function MappedFacts(r: Reference, facts: seq<Fact>): (mapped: seq<Fact>)
    ensures |mapped| == |facts| && forall k :: 0 <= k < |facts| ==> mapped[k] == MappedFact(r, facts[k])
  {
    if facts == [] then [] else [MappedFact(r, facts[0])] + MappedFacts(r, facts[1..])
  }

  /** Facts of the included template as facts of the one that includes it. */
  method Mapped(r: Reference, facts: seq<Fact>) returns (mapped: seq<Fact>)
    ensures mapped == MappedFacts(r, facts)
  {
    mapped := [];
    for k := 0 to |facts|
      invariant |mapped| == k && forall j :: 0 <= j < k ==> mapped[j] == MappedFact(r, facts[j])
    {
      var value := Maps(r, facts[k].value);
      var argument := Maps(r, facts[k].argument);
      mapped := mapped + [Fact(facts[k].site, value, argument)];
    }
  }

  lemma MappedSays(r: Reference, f: Fact, i: Item)
    ensures Says(MappedFact(r, f), i) <==> exists j :: Says(f, j) && Carries(r, j, i)
  {
    match i
    case Applied(s) =>
      if Says(f, i) {
        assert Carries(r, i, i);
      }
    case ValueOf(s, n) =>
      if Says(MappedFact(r, f), i) {
        var m :| m in f.value && n in Reads(r, m);
        assert Says(f, ValueOf(s, m)) && Carries(r, ValueOf(s, m), i);
      }
    case ArgumentOf(s, n) =>
      if Says(MappedFact(r, f), i) {
        var m :| m in f.argument && n in Reads(r, m);
        assert Says(f, ArgumentOf(s, m)) && Carries(r, ArgumentOf(s, m), i);
      }
  }

  lemma MappedListed(r: Reference, facts: seq<Fact>, i: Item)
    ensures Listed(MappedFacts(r, facts), i) <==> exists j :: Listed(facts, j) && Carries(r, j, i)
  {
    var mapped := MappedFacts(r, facts);
    if Listed(mapped, i) {
      var f :| f in mapped && Says(f, i);
      var k :| 0 <= k < |mapped| && mapped[k] == f;
      MappedSays(r, facts[k], i);
      var j :| Says(facts[k], j) && Carries(r, j, i);
      assert Listed(facts, j);
    }
    if j :| Listed(facts, j) && Carries(r, j, i) {
      var f :| f in facts && Says(f, j);
      var k :| 0 <= k < |facts| && facts[k] == f;
      MappedSays(r, f, i);
      assert mapped[k] in mapped;
    }
  }

  // ---- facts joined by application ----

  type Joined = map<Site, (set<Name>, set<Name>)>

  ghost predicate Holds(m: Joined, i: Item) {
    && i.site in m
    && match i
       case Applied(_) => true
       case ValueOf(s, n) => n in m[s].0
       case ArgumentOf(s, n) => n in m[s].1
  }

  /** Joins into `into` the names of each application `facts` hold. */
  method Join(facts: seq<Fact>, into: Joined) returns (joined: Joined)
    ensures forall i {:trigger Holds(joined, i)} :: Holds(joined, i) <==> Holds(into, i) || Listed(facts, i)
  {
    joined := into;
    for k := 0 to |facts|
      invariant forall i {:trigger Holds(joined, i)} :: Holds(joined, i) <==> Holds(into, i) || Listed(facts[..k], i)
    {
      var f := facts[k];
      var (values, arguments) := if f.site in joined then joined[f.site] else ({}, {});
      ghost var was := joined;
      joined := joined[f.site := (values + f.value, arguments + f.argument)];
      forall i ensures Holds(joined, i) <==> Holds(into, i) || Listed(facts[..k + 1], i) {
        assert Holds(joined, i) <==> Holds(was, i) || Says(f, i);
        ListedMore(facts[..k], f, i);
        assert facts[..k + 1] == facts[..k] + [f];
      }
    }
    assert facts[..|facts|] == facts;
  }

  lemma ListedMore(facts: seq<Fact>, f: Fact, i: Item)
    ensures Listed(facts + [f], i) <==> Listed(facts, i) || Says(f, i)
  {
    if Listed(facts, i) {
      var g :| g in facts && Says(g, i);
      assert g in facts + [f];
    }
    if Says(f, i) {
      assert f in facts + [f];
    }
  }

  /** One fact for each of `sites`. */
  method FactsAt(m: Joined, sites: seq<Site>) returns (facts: seq<Fact>)
    requires forall s :: s in sites ==> s in m
    ensures |facts| == |sites| && forall k :: 0 <= k < |sites| ==>
      facts[k] == Fact(sites[k], m[sites[k]].0, m[sites[k]].1)
  {
    facts := [];
    for k := 0 to |sites|
      invariant |facts| == k && forall j :: 0 <= j < k ==> facts[j] == Fact(sites[j], m[sites[j]].0, m[sites[j]].1)
    {
      facts := facts + [Fact(sites[k], m[sites[k]].0, m[sites[k]].1)];
    }
  }

  lemma ListedAt(m: Joined, sites: seq<Site>, facts: seq<Fact>, i: Item)
    requires forall s :: s in sites ==> s in m
    requires |facts| == |sites| && forall k :: 0 <= k < |sites| ==>
      facts[k] == Fact(sites[k], m[sites[k]].0, m[sites[k]].1)
    ensures Listed(facts, i) <==> i.site in sites && Holds(m, i)
  {
    if i.site in sites && Holds(m, i) {
      var k :| 0 <= k < |sites| && sites[k] == i.site;
      assert facts[k] in facts && Says(facts[k], i);
    }
  }

  /** The sites of a join, each once. */
  method SitesOf(sites: set<Site>) returns (listed: seq<Site>)
    ensures (forall s :: s in listed <==> s in sites) && forall j, k :: 0 <= j < k < |listed| ==> listed[j] != listed[k]
  {
    listed := [];
    var left := sites;
    while left != {}
      invariant left <= sites && forall s :: s in listed <==> s in sites && s !in left
      invariant forall j, k :: 0 <= j < k < |listed| ==> listed[j] != listed[k]
      decreases left
    {
      var s :| s in left;
      assert s !in listed;
      listed := listed + [s];
      left := left - {s};
    }
  }
}
