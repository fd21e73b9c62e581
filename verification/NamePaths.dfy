/** What the names carried through includes mean: a filter's value in an included template is the
    value of a name that the settled facts of the including template list. */
module NamePaths {
  import opened Graphs
  import opened TemplateFacts
  import opened Settling

  /** A variable followed by the attributes read from it. */
  ghost predicate Proper(path: seq<string>) {
    path != [] && forall k :: 0 <= k < |path| ==> path[k] != ""
  }

  /** A path is known by its first two parts. */
  function Cut(path: seq<string>): Name
    requires path != []
  {
    Name(path[0], if |path| > 1 then path[1] else "")
  }

  /** What a variable of the referenced template is bound to. */
  ghost predicate IsBound(r: Reference, x: string, b: Name) {
    if x in r.bindings then b in r.bindings[x]
    else if r.only then false
    else if x in r.scope then b in r.scope[x]
    else b == Name(x, "")
  }

  /** Where a variable stands for a path, what is read from it is read from the end of that path. */
  lemma ThroughPath(bound: set<Name>, path: seq<string>, rest: seq<string>, x: string)
    requires Proper(path) && Proper([x] + rest) && Cut(path) in bound
    ensures Proper(path + rest) && Cut(path + rest) in Through(bound, Cut([x] + rest))
  {
    assert forall k :: 0 <= k < |rest| ==> rest[k] == ([x] + rest)[k + 1];
  }

  /** And nothing else is read. */
  lemma OnlyPaths(bound: set<Name>, rest: seq<string>, x: string, m: Name) returns (path: seq<string>)
    requires Proper([x] + rest) && m in Through(bound, Cut([x] + rest))
    requires forall b :: b in bound ==> b.variable != ""
    ensures Proper(path) && Cut(path) in bound && m == Cut(path + rest)
  {
    assert rest != [] ==> rest[0] == ([x] + rest)[1];
    var b :| b in bound
      && m == (if rest == [] then b else if b.attribute == "" then Name(b.variable, rest[0]) else b);
    path := if b.attribute == "" then [b.variable] else [b.variable, b.attribute];
  }

  /** A name of the referenced template reads, cut, the paths its variable is bound to followed by
      its attribute, and nothing else. */
  lemma ReadsArePaths(r: Reference, rest: seq<string>, x: string, m: Name)
    requires Proper([x] + rest) && forall b :: IsBound(r, x, b) ==> b.variable != ""
    ensures m in Reads(r, Cut([x] + rest)) <==>
      exists path :: Proper(path) && IsBound(r, x, Cut(path)) && m == Cut(path + rest)
  {
    var bound := set b | b in (if x in r.bindings then r.bindings[x] else if x in r.scope then r.scope[x]
      else {Name(x, "")}) && IsBound(r, x, b);
    if m in Reads(r, Cut([x] + rest)) {
      var path := OnlyPaths(bound, rest, x, m);
    }
    if path :| Proper(path) && IsBound(r, x, Cut(path)) && m == Cut(path + rest) {
      ThroughPath(bound, path, rest, x);
    }
  }

  /** A reference that binds nothing and hides nothing carries everything to itself alone. */
  lemma PlainCarries(r: Reference, j: Item, i: Item)
    requires r.bindings == map[] && r.scope == map[] && !r.only
    ensures Carries(r, j, i) <==> i == j
  {
  }

  // ---- values ----

  /** The variables of a template while it renders, and what an attribute of a value is. */
  type Context<V> = map<string, V>

  function Value<V>(attribute: (V, string) -> V, context: Context<V>, path: seq<string>): V
    requires path != [] && path[0] in context
  {
    if |path| == 1 then context[path[0]]
    else attribute(Value(attribute, context, path[..|path| - 1]), path[|path| - 1])
  }

  lemma {:induction false} ValueOn<V>(attribute: (V, string) -> V, outer: Context<V>, inner: Context<V>,
      path: seq<string>, rest: seq<string>, x: string)
    requires path != [] && path[0] in outer && x in inner && inner[x] == Value(attribute, outer, path)
    ensures Value(attribute, inner, [x] + rest) == Value(attribute, outer, path + rest)
  {
    if rest == [] {
      assert path + rest == path;
    } else {
      var less := rest[..|rest| - 1];
      ValueOn(attribute, outer, inner, path, less, x);
      assert ([x] + rest)[..|rest|] == [x] + less;
      assert (path + rest)[..|path| + |rest| - 1] == path + less;
    }
  }

  /** Every variable the referenced template sees has the value of a path it is bound to. */
  ghost predicate Passes<V>(attribute: (V, string) -> V, r: Reference, outer: Context<V>, inner: Context<V>) {
    forall x :: x in inner ==> x != "" && Sees(attribute, r, outer, x, inner[x])
  }

  ghost predicate Sees<V>(attribute: (V, string) -> V, r: Reference, outer: Context<V>, x: string, v: V) {
    exists path :: Proper(path) && path[0] in outer && IsBound(r, x, Cut(path)) && v == Value(attribute, outer, path)
  }

  /** Rendering `t` in `outer` renders the template at the end of an include path in `inner`. */
  ghost predicate Rendering<V(!new)>(attribute: (V, string) -> V, renders: Renders, t: Node, path: seq<nat>,
      outer: Context<V>, inner: Context<V>)
    decreases |path|
  {
    t in renders &&
    if path == [] then outer == inner
    else
      path[0] < |renders[t].references| &&
      exists middle ::
        Passes(attribute, renders[t].references[path[0]].1, outer, middle)
        && Rendering(attribute, renders, renders[t].references[path[0]].0, path[1..], middle, inner)
  }

  /** The template at the end of an include path. */
  ghost function End(renders: Renders, t: Node, path: seq<nat>): Node
    decreases |path|
  {
    if path == [] || t !in renders || path[0] >= |renders[t].references| then t
    else End(renders, renders[t].references[path[0]].0, path[1..])
  }

  /** What a path of the referenced template reads, some path of the referencing one does. */
  lemma PassedOn<V>(attribute: (V, string) -> V, r: Reference, outer: Context<V>, inner: Context<V>, q: seq<string>)
      returns (p: seq<string>)
    requires Passes(attribute, r, outer, inner) && Proper(q) && q[0] in inner
    ensures Proper(p) && p[0] in outer && Value(attribute, outer, p) == Value(attribute, inner, q)
    ensures Cut(p) in Reads(r, Cut(q))
  {
    var x, rest := q[0], q[1..];
    assert q == [x] + rest;
    assert Sees(attribute, r, outer, x, inner[x]);
    var path :| Proper(path) && path[0] in outer && IsBound(r, x, Cut(path)) && inner[x] == Value(attribute, outer, path);
    ValueOn(attribute, outer, inner, path, rest, x);
    p := path + rest;
    ThroughPath(if x in r.bindings then r.bindings[x] else if x in r.scope then r.scope[x] else {Name(x, "")},
      path, rest, x);
  }

  /** That a name reaches the value of a filter application, or its argument. */
  function Reaching(site: Site, argument: bool, name: Name): Item {
    if argument then ArgumentOf(site, name) else ValueOf(site, name)
  }

  /** An application whose value or argument a path reads at the end of an include path is brought to `t` with a
      name whose path has the same value there. */
  lemma {:induction false} BroughtByName<V(!new)>(attribute: (V, string) -> V, renders: Renders, t: Node,
      path: seq<nat>, outer: Context<V>, inner: Context<V>, site: Site, argument: bool,
      q: seq<string>) returns (p: seq<string>)
    requires Rendering(attribute, renders, t, path, outer, inner) && Proper(q) && q[0] in inner
    requires End(renders, t, path) in renders
      && Listed(renders[End(renders, t, path)].applied, Reaching(site, argument, Cut(q)))
    ensures Proper(p) && p[0] in outer && Value(attribute, outer, p) == Value(attribute, inner, q)
    ensures Brings(renders, t, path, Reaching(site, argument, Cut(p)))
    decreases |path|
  {
    if path == [] {
      p := q;
    } else {
      var (below, r) := renders[t].references[path[0]];
      var middle :| Passes(attribute, r, outer, middle)
        && Rendering(attribute, renders, below, path[1..], middle, inner);
      var m := BroughtByName(attribute, renders, below, path[1..], middle, inner, site, argument, q);
      p := PassedOn(attribute, r, outer, middle, m);
      assert Carries(r, Reaching(site, argument, Cut(m)), Reaching(site, argument, Cut(p)));
    }
  }

  /** Whatever value reaches a filter or its argument anywhere in the render of a template, the facts
      settled for the template list the application with a name that has that value. */
  lemma SettledNamesValue<V(!new)>(attribute: (V, string) -> V, renders: Renders, canonical: Fact -> int,
      reached: Found, t: Node, path: seq<nat>, outer: Context<V>, inner: Context<V>, site: Site, argument: bool,
      q: seq<string>)
    requires SettledAt(renders, canonical, reached, t)
    requires Rendering(attribute, renders, t, path, outer, inner) && Proper(q) && q[0] in inner
    requires End(renders, t, path) in renders
      && Listed(renders[End(renders, t, path)].applied, Reaching(site, argument, Cut(q)))
    ensures exists p ::
      Proper(p) && p[0] in outer && Value(attribute, outer, p) == Value(attribute, inner, q)
      && Listed(reached[t], Reaching(site, argument, Cut(p)))
  {
    var p := BroughtByName(attribute, renders, t, path, outer, inner, site, argument, q);
    assert Reached(renders, t, Reaching(site, argument, Cut(p)));
  }
}
