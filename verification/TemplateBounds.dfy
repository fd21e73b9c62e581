/** The items of a project's templates are finitely many, and their count tells growth exactly. */
module TemplateBounds {
  import opened Graphs
  import opened TemplateFacts

  // ---- counting what a join holds ----

  ghost function Items(m: Joined): (r: set<Item>)
    ensures forall i {:trigger i in r} {:trigger Holds(m, i)} :: i in r <==> Holds(m, i)
  {
    (set s | s in m :: Applied(s)) + (set s, n | s in m && n in m[s].0 :: ValueOf(s, n)) + (set s, n | s in m
      && n in m[s].1 :: ArgumentOf(s, n))
  }

  ghost function ItemsAt(s: Site, values: set<Name>, arguments: set<Name>): set<Item> {
    {Applied(s)} + (set n | n in values :: ValueOf(s, n)) + (set n | n in arguments :: ArgumentOf(s, n))
  }

  lemma {:induction false} ValuesCount(s: Site, names: set<Name>)
    ensures |set n | n in names :: ValueOf(s, n)| == |names|
  {
    if names == {} {
      assert (set n | n in names :: ValueOf(s, n)) == {};
    } else {
      var x :| x in names;
      ValuesCount(s, names - {x});
      assert (set n | n in names :: ValueOf(s, n)) == (set n | n in names - {x} :: ValueOf(s, n)) + {ValueOf(s, x)};
    }
  }

  lemma {:induction false} ArgumentsCount(s: Site, names: set<Name>)
    ensures |set n | n in names :: ArgumentOf(s, n)| == |names|
  {
    if names == {} {
      assert (set n | n in names :: ArgumentOf(s, n)) == {};
    } else {
      var x :| x in names;
      ArgumentsCount(s, names - {x});
      assert (set n | n in names :: ArgumentOf(s, n)) == (set n | n in names - {x} :: ArgumentOf(s, n))
        + {ArgumentOf(s, x)};
    }
  }

  lemma CountAt(s: Site, values: set<Name>, arguments: set<Name>)
    ensures |ItemsAt(s, values, arguments)| == 1 + |values| + |arguments|
  {
    ValuesCount(s, values);
    ArgumentsCount(s, arguments);
    Apart({Applied(s)}, set n | n in values :: ValueOf(s, n));
    Apart({Applied(s)} + (set n | n in values :: ValueOf(s, n)), set n | n in arguments :: ArgumentOf(s, n));
  }

  lemma Apart(a: set<Item>, b: set<Item>)
    requires a !! b
    ensures |a + b| == |a| + |b|
  {
  }

  lemma InItemsAt(m: Joined, s: Site)
    requires s in m
    ensures forall i {:trigger i in ItemsAt(s, m[s].0, m[s].1)} :: i in ItemsAt(s, m[s].0, m[s].1) <==>
      Holds(m, i) && i.site == s
  {
  }

  /** The count of applications and of names, which is the number of items. */
  method Size(m: Joined) returns (size: nat)
    ensures size == |Items(m)|
  {
    hide Items, ItemsAt;
    size := 0;
    var left := m.Keys;
    ghost var done: set<Item> := {};
    while left != {}
      invariant left <= m.Keys && size == |done|
      invariant forall i {:trigger i in done} {:trigger Holds(m, i)} :: i in done <==> Holds(m, i) && i.site !in left
      decreases left
    {
      var s :| s in left;
      ghost var here := ItemsAt(s, m[s].0, m[s].1);
      CountAt(s, m[s].0, m[s].1);
      InItemsAt(m, s);
      Apart(done, here);
      size := size + 1 + |m[s].0| + |m[s].1|;
      done := done + here;
      left := left - {s};
    }
    assert done == Items(m);
  }

  lemma Grows(a: set<Item>, b: set<Item>)
    requires a <= b
    ensures |a| <= |b| && (|a| == |b| <==> a == b)
  {
    Apart(a, b - a);
    assert a + (b - a) == b;
    if |a| == |b| {
      assert b - a == {};
    }
  }

  // ---- the finitely many items ----

  function Written(renders: Renders): set<Name> {
    (set t, f, n | t in renders && f in renders[t].applied && n in f.value :: n)
    + (set t, f, n | t in renders && f in renders[t].applied && n in f.argument :: n)
    + (set t, e, v, n | t in renders && e in renders[t].references && v in e.1.bindings && n in e.1.bindings[v] :: n)
    + (set t, e, v, n | t in renders && e in renders[t].references && v in e.1.scope && n in e.1.scope[v] :: n)
  }

  /** The words of the names that are written. */
  function Words(renders: Renders): set<string> {
    {""} + (set n | n in Written(renders) :: n.variable) + (set n | n in Written(renders) :: n.attribute)
  }

  function Names(renders: Renders): set<Name> {
    set v, a | v in Words(renders) && a in Words(renders) :: Name(v, a)
  }

  function Sites(renders: Renders): set<Site> {
    set t, f | t in renders && f in renders[t].applied :: f.site
  }

  function Universe(renders: Renders): set<Item> {
    (set s | s in Sites(renders) :: Applied(s))
    + (set s, n | s in Sites(renders) && n in Names(renders) :: ValueOf(s, n))
    + (set s, n | s in Sites(renders) && n in Names(renders) :: ArgumentOf(s, n))
  }

  ghost predicate InUniverse(renders: Renders, i: Item) {
    && i.site in Sites(renders)
    && (!i.Applied? ==> i.name in Names(renders))
  }

  lemma WrittenKnown(renders: Renders, n: Name)
    requires n in Written(renders)
    ensures n in Names(renders) && n.variable in Words(renders) && n.attribute in Words(renders)
  {
  }

  /** References make no name of other words. */
  lemma ReadsKnown(renders: Renders, t: Node, k: nat, n: Name, m: Name)
    requires t in renders && k < |renders[t].references| && n in Names(renders)
    requires m in Reads(renders[t].references[k].1, n)
    ensures m in Names(renders)
  {
    hide Written, Words;
    var e := renders[t].references[k];
    var r := e.1;
    assert e in renders[t].references;
    EmptyWord(renders);
    if n.variable in r.bindings {
      forall b | b in r.bindings[n.variable] ensures b.variable in Words(renders) && b.attribute in Words(renders) {
        BindingWritten(renders, t, e, n.variable, b);
      }
    } else if n.variable in r.scope {
      forall b | b in r.scope[n.variable] ensures b.variable in Words(renders) && b.attribute in Words(renders) {
        BindingWritten(renders, t, e, n.variable, b);
      }
    }
  }

  lemma EmptyWord(renders: Renders)
    ensures "" in Words(renders)
  {
  }

  lemma BindingWritten(renders: Renders, t: Node, e: (Node, Reference), v: string, b: Name)
    requires t in renders && e in renders[t].references
    requires (v in e.1.bindings && b in e.1.bindings[v]) || (v in e.1.scope && b in e.1.scope[v])
    ensures b.variable in Words(renders) && b.attribute in Words(renders)
  {
    assert b in Written(renders);
  }

  /** Whatever include paths bring is one of the items of the universe. */
  lemma {:induction false} BroughtKnown(renders: Renders, t: Node, path: seq<nat>, i: Item)
    requires Brings(renders, t, path, i)
    ensures InUniverse(renders, i)
    decreases |path|
  {
    if path == [] {
      var f :| f in renders[t].applied && Says(f, i);
      AppliedKnown(renders, t, f, i);
    } else {
      var e := renders[t].references[path[0]];
      var j :| Brings(renders, e.0, path[1..], j) && Carries(e.1, j, i);
      BroughtKnown(renders, e.0, path[1..], j);
      hide Names;
      if !i.Applied? {
        ReadsKnown(renders, t, path[0], j.name, i.name);
      }
    }
  }

  lemma AppliedKnown(renders: Renders, t: Node, f: Fact, i: Item)
    requires t in renders && f in renders[t].applied && Says(f, i)
    ensures InUniverse(renders, i)
  {
    if !i.Applied? {
      assert i.name in Written(renders);
      WrittenKnown(renders, i.name);
    }
  }

  lemma ReachedKnown(renders: Renders, t: Node, i: Item)
    requires Reached(renders, t, i)
    ensures i in Universe(renders)
  {
    var path :| Brings(renders, t, path, i);
    BroughtKnown(renders, t, path, i);
    hide Names, Sites;
    match i
    case Applied(s) =>
    case ValueOf(s, n) =>
    case ArgumentOf(s, n) =>
  }
}
