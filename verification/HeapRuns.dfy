/** What a program does to a heap of objects, and that every solution of the points-to analysis
    covers it, in whatever order the instructions run. */
module HeapRuns {
  import opened Options
  import opened Heap

  type Identity = nat

  /** The object each value is, what the fields of objects hold, and where each object comes from:
      the abstract object it stands for. */
  datatype Memory = Memory(values: map<Value, Identity>, held: set<(Identity, string, Identity)>,
    origin: map<Identity, Object>)

  /** What was in a field before the program looked stands for that field of its owner; inside such
      a field owners are not told apart any more. */
  function Unknown(owner: Object, field: string): Object {
    match owner
    case Site(_, _, _) => FieldOf(owner, field)
    case FieldOf(_, _) => owner
  }

  ghost predicate Known(c: Memory, v: Value) {
    v in c.values
  }

  /** Every object mentioned has an origin. */
  ghost predicate Wellformed(c: Memory) {
    && (forall v :: v in c.values ==> c.values[v] in c.origin)
    && (forall o, f, x :: (o, f, x) in c.held ==> o in c.origin && x in c.origin)
  }

  /** `c'` knows the objects of `c`, with what they held. */
  ghost predicate Later(c: Memory, c': Memory) {
    && Wellformed(c')
    && (forall o :: o in c.origin ==> o in c'.origin && c'.origin[o] == c.origin[o])
    && c.held <= c'.held
  }

  /** What a container built of `elements` and of the contents of `unpacked` may hold. */
  ghost predicate Holdable(c: Memory, elements: seq<Value>, unpacked: seq<Value>, x: Identity) {
    || (exists e :: e in elements && Known(c, e) && c.values[e] == x)
    || (exists u :: u in unpacked && Known(c, u) && (c.values[u], ELEMENTS, x) in c.held)
  }

  /** The instruction runs in `c` and leaves `c'`. */
  ghost predicate Does(i: Instruction, c: Memory, c': Memory) {
    && Later(c, c')
    && match i
       case Build(result, site, elements, unpacked) =>
         exists o :: o !in c.origin && o in c'.origin && c'.origin[o] == site && c'.values == c.values[result := o]
           && forall p, f, x :: (p, f, x) in c'.held - c.held ==>
             p == o && f == ELEMENTS && Holdable(c, elements, unpacked, x)
       case Call(result, site, receiver, arguments) =>
         exists o :: o in c'.origin && c'.origin[o] == site && c'.values == c.values[result := o]
           && forall p, f, x :: (p, f, x) in c'.held - c.held ==>
             receiver.Some? && Known(c, receiver.value) && p == c.values[receiver.value] && f == ELEMENTS
             && exists a :: a in arguments && Known(c, a) && c.values[a] == x
       case Named(result, site) =>
         c'.held == c.held && exists o :: o in c'.origin && c'.origin[o] == site && c'.values == c.values[result := o]
       case Copy(result, sources) =>
         c'.held == c.held && exists v :: v in sources && Known(c, v) && c'.values == c.values[result := c.values[v]]
       case Load(result, base, field) =>
         c'.held == c.held && Known(c, base)
         && exists x :: (c.values[base], field, x) in c.held && c'.values == c.values[result := x]
       case Store(base, field, value) =>
         c'.values == c.values && Known(c, base) && Known(c, value)
         && c'.held <= c.held + {(c.values[base], field, c.values[value])}
       case Other => c'.values == c.values && c'.held == c.held
  }

  /** The program comes upon what a field held all along. */
  ghost predicate Reveals(c: Memory, c': Memory) {
    && Later(c, c') && c'.values == c.values
    && forall o, f, x :: (o, f, x) in c'.held - c.held ==> c'.origin[x] == Unknown(c'.origin[o], f)
  }

  ghost predicate Next(code: seq<Instruction>, c: Memory, c': Memory) {
    Reveals(c, c') || exists i :: i in code && Does(i, c, c')
  }

  /** Before anything runs only the parameters have values, each an object of its own. */
  ghost predicate Begins(parameters: map<Value, Object>, c: Memory) {
    && Wellformed(c) && c.held == {}
    && forall v :: v in c.values ==> v in parameters && c.origin[c.values[v]] == parameters[v]
  }

  ghost predicate IsRun(parameters: map<Value, Object>, code: seq<Instruction>, run: seq<Memory>) {
    && run != [] && Begins(parameters, run[0])
    && forall k {:trigger run[k]} :: 0 < k < |run| ==> Next(code, run[k - 1], run[k])
  }

  // ---- the facts cover the runs ----

  ghost predicate Covered(s: Facts, c: Memory, o: Identity, f: string, x: Identity)
    requires o in c.origin && x in c.origin
  {
    c.origin[x] in Held(s, c.origin[o], f) || c.origin[x] == Unknown(c.origin[o], f)
  }

  /** The facts hold the origin of every value's object, and of all that any field holds. */
  ghost predicate Covers(s: Facts, c: Memory) {
    && Wellformed(c)
    && (forall v :: v in c.values ==> c.origin[c.values[v]] in Of(s, v))
    && (forall o, f, x {:trigger (o, f, x) in c.held} :: (o, f, x) in c.held ==> Covered(s, c, o, f, x))
  }

  lemma CoversOn(s: Facts, c: Memory, c': Memory)
    requires Covers(s, c) && Later(c, c')
    requires forall v :: v in c'.values ==>
      (v in c.values && c'.values[v] == c.values[v]) || c'.origin[c'.values[v]] in Of(s, v)
    requires forall o, f, x {:trigger (o, f, x) in c'.held} :: (o, f, x) in c'.held - c.held ==>
      Covered(s, c', o, f, x)
    ensures Covers(s, c')
  {
    forall o, f, x | (o, f, x) in c'.held ensures Covered(s, c', o, f, x) {
      if (o, f, x) in c.held {
        assert Covered(s, c, o, f, x);
      }
    }
  }

  /** What is loaded from an object is among the contents the facts give its origin. */
  lemma LoadedIsContents(s: Facts, c: Memory, owners: set<Object>, o: Identity, f: string, x: Identity)
    requires Covers(s, c) && (o, f, x) in c.held && c.origin[o] in owners
    ensures c.origin[x] in Contents(s, owners, f)
  {
    assert Covered(s, c, o, f, x);
    var a := c.origin[o];
    assert FieldObject(a, f) == Unknown(a, f);
  }

  lemma DoesCovered(s: Facts, i: Instruction, c: Memory, c': Memory)
    requires Satisfied(s, i) && Covers(s, c) && Does(i, c, c')
    ensures Covers(s, c')
  {
    match i {
      case Build(_, _, _, _) => BuildCovered(s, i, c, c');
      case Call(result, site, receiver, arguments) =>
        forall p, f, x | (p, f, x) in c'.held - c.held ensures Covered(s, c', p, f, x) {
          var a :| a in arguments && Known(c, a) && c.values[a] == x;
          assert StoresInto(s, Of(s, receiver.value), ELEMENTS, a);
        }
        CoversOn(s, c, c');
      case Load(result, base, field) =>
        var x :| (c.values[base], field, x) in c.held && c'.values == c.values[result := x];
        LoadedIsContents(s, c, Of(s, base), c.values[base], field, x);
        CoversOn(s, c, c');
      case Store(base, field, value) =>
        assert StoresInto(s, Of(s, base), field, value);
        CoversOn(s, c, c');
      case _ => CoversOn(s, c, c');
    }
  }

  lemma BuildCovered(s: Facts, i: Instruction, c: Memory, c': Memory)
    requires i.Build? && Satisfied(s, i) && Covers(s, c) && Does(i, c, c')
    ensures Covers(s, c')
  {
    var o :| o !in c.origin && o in c'.origin && c'.origin[o] == i.site && c'.values == c.values[i.result := o]
      && forall p, f, x :: (p, f, x) in c'.held - c.held ==>
        p == o && f == ELEMENTS && Holdable(c, i.elements, i.unpacked, x);
    forall p, f, x | (p, f, x) in c'.held - c.held ensures Covered(s, c', p, f, x) {
      if e :| e in i.elements && Known(c, e) && c.values[e] == x {
        assert StoresInto(s, {i.site}, ELEMENTS, e);
      } else {
        var u :| u in i.unpacked && Known(c, u) && (c.values[u], ELEMENTS, x) in c.held;
        LoadedIsContents(s, c, Of(s, u), c.values[u], ELEMENTS, x);
      }
    }
    CoversOn(s, c, c');
  }

  /** In every run, a value's object comes from where a solution says it may, and so does all that any
      field holds. */
  lemma {:induction false} SolutionCovers(parameters: map<Value, Object>, code: seq<Instruction>, s: Facts,
      run: seq<Memory>, k: nat)
    requires Solution(parameters, code, s) && IsRun(parameters, code, run) && k < |run|
    ensures Covers(s, run[k])
  {
    hide Does, Satisfied;
    if k > 0 {
      SolutionCovers(parameters, code, s, run, k - 1);
      assert Next(code, run[k - 1], run[k]);
      if Reveals(run[k - 1], run[k]) {
        CoversOn(s, run[k - 1], run[k]);
      } else {
        var i :| i in code && Does(i, run[k - 1], run[k]);
        DoesCovered(s, i, run[k - 1], run[k]);
      }
    }
  }

  /** So what the analysis reports of a value holds where the value's object comes from, in every
      run. */
  lemma ReportIsSound(parameters: map<Value, Object>, code: seq<Instruction>, facts: Facts,
      objects: map<Value, set<Object>>, run: seq<Memory>, k: nat, v: Value)
    requires Solution(parameters, code, facts) && Reported(objects, facts)
    requires IsRun(parameters, code, run) && k < |run| && v in run[k].values
    ensures v in objects && run[k].values[v] in run[k].origin && run[k].origin[run[k].values[v]] in objects[v]
  {
    SolutionCovers(parameters, code, facts, run, k);
  }
}
