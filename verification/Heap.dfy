/** The points-to analysis: which abstract objects each value may be, and each field of each
    object may hold, found by passes over the instructions until nothing grows. */
module Heap {
  import opened Options

  type Value = nat

  /** Objects by where they are made, or as a field of another. */
  datatype Object = Site(kind: string, place: nat, name: string) | FieldOf(owner: Object, field: string)

  const ELEMENTS := "elements"
  const ATTRIBUTES := "attributes"

  /** What an instruction does to the heap: `Build` a container of some elements and of what some
      values contain, `Call` something that may be a method storing its arguments into its
      receiver, name an object, copy values, load or store a field. */
  datatype Instruction =
    | Build(result: Value, site: Object, elements: seq<Value>, unpacked: seq<Value>)
    | Call(result: Value, site: Object, receiver: Option<Value>, arguments: seq<Value>)
    | Named(result: Value, site: Object)
    | Copy(result: Value, sources: seq<Value>)
    | Load(result: Value, base: Value, field: string)
    | Store(base: Value, field: string, value: Value)
    | Other

  /** A field of a field is itself, so chains stay finite. */
  function FieldObject(owner: Object, field: string): Object {
    if owner.FieldOf? then owner else FieldOf(owner, field)
  }

  datatype Facts = Facts(points: map<Value, set<Object>>, heap: map<(Object, string), set<Object>>)

  function Of(s: Facts, v: Value): set<Object> {
    if v in s.points then s.points[v] else {}
  }

  function Held(s: Facts, o: Object, field: string): set<Object> {
    if (o, field) in s.heap then s.heap[(o, field)] else {}
  }

  /** What a field of any of `objects` may be. */
  function Contents(s: Facts, objects: set<Object>, field: string): set<Object> {
    (set o, x | o in objects && x in Held(s, o, field) :: x) + (set o | o in objects :: FieldObject(o, field))
  }

  // ---- the inclusion constraints ----

  ghost predicate StoresInto(s: Facts, owners: set<Object>, field: string, value: Value) {
    forall o :: o in owners ==> Of(s, value) <= Held(s, o, field)
  }

  ghost predicate Satisfied(s: Facts, i: Instruction) {
    match i
    case Build(result, site, elements, unpacked) =>
      && site in Of(s, result)
      && (forall e :: e in elements ==> StoresInto(s, {site}, ELEMENTS, e))
      && (forall u :: u in unpacked ==> Contents(s, Of(s, u), ELEMENTS) <= Held(s, site, ELEMENTS))
    case Call(result, site, receiver, arguments) =>
      && site in Of(s, result)
      && (receiver.Some? ==> forall a :: a in arguments ==> StoresInto(s, Of(s, receiver.value), ELEMENTS, a))
    case Named(result, site) => site in Of(s, result)
    case Copy(result, sources) => forall v :: v in sources ==> Of(s, v) <= Of(s, result)
    case Load(result, base, field) => Contents(s, Of(s, base), field) <= Of(s, result)
    case Store(base, field, value) => StoresInto(s, Of(s, base), field, value)
    case Other => true
  }

  /** Facts that hold what the parameters are and satisfy every instruction. */
  ghost predicate Solution(parameters: map<Value, Object>, code: seq<Instruction>, s: Facts) {
    && (forall p :: p in parameters ==> parameters[p] in Of(s, p))
    && (forall i :: i in code ==> Satisfied(s, i))
  }

  ghost predicate Within(s: Facts, t: Facts) {
    && (forall v :: Of(s, v) <= Of(t, v))
    && (forall o, f :: Held(s, o, f) <= Held(t, o, f))
  }

  /** No solution has less. */
  ghost predicate Least(parameters: map<Value, Object>, code: seq<Instruction>, s: Facts) {
    forall t {:trigger Within(s, t)} :: Solution(parameters, code, t) ==> Within(s, t)
  }

  lemma ContentsGrow(s: Facts, t: Facts, a: set<Object>, b: set<Object>, field: string)
    requires Within(s, t) && a <= b
    ensures Contents(s, a, field) <= Contents(t, b, field)
  {
    forall x | x in Contents(s, a, field) ensures x in Contents(t, b, field) {
      if o :| o in a && x in Held(s, o, field) {
        assert o in b && x in Held(t, o, field);
      }
    }
  }

  /** Facts that say the same satisfy the same. */
  lemma SameSatisfied(s: Facts, t: Facts, i: Instruction)
    requires Within(s, t) && Within(t, s) && Satisfied(s, i)
    ensures Satisfied(t, i)
  {
    forall v ensures Of(s, v) == Of(t, v) {
    }
    forall o, f ensures Held(s, o, f) == Held(t, o, f) {
    }
    forall a, f ensures Contents(s, a, f) == Contents(t, a, f) {
      ContentsGrow(s, t, a, a, f);
      ContentsGrow(t, s, a, a, f);
    }
  }

  // ---- the finitely many facts ----

  function Made(i: Instruction): set<Object> {
    if i.Build? || i.Call? || i.Named? then {i.site} else {}
  }

  function Mentioned(i: Instruction): set<Value> {
    match i
    case Build(result, _, elements, unpacked) => {result}
    case Call(result, _, _, _) => {result}
    case Named(result, _) => {result}
    case Copy(result, _) => {result}
    case Load(result, _, _) => {result}
    case _ => {}
  }

  function FieldsIn(i: Instruction): set<string> {
    if i.Load? || i.Store? then {i.field} else {ELEMENTS}
  }

  /** Every object there is to find. */
  function Objects(parameters: map<Value, Object>, code: seq<Instruction>): set<Object> {
    var made := parameters.Values + (set i, o | i in code && o in Made(i) :: o);
    made + (set o, i, f | o in made && i in code && f in FieldsIn(i) :: FieldObject(o, f))
  }

  function Fields(code: seq<Instruction>): set<string> {
    set i, f | i in code && f in FieldsIn(i) :: f
  }

  function Results(parameters: map<Value, Object>, code: seq<Instruction>): set<Value> {
    parameters.Keys + set i, v | i in code && v in Mentioned(i) :: v
  }

  /** Everything pointing to everything. */
  function Full(parameters: map<Value, Object>, code: seq<Instruction>): Facts {
    var all := Objects(parameters, code);
    Facts(map v | v in Results(parameters, code) :: all, map o, f | o in all && f in Fields(code) :: (o, f) := all)
  }

  lemma FieldIsObject(parameters: map<Value, Object>, code: seq<Instruction>, o: Object, i: Instruction, f: string)
    requires o in Objects(parameters, code) && i in code && f in FieldsIn(i)
    ensures FieldObject(o, f) in Objects(parameters, code)
  {
  }

  lemma FullHolds(parameters: map<Value, Object>, code: seq<Instruction>, o: Object, f: string)
    requires o in Objects(parameters, code) && f in Fields(code)
    ensures Held(Full(parameters, code), o, f) == Objects(parameters, code)
  {
  }

  lemma FullOf(parameters: map<Value, Object>, code: seq<Instruction>, v: Value)
    ensures Of(Full(parameters, code), v) <= Objects(parameters, code)
    ensures v in Results(parameters, code) ==> Of(Full(parameters, code), v) == Objects(parameters, code)
  {
  }

  lemma FullContents(parameters: map<Value, Object>, code: seq<Instruction>, v: Value, i: Instruction, f: string)
    requires i in code && f in FieldsIn(i)
    ensures Contents(Full(parameters, code), Of(Full(parameters, code), v), f) <= Objects(parameters, code)
  {
    hide Objects, FieldsIn, Fields, Results;
    var s := Full(parameters, code);
    forall x | x in Contents(s, Of(s, v), f) ensures x in Objects(parameters, code) {
      if o :| o in Of(s, v) && x == FieldObject(o, f) {
        FieldIsObject(parameters, code, o, i, f);
      }
    }
  }

  lemma FullSatisfies(parameters: map<Value, Object>, code: seq<Instruction>, i: Instruction)
    requires i in code
    ensures Satisfied(Full(parameters, code), i)
  {
    var s, all := Full(parameters, code), Objects(parameters, code);
    assert forall v :: v in Mentioned(i) ==> v in Results(parameters, code);
    assert forall f :: f in FieldsIn(i) ==> f in Fields(code);
    assert forall o :: o in Made(i) ==> o in all;
    forall v ensures Of(s, v) <= all && (v in Mentioned(i) ==> Of(s, v) == all) {
      FullOf(parameters, code, v);
    }
    forall o, f | o in all && f in FieldsIn(i) ensures Held(s, o, f) == all {
      FullHolds(parameters, code, o, f);
    }
    forall v, f | f in FieldsIn(i) ensures Contents(s, Of(s, v), f) <= all {
      FullContents(parameters, code, v, i, f);
    }
    hide Full, Objects, Results, Fields, Of, Held, Contents;
  }

  lemma FullIsSolution(parameters: map<Value, Object>, code: seq<Instruction>)
    ensures Solution(parameters, code, Full(parameters, code))
  {
    forall i | i in code ensures Satisfied(Full(parameters, code), i) {
      FullSatisfies(parameters, code, i);
    }
  }

  datatype Slot = Points(v: Value, o: Object) | Cell(owner: Object, field: string, o: Object)

  ghost predicate Says(s: Facts, slot: Slot) {
    match slot
    case Points(v, o) => o in Of(s, v)
    case Cell(owner, field, o) => o in Held(s, owner, field)
  }

  /** What could still be found. */
  ghost function Missing(parameters: map<Value, Object>, code: seq<Instruction>, s: Facts): set<Slot> {
    (set v, o | v in Results(parameters, code) && o in Objects(parameters, code) && o !in Of(s, v) :: Points(v, o))
    + (set w, f, o | w in Objects(parameters, code) && f in Fields(code) && o in Objects(parameters, code)
      && o !in Held(s, w, f) :: Cell(w, f, o))
  }

  ghost predicate Possible(parameters: map<Value, Object>, code: seq<Instruction>, slot: Slot) {
    match slot
    case Points(v, o) => v in Results(parameters, code) && o in Objects(parameters, code)
    case Cell(w, f, o) => w in Objects(parameters, code) && f in Fields(code) && o in Objects(parameters, code)
  }

  lemma FullSays(parameters: map<Value, Object>, code: seq<Instruction>, slot: Slot)
    requires Says(Full(parameters, code), slot)
    ensures Possible(parameters, code, slot)
  {
  }

  lemma IsMissing(parameters: map<Value, Object>, code: seq<Instruction>, s: Facts, slot: Slot)
    ensures slot in Missing(parameters, code, s) <==> Possible(parameters, code, slot) && !Says(s, slot)
  {
    hide Objects, Results, Fields, Of, Held;
  }

  lemma MissingLess(parameters: map<Value, Object>, code: seq<Instruction>, s: Facts, t: Facts)
    requires Within(s, t) && !Within(t, s) && Least(parameters, code, t)
    ensures Missing(parameters, code, t) < Missing(parameters, code, s)
  {
    hide Missing, Possible, Full, Objects, Results, Fields;
    FullIsSolution(parameters, code);
    assert Within(t, Full(parameters, code));
    var slot := NotWithin(t, s);
    assert Says(Full(parameters, code), slot);
    FullSays(parameters, code, slot);
    IsMissing(parameters, code, s, slot);
    IsMissing(parameters, code, t, slot);
    forall x | x in Missing(parameters, code, t) ensures x in Missing(parameters, code, s) {
      IsMissing(parameters, code, s, x);
      IsMissing(parameters, code, t, x);
    }
  }

  lemma MissingSame(parameters: map<Value, Object>, code: seq<Instruction>, s: Facts, t: Facts)
    requires Within(s, t) && Within(t, s)
    ensures Missing(parameters, code, t) == Missing(parameters, code, s)
  {
    forall x ensures x in Missing(parameters, code, t) <==> x in Missing(parameters, code, s) {
      IsMissing(parameters, code, s, x);
      IsMissing(parameters, code, t, x);
      assert Says(s, x) <==> Says(t, x);
    }
    hide Missing;
  }

  lemma NotWithin(s: Facts, t: Facts) returns (slot: Slot)
    requires !Within(s, t)
    ensures Says(s, slot) && !Says(t, slot)
  {
    if v, o :| o in Of(s, v) && o !in Of(t, v) {
      slot := Points(v, o);
    } else {
      var w, f, o :| o in Held(s, w, f) && o !in Held(t, w, f);
      slot := Cell(w, f, o);
    }
  }

  // ---- one step ----

  /** The facts with more that `v` may be. */
  function Assigned(s: Facts, v: Value, objects: set<Object>): Facts {
    s.(points := s.points[v := Of(s, v) + objects])
  }

  /** The facts with more that a field may hold. */
  function Put(s: Facts, o: Object, field: string, objects: set<Object>): Facts {
    s.(heap := s.heap[(o, field) := Held(s, o, field) + objects])
  }

  lemma AssignedGrows(s: Facts, v: Value, objects: set<Object>)
    ensures Within(s, Assigned(s, v, objects))
    ensures objects <= Of(Assigned(s, v, objects), v)
    ensures objects <= Of(s, v) ==> Within(Assigned(s, v, objects), s)
    ensures forall t :: Within(s, t) && objects <= Of(t, v) ==> Within(Assigned(s, v, objects), t)
  {
  }

  lemma PutGrows(s: Facts, o: Object, field: string, objects: set<Object>)
    ensures Within(s, Put(s, o, field, objects))
    ensures objects <= Held(Put(s, o, field, objects), o, field)
    ensures objects <= Held(s, o, field) ==> Within(Put(s, o, field, objects), s)
    ensures forall t :: Within(s, t) && objects <= Held(t, o, field) ==> Within(Put(s, o, field, objects), t)
  {
  }

  lemma WithinOn(s: Facts, t: Facts, u: Facts)
    requires Within(s, t) && Within(t, u)
    ensures Within(s, u)
  {
  }

  /** A union is longer exactly when it is more. */
  lemma UnionLonger(a: set<Object>, b: set<Object>)
    ensures |a + b| != |a| <==> !(b <= a)
  {
    if b <= a {
      assert a + b == a;
    } else {
      var x :| x in b && x !in a;
      assert a + b == a + (b - a);
      assert |a + (b - a)| == |a| + |b - a|;
      assert b - a != {};
    }
  }

  /** What a step does: it only adds, only what every solution that has the facts has, and says
      whether it added. */
  ghost predicate Stepped(s: Facts, s': Facts, i: Instruction, changed: bool) {
    && Within(s, s')
    && (!changed ==> Within(s', s) && Satisfied(s', i))
    && (changed ==> !Within(s', s))
    && forall t {:trigger Within(s, t)} :: Within(s, t) && Satisfied(t, i) ==> Within(s', t)
  }

  class PointsTo {
    var points: map<Value, set<Object>>
    var heap: map<(Object, string), set<Object>>

    ghost function State(): Facts
      reads this
    {
      Facts(points, heap)
    }

    constructor (parameters: map<Value, Object>)
      ensures State() == Facts(map p | p in parameters :: {parameters[p]}, map[])
    {
      points := map p | p in parameters :: {parameters[p]};
      heap := map[];
    }

    method Assign(value: Value, objects: set<Object>) returns (changed: bool)
      modifies this`points
      ensures State() == Assigned(old(State()), value, objects)
      ensures changed <==> !(objects <= Of(old(State()), value))
    {
      var current := Of(Facts(points, heap), value);
      UnionLonger(current, objects);
      points := points[value := current + objects];
      changed := |points[value]| != |current|;
    }

    /** Adds to one field. */
    method Extend(owner: Object, field: string, objects: set<Object>) returns (changed: bool)
      modifies this`heap
      ensures State() == Put(old(State()), owner, field, objects)
      ensures changed <==> !(objects <= Held(old(State()), owner, field))
    {
      var location := Held(Facts(points, heap), owner, field);
      UnionLonger(location, objects);
      heap := heap[(owner, field) := location + objects];
      changed := |heap[(owner, field)]| != |location|;
    }

    /** What a field of any of `objects` may be. */
    method At(objects: set<Object>, field: string) returns (found: set<Object>)
      ensures found == Contents(State(), objects, field)
    {
      found := {};
      var left := objects;
      assert objects - left == {};
      while left != {}
        invariant left <= objects && found == Contents(State(), objects - left, field)
        decreases left
      {
        var owner :| owner in left;
        assert objects - (left - {owner}) == objects - left + {owner};
        found := found + Held(Facts(points, heap), owner, field) + {FieldObject(owner, field)};
        left := left - {owner};
      }
      assert objects - left == objects;
    }

    /** Stores a value into a field of each of `objects`. */
    method StoreAll(objects: set<Object>, field: string, value: Value) returns (changed: bool)
      modifies this`heap
      ensures Within(old(State()), State()) && points == old(points)
      ensures StoresInto(State(), objects, field, value)
      ensures if changed then !Within(State(), old(State())) else Within(State(), old(State()))
      ensures forall t {:trigger Within(old(State()), t)} ::
                Within(old(State()), t) && StoresInto(t, objects, field, value) ==> Within(State(), t)
    {
      hide Within;
      changed := false;
      var left := objects;
      ghost var s0 := State();
      WithinItself(s0);
      while left != {}
        invariant left <= objects && points == s0.points && Within(s0, State())
        invariant StoresInto(State(), objects - left, field, value)
        invariant if changed then !Within(State(), s0) else Within(State(), s0)
        invariant forall t {:trigger Within(s0, t)} :: Within(s0, t) && StoresInto(t, objects, field, value) ==>
          Within(State(), t)
        decreases left
      {
        var owner :| owner in left;
        ghost var s := State();
        var added := Extend(owner, field, Of(Facts(points, heap), value));
        StoredOne(s0, s, objects, left, owner, field, value, changed, added);
        changed := changed || added;
        left := left - {owner};
      }
      assert objects - left == objects;
    }

    /** One instruction: a container of its elements and of what is unpacked into it. */
    method BuildContainer(i: Instruction) returns (changed: bool)
      requires i.Build?
      modifies this
      ensures Stepped(old(State()), State(), i, changed)
    {
      hide Within, Satisfied, StoresInto, Stepped;
      ghost var s0 := State();
      changed := Assign(i.result, {i.site});
      BuildStarts(s0, i, changed);
      for k := 0 to |i.elements|
        invariant Going(s0, State(), i, changed)
        invariant !changed ==> i.site in Of(s0, i.result) && forall j :: 0 <= j < k ==>
          StoresInto(s0, {i.site}, ELEMENTS, i.elements[j])
      {
        ghost var s := State();
        var added := StoreAll({i.site}, ELEMENTS, i.elements[k]);
        BuildStores(s0, s, State(), i, k, changed, added);
        changed := changed || added;
      }
      for k := 0 to |i.unpacked|
        invariant Going(s0, State(), i, changed)
        invariant !changed ==> i.site in Of(s0, i.result) && forall j :: 0 <= j < |i.elements| ==>
          StoresInto(s0, {i.site}, ELEMENTS, i.elements[j])
        invariant !changed ==> forall j :: 0 <= j < k ==>
          Contents(s0, Of(s0, i.unpacked[j]), ELEMENTS) <= Held(s0, i.site, ELEMENTS)
      {
        ghost var s := State();
        var contents := At(Of(Facts(points, heap), i.unpacked[k]), ELEMENTS);
        var added := Extend(i.site, ELEMENTS, contents);
        BuildUnpacks(s0, s, i, k, changed, added);
        changed := changed || added;
      }
      BuildEnds(s0, State(), i, changed);
    }

    /** A call is an object, and may store its arguments into its receiver. */
    method CallSomething(i: Instruction) returns (changed: bool)
      requires i.Call?
      modifies this
      ensures Stepped(old(State()), State(), i, changed)
    {
      hide Within, Satisfied, StoresInto, Stepped;
      ghost var s0 := State();
      changed := Assign(i.result, {i.site});
      BuildStarts(s0, i, changed);
      if i.receiver.Some? {
        for k := 0 to |i.arguments|
          invariant Going(s0, State(), i, changed)
          invariant !changed ==> i.site in Of(s0, i.result) && forall j :: 0 <= j < k ==>
            StoresInto(s0, Of(s0, i.receiver.value), ELEMENTS, i.arguments[j])
        {
          ghost var s := State();
          var added := StoreAll(Of(Facts(points, heap), i.receiver.value), ELEMENTS, i.arguments[k]);
          CallStores(s0, s, State(), i, k, changed, added);
          changed := changed || added;
        }
      }
      CallEnds(s0, State(), i, changed);
    }

    /** One instruction; whether it found anything new. */
    method Step(i: Instruction) returns (changed: bool)
      modifies this
      ensures Stepped(old(State()), State(), i, changed)
    {
      ghost var s0 := State();
      match i {
        case Build(_, _, _, _) => changed := BuildContainer(i);
        case Call(_, _, _, _) => changed := CallSomething(i);
        case Named(result, site) =>
          changed := Assign(result, {site});
          AssignedGrows(s0, result, {site});
        case Copy(result, sources) =>
          var objects: set<Object> := {};
          for k := 0 to |sources|
            invariant State() == s0
            invariant forall x :: x in objects <==> exists j :: 0 <= j < k && x in Of(s0, sources[j])
          {
            objects := objects + Of(Facts(points, heap), sources[k]);
          }
          changed := Assign(result, objects);
          CopyEnds(s0, i, objects, changed);
        case Load(result, base, field) =>
          var objects := At(Of(Facts(points, heap), base), field);
          changed := Assign(result, objects);
          LoadEnds(s0, i, changed);
        case Store(base, field, value) =>
          changed := StoreAll(Of(Facts(points, heap), base), field, value);
          StoreEnds(s0, State(), i, changed);
        case Other =>
          changed := false;
      }
    }

    /** Passes over the instructions until one finds nothing new. */
    method Solve(ghost parameters: map<Value, Object>, code: seq<Instruction>)
      requires State() == Facts(map p | p in parameters :: {parameters[p]}, map[])
      modifies this
      ensures Solution(parameters, code, State()) && Least(parameters, code, State())
    {
      hide Within, Satisfied, Stepped, Missing;
      StartLeast(parameters, code);
      ghost var start := State();
      WithinItself(start);
      var changed := true;
      while changed
        invariant Within(start, State()) && Least(parameters, code, State())
        invariant !changed ==> forall i :: i in code ==> Satisfied(State(), i)
        decreases Missing(parameters, code, State()), changed
      {
        changed := false;
        ghost var s0 := State();
        WithinItself(s0);
        for k := 0 to |code|
          invariant Within(start, State()) && Least(parameters, code, State()) && Within(s0, State())
          invariant if changed then !Within(State(), s0) else Within(State(), s0)
          invariant !changed ==> forall j :: 0 <= j < k ==> Satisfied(State(), code[j])
        {
          ghost var s := State();
          var found := Step(code[k]);
          StepKeeps(parameters, code, start, s0, s, State(), k, changed, found);
          changed := changed || found;
        }
        if changed {
          MissingLess(parameters, code, s0, State());
        } else {
          MissingSame(parameters, code, s0, State());
        }
      }
      ParametersHeld(parameters, State());
    }
  }

  lemma WithinItself(s: Facts)
    ensures Within(s, s)
  {
  }

  lemma StoredOne(s0: Facts, s: Facts, objects: set<Object>, left: set<Object>, owner: Object, field: string,
      value: Value, changed: bool, added: bool)
    requires owner in left && left <= objects && s.points == s0.points && Within(s0, s)
    requires StoresInto(s, objects - left, field, value)
    requires if changed then !Within(s, s0) else Within(s, s0)
    requires added <==> !(Of(s, value) <= Held(s, owner, field))
    requires forall t {:trigger Within(s0, t)} :: Within(s0, t) && StoresInto(t, objects, field, value) ==> Within(s, t)
    ensures var s' := Put(s, owner, field, Of(s, value));
      && s'.points == s0.points && Within(s0, s')
      && StoresInto(s', objects - (left - {owner}), field, value)
      && (if changed || added then !Within(s', s0) else Within(s', s0))
      && forall t {:trigger Within(s0, t)} :: Within(s0, t) && StoresInto(t, objects, field, value) ==> Within(s', t)
  {
    var s' := Put(s, owner, field, Of(s, value));
    PutGrows(s, owner, field, Of(s, value));
    WithinOn(s0, s, s');
    forall t | Within(s0, t) && StoresInto(t, objects, field, value) ensures Within(s', t) {
      assert Within(s, t);
      assert Of(s, value) <= Of(t, value) <= Held(t, owner, field);
    }
    if added {
      var x :| x in Of(s, value) && x !in Held(s, owner, field);
      assert x in Held(s', owner, field) && x !in Held(s0, owner, field);
    }
  }

  // ---- the steps of one instruction ----

  /** Part of an instruction is done, from `s0`. */
  ghost predicate Going(s0: Facts, s: Facts, i: Instruction, changed: bool) {
    && Within(s0, s)
    && (if changed then !Within(s, s0) else Within(s, s0))
    && forall t {:trigger Within(s0, t)} :: Within(s0, t) && Satisfied(t, i) ==> Within(s, t)
  }

  /** One more part: it only adds what solutions have. */
  lemma GoesOn(s0: Facts, s: Facts, s': Facts, i: Instruction, changed: bool, added: bool)
    requires Going(s0, s, i, changed) && Within(s, s') && (if added then !Within(s', s) else Within(s', s))
    requires forall t {:trigger Within(s, t)} :: Within(s, t) && Satisfied(t, i) ==> Within(s', t)
    ensures Going(s0, s', i, changed || added)
  {
    hide Satisfied;
    WithinOn(s0, s, s');
    if !changed && !added {
      WithinOn(s', s, s0);
    }
    if changed || added {
      if Within(s', s0) {
        WithinOn(s', s0, s);
        WithinOn(s, s', s0);
      }
    }
  }

  lemma SameStores(s: Facts, t: Facts, owners: set<Object>, field: string, value: Value)
    requires Within(s, t) && Within(t, s) && StoresInto(s, owners, field, value)
    ensures StoresInto(t, owners, field, value)
  {
  }

  lemma SameFacts(s: Facts, t: Facts, v: Value, o: Object, field: string)
    requires Within(s, t) && Within(t, s)
    ensures Of(s, v) == Of(t, v) && Held(s, o, field) == Held(t, o, field)
    ensures Contents(s, Of(s, v), field) == Contents(t, Of(t, v), field)
  {
    ContentsGrow(s, t, Of(s, v), Of(t, v), field);
    ContentsGrow(t, s, Of(t, v), Of(s, v), field);
  }

  lemma BuildStarts(s0: Facts, i: Instruction, changed: bool)
    requires (i.Build? || i.Call?) && (changed <==> !({i.site} <= Of(s0, i.result)))
    ensures Going(s0, Assigned(s0, i.result, {i.site}), i, changed)
    ensures !changed ==> i.site in Of(s0, i.result)
  {
    AssignedGrows(s0, i.result, {i.site});
    if changed {
      assert i.site in Of(Assigned(s0, i.result, {i.site}), i.result);
    }
  }

  lemma BuildStores(s0: Facts, s: Facts, s': Facts, i: Instruction, k: nat, changed: bool, added: bool)
    requires i.Build? && k < |i.elements| && Going(s0, s, i, changed) && Within(s, s')
      && (if added then !Within(s', s) else Within(s', s))
    requires StoresInto(s', {i.site}, ELEMENTS, i.elements[k])
    requires forall t {:trigger Within(s, t)} :: Within(s, t) && StoresInto(t, {i.site}, ELEMENTS, i.elements[k]) ==>
      Within(s', t)
    ensures Going(s0, s', i, changed || added)
    ensures !changed && !added ==> StoresInto(s0, {i.site}, ELEMENTS, i.elements[k])
  {
    GoesOn(s0, s, s', i, changed, added);
    if !changed && !added {
      hide Within;
      SameStores(s', s0, {i.site}, ELEMENTS, i.elements[k]);
    }
  }

  lemma BuildUnpacks(s0: Facts, s: Facts, i: Instruction, k: nat, changed: bool, added: bool)
    requires i.Build? && k < |i.unpacked| && Going(s0, s, i, changed)
    requires added <==> !(Contents(s, Of(s, i.unpacked[k]), ELEMENTS) <= Held(s, i.site, ELEMENTS))
    ensures Going(s0, Put(s, i.site, ELEMENTS, Contents(s, Of(s, i.unpacked[k]), ELEMENTS)), i, changed || added)
    ensures !changed && !added ==> Contents(s0, Of(s0, i.unpacked[k]), ELEMENTS) <= Held(s0, i.site, ELEMENTS)
  {
    var contents := Contents(s, Of(s, i.unpacked[k]), ELEMENTS);
    var s' := Put(s, i.site, ELEMENTS, contents);
    PutGrows(s, i.site, ELEMENTS, contents);
    forall t | Within(s, t) && Satisfied(t, i) ensures Within(s', t) {
      ContentsGrow(s, t, Of(s, i.unpacked[k]), Of(t, i.unpacked[k]), ELEMENTS);
    }
    GoesOn(s0, s, s', i, changed, added);
    if !changed && !added {
      SameFacts(s, s0, i.unpacked[k], i.site, ELEMENTS);
    }
  }

  lemma BuildEnds(s0: Facts, s: Facts, i: Instruction, changed: bool)
    requires i.Build? && Going(s0, s, i, changed)
    requires !changed ==> i.site in Of(s0, i.result) && forall j :: 0 <= j < |i.elements| ==>
      StoresInto(s0, {i.site}, ELEMENTS, i.elements[j])
    requires !changed ==> forall j :: 0 <= j < |i.unpacked| ==>
      Contents(s0, Of(s0, i.unpacked[j]), ELEMENTS) <= Held(s0, i.site, ELEMENTS)
    ensures Stepped(s0, s, i, changed)
  {
    hide Within, StoresInto, Contents;
    if !changed {
      assert Satisfied(s0, i);
      SameSatisfied(s0, s, i);
    }
  }

  lemma CallStores(s0: Facts, s: Facts, s': Facts, i: Instruction, k: nat, changed: bool, added: bool)
    requires i.Call? && i.receiver.Some? && k < |i.arguments| && Going(s0, s, i, changed) && Within(s, s')
      && s'.points == s.points
    requires if added then !Within(s', s) else Within(s', s)
    requires StoresInto(s', Of(s, i.receiver.value), ELEMENTS, i.arguments[k])
    requires forall t {:trigger Within(s, t)} ::
      Within(s, t) && StoresInto(t, Of(s, i.receiver.value), ELEMENTS, i.arguments[k]) ==> Within(s', t)
    ensures Going(s0, s', i, changed || added)
    ensures !changed && !added ==> StoresInto(s0, Of(s0, i.receiver.value), ELEMENTS, i.arguments[k])
  {
    var r, a := i.receiver.value, i.arguments[k];
    forall t | Within(s, t) && Satisfied(t, i) ensures Within(s', t) {
      assert StoresInto(t, Of(t, r), ELEMENTS, a) && Of(s, r) <= Of(t, r);
      assert StoresInto(t, Of(s, r), ELEMENTS, a);
    }
    GoesOn(s0, s, s', i, changed, added);
    if !changed && !added {
      SameStores(s', s0, Of(s, r), ELEMENTS, a);
      SameFacts(s, s0, r, i.site, ELEMENTS);
    }
  }

  lemma CallEnds(s0: Facts, s: Facts, i: Instruction, changed: bool)
    requires i.Call? && Going(s0, s, i, changed)
    requires !changed ==> i.site in Of(s0, i.result)
    requires !changed && i.receiver.Some? ==> forall j :: 0 <= j < |i.arguments| ==>
      StoresInto(s0, Of(s0, i.receiver.value), ELEMENTS, i.arguments[j])
    ensures Stepped(s0, s, i, changed)
  {
    hide Within, StoresInto, Contents;
    if !changed {
      assert Satisfied(s0, i);
      SameSatisfied(s0, s, i);
    }
  }

  lemma CopyEnds(s0: Facts, i: Instruction, objects: set<Object>, changed: bool)
    requires i.Copy? && (changed <==> !(objects <= Of(s0, i.result)))
    requires forall x :: x in objects <==> exists j :: 0 <= j < |i.sources| && x in Of(s0, i.sources[j])
    ensures Stepped(s0, Assigned(s0, i.result, objects), i, changed)
  {
    AssignedGrows(s0, i.result, objects);
    var s' := Assigned(s0, i.result, objects);
    forall t | Within(s0, t) && Satisfied(t, i) ensures objects <= Of(t, i.result) {
      forall x | x in objects ensures x in Of(t, i.result) {
        var j :| 0 <= j < |i.sources| && x in Of(s0, i.sources[j]);
        assert i.sources[j] in i.sources && x in Of(t, i.sources[j]);
      }
    }
    if !changed {
      forall v | v in i.sources ensures Of(s', v) <= Of(s', i.result) {
        var j :| 0 <= j < |i.sources| && i.sources[j] == v;
        assert Of(s', v) <= Of(s0, v) <= objects;
      }
    }
  }

  lemma LoadEnds(s0: Facts, i: Instruction, changed: bool)
    requires i.Load? && (changed <==> !(Contents(s0, Of(s0, i.base), i.field) <= Of(s0, i.result)))
    ensures Stepped(s0, Assigned(s0, i.result, Contents(s0, Of(s0, i.base), i.field)), i, changed)
  {
    var objects := Contents(s0, Of(s0, i.base), i.field);
    AssignedGrows(s0, i.result, objects);
    var s' := Assigned(s0, i.result, objects);
    forall t | Within(s0, t) && Satisfied(t, i) ensures objects <= Of(t, i.result) {
      ContentsGrow(s0, t, Of(s0, i.base), Of(t, i.base), i.field);
    }
    if !changed {
      assert Satisfied(s0, i);
      SameSatisfied(s0, s', i);
    }
  }

  lemma StoreEnds(s0: Facts, s': Facts, i: Instruction, changed: bool)
    requires i.Store? && Within(s0, s') && s'.points == s0.points && StoresInto(s', Of(s0, i.base), i.field, i.value)
    requires if changed then !Within(s', s0) else Within(s', s0)
    requires forall t {:trigger Within(s0, t)} :: Within(s0, t) && StoresInto(t, Of(s0, i.base), i.field, i.value) ==>
      Within(s', t)
    ensures Stepped(s0, s', i, changed)
  {
    forall t | Within(s0, t) && Satisfied(t, i) ensures Within(s', t) {
      assert Of(s0, i.base) <= Of(t, i.base);
      assert StoresInto(t, Of(s0, i.base), i.field, i.value);
    }
  }

  // ---- the passes ----

  lemma StartLeast(parameters: map<Value, Object>, code: seq<Instruction>)
    ensures Least(parameters, code, Facts(map p | p in parameters :: {parameters[p]}, map[]))
  {
  }

  lemma StepKeeps(parameters: map<Value, Object>, code: seq<Instruction>, start: Facts, s0: Facts, s: Facts, s': Facts,
      k: nat, changed: bool, found: bool)
    requires k < |code| && Stepped(s, s', code[k], found)
    requires Within(start, s) && Least(parameters, code, s) && Within(s0, s)
    requires if changed then !Within(s, s0) else Within(s, s0)
    requires !changed ==> forall j :: 0 <= j < k ==> Satisfied(s, code[j])
    ensures Within(start, s') && Least(parameters, code, s') && Within(s0, s')
    ensures if changed || found then !Within(s', s0) else Within(s', s0)
    ensures !changed && !found ==> forall j :: 0 <= j < k + 1 ==> Satisfied(s', code[j])
  {
    hide Within, Satisfied;
    WithinOn(start, s, s');
    WithinOn(s0, s, s');
    if !changed && !found {
      WithinOn(s', s, s0);
      forall j | 0 <= j < k ensures Satisfied(s', code[j]) {
        SameSatisfied(s, s', code[j]);
      }
    }
    if changed || found {
      if Within(s', s0) {
        WithinOn(s', s0, s);
        WithinOn(s, s', s0);
      }
    }
    forall t | Solution(parameters, code, t) ensures Within(s', t) {
      assert Within(s, t);
    }
  }

  lemma ParametersHeld(parameters: map<Value, Object>, s: Facts)
    requires Within(Facts(map p | p in parameters :: {parameters[p]}, map[]), s)
    ensures forall p :: p in parameters ==> parameters[p] in Of(s, p)
  {
    var start := Facts(map p | p in parameters :: {parameters[p]}, map[]);
    forall p | p in parameters ensures parameters[p] in Of(s, p) {
      assert parameters[p] in Of(start, p);
    }
  }

  /** The facts as they are reported: a value that can be no object is left out. */
  ghost predicate Reported(objects: map<Value, set<Object>>, facts: Facts) {
    && (forall v :: v in objects <==> Of(facts, v) != {})
    && (forall v :: v in objects ==> objects[v] == Of(facts, v))
  }

  /** What each value may be, in the least solution. */
  method AnalyzeHeap(parameters: map<Value, Object>, code: seq<Instruction>) returns (objects: map<Value, set<Object>>)
    ensures exists facts ::
      Solution(parameters, code, facts) && Least(parameters, code, facts) && Reported(objects, facts)
  {
    hide Solution, Least;
    var solver := new PointsTo(parameters);
    solver.Solve(parameters, code);
    objects := map v | v in solver.points && solver.points[v] != {} :: solver.points[v];
    assert Reported(objects, solver.State());
  }
}
