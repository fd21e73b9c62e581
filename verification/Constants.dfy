/** Conditional constant propagation over a function in SSA form. */
module Constants {
  import Dominators
  import opened Graphs
  import opened Options
  import opened IR
  import opened SSAForm
  import opened SSAProperties
  import opened Solver

  // ---- facts ----

  /** No information yet, one constant, or anything. */
  datatype Element = Bottom | Const(literal: Literal) | Top

  function Join(a: Element, b: Element): Element {
    if a.Bottom? then b
    else if b.Bottom? then a
    else if a == b then a
    else Top
  }

  predicate Leq(a: Element, b: Element) {
    a.Bottom? || b.Top? || a == b
  }

  type Facts = map<Value, Element>

  function Fact(state: Facts, v: Value): Element {
    if v in state then state[v] else Top
  }

  predicate Truthy(l: Literal) {
    match l
    case NoneLiteral => false
    case BoolLiteral(b) => b
    case IntLiteral(i) => i != 0
    case FloatLiteral(r) => r != 0.0
    case TextLiteral(s) => s != ""
  }

  predicate Numeric(l: Literal) {
    l.BoolLiteral? || l.IntLiteral? || l.FloatLiteral?
  }

  // ---- transfer ----

  /** What the operators of the language compute on constants; nothing when they raise. */
  datatype Folders = Folders(
    binary: (string, Literal, Literal) -> Option<Literal>,
    compare: (string, Literal, Literal) -> Option<Literal>,
    unary: (string, Literal) -> Option<Literal>)

  const FOLDED := ["add", "sub", "mul", "div", "floor_div", "mod", "bit_or", "bit_xor", "bit_and"]
  const NEGATIONS := ["neg", "pos", "invert"]

  function Folded(r: Option<Literal>): Element {
    if r.Some? then Const(r.value) else Top
  }

  function Binary(folders: Folders, operator: string, left: Element, right: Element): Element {
    if operator in FOLDED && left.Const? && right.Const? && (operator == "mul" ==>
      Numeric(left.literal) && Numeric(right.literal))
    then Folded(folders.binary(operator, left.literal, right.literal))
    else Top
  }

  function Comparison(folders: Folders, operator: string, left: Element, right: Element): Element {
    if left.Const? && right.Const? then Folded(folders.compare(operator, left.literal, right.literal)) else Top
  }

  function Unary(folders: Folders, operator: string, operand: Element): Element {
    if !operand.Const? then Top
    else if operator == "not" then Const(BoolLiteral(!Truthy(operand.literal)))
    else if operator in NEGATIONS && Numeric(operand.literal) then Folded(folders.unary(operator, operand.literal))
    else Top
  }

  function InstructionFact(folders: Folders, i: Instruction, state: Facts): Element {
    if !i.Operation? then Top
    else
      match i.op
      case Constant(l) => Const(l)
      case BinaryOp(o) => if |i.operands| == 2
        then Binary(folders, o, Fact(state, i.operands[0]), Fact(state, i.operands[1])) else Top
      case Compare(o) => if |i.operands| == 2 then Comparison(folders, o, Fact(state, i.operands[0]),
        Fact(state, i.operands[1])) else Top
      case UnaryOp(o) => if |i.operands| == 1 then Unary(folders, o, Fact(state, i.operands[0])) else Top
      case Other(_) => Top
  }

  /** The operands from the edges reached so far. */
  function PhiFact(operands: seq<(Value, BlockId)>, arriving: Arriving<Facts>): Element {
    if operands == [] then Bottom
    else
      var (v, p) := operands[|operands| - 1];
      var before := PhiFact(operands[..|operands| - 1], arriving);
      if p in arriving then Join(before, Fact(arriving[p], v)) else before
  }

  /** One fact for all of some. */
  function JoinAll(facts: set<Element>): Element {
    var known := facts - {Bottom};
    if known == {} then Bottom
    else if |known| == 1 then
      OneElement(known);
      var x :| x in known; x
    else Top
  }

  lemma OneElement(s: set<Element>)
    requires |s| == 1
    ensures forall x, y :: x in s && y in s ==> x == y
  {
    forall x, y | x in s && y in s ensures x == y {
      assert |s - {x}| == 0;
      assert y !in s - {x};
    }
  }

  function FactsAt(arriving: Arriving<Facts>, v: Value): set<Element> {
    set p | p in arriving && v in arriving[p] :: arriving[p][v]
  }

  function Known(arriving: Arriving<Facts>): set<Value> {
    set p, v | p in arriving && v in arriving[p] :: v
  }

  function Joined(arriving: Arriving<Facts>): Facts {
    map v | v in Known(arriving) :: JoinAll(FactsAt(arriving, v))
  }

  function NextFact(folders: Folders, i: Instruction, arriving: Arriving<Facts>, state: Facts): Facts {
    var r := Result(i);
    if r.None? then state
    else state[r.value := if i.Phi? then PhiFact(i.incoming, arriving) else InstructionFact(folders, i, state)]
  }

  /** The state after the first instructions. */
  function FactsAfter(folders: Folders, code: seq<Instruction>, arriving: Arriving<Facts>): Facts {
    if code == [] then Joined(arriving)
    else NextFact(folders, code[|code| - 1], arriving, FactsAfter(folders, code[..|code| - 1], arriving))
  }

  /** The state after a block, given the states on the edges reached. */
  function Evaluated(folders: Folders, b: Block, arriving: Arriving<Facts>): Facts {
    var state := FactsAfter(folders, b.instructions, arriving);
    if ResultOf(b.terminator).Some? then state[ResultOf(b.terminator).value := Top] else state
  }

  /** The blocks control may go on to: a branch whose condition is constant has one side. */
  function Exits(b: Block, state: Facts): seq<BlockId> {
    b.exceptionTargets +
    match b.terminator
    case Branch(c, x, y) =>
      var fact := Fact(state, c);
      if fact.Const? then [if Truthy(fact.literal) then x else y] else [x, y]
    case _ => Targets(b.terminator)
  }

  function Flow(folders: Folders, f: Function, b: BlockId, arriving: Arriving<Facts>): Arriving<Facts> {
    var found := Find(f.blocks, b);
    if found.None? || arriving == map[] then map[]
    else
      var state := Evaluated(folders, found.value, arriving);
      map t | t in Exits(found.value, state) :: state
  }

  // ---- the problem ----

  function Initial(f: Function): Facts {
    map v | v in f.parameters :: Top
  }

  ghost predicate FactsLeq(a: Facts, b: Facts) {
    forall v :: v in a ==> v in b && Leq(a[v], b[v])
  }

  ghost function ElementRank(e: Element): nat {
    match e
    case Bottom => 0
    case Const(_) => 1
    case Top => 2
  }

  ghost function Rank(universe: seq<Value>, state: Facts): nat {
    if universe == [] then 0
    else (if universe[0] in state then 1 + ElementRank(state[universe[0]]) else 0) + Rank(universe[1..], state)
  }

  /** What a state on an edge holds: something about every value defined where the edge leaves,
      and about nothing but the values of the function. */
  ghost predicate EdgeOk(f: Function, b: BlockId, t: BlockId, state: Facts) {
    && (forall v :: v in state ==> v in Definitions(f) && !state[v].Bottom?)
    && (if b == START then t == f.entry && (forall v :: v in f.parameters ==> v in state)
        else
          && Edge(SuccessorTable(f.blocks), b, t) && Find(f.blocks, b).Some?
          && (forall v :: AvailableAtEnd(f, b, v) ==> v in state)
          && (ResultOf(Find(f.blocks, b).value.terminator).Some? ==>
            ResultOf(Find(f.blocks, b).value.terminator).value in state))
  }

  function ConstantProblem(folders: Folders, f: Function): Problem<Facts> {
    Problem(
      Initial(f),
      (b, arriving) => Flow(folders, f, b, arriving),
      (a, b) => FactsLeq(a, b),
      state => Rank(Definitions(f), state),
      3 * |Definitions(f)|,
      (b, t, state) => EdgeOk(f, b, t, state))
  }

  /** The functions propagation is for. */
  ghost predicate Analysable(f: Function) {
    IsSSA(f) && Connected(f) && forall k :: 0 <= k < |f.blocks| ==> f.blocks[k].id != START
  }

  // ---- the join is the least upper bound ----

  lemma LeqLaws(a: Element, b: Element, c: Element)
    ensures Leq(a, a) && (Leq(a, b) && Leq(b, c) ==> Leq(a, c))
    ensures Leq(a, b) && a != b ==> ElementRank(a) < ElementRank(b)
    ensures Leq(a, Join(a, b)) && Leq(b, Join(a, b)) && (Leq(a, c) && Leq(b, c) ==> Leq(Join(a, b), c))
  {
  }

  lemma JoinAllLeast(facts: set<Element>, bound: Element)
    ensures forall x :: x in facts ==> Leq(x, JoinAll(facts))
    ensures (forall x :: x in facts ==> Leq(x, bound)) ==> Leq(JoinAll(facts), bound)
    ensures (exists x :: x in facts && !x.Bottom?) ==> !JoinAll(facts).Bottom?
  {
    var known := facts - {Bottom};
    forall x | x in facts ensures Leq(x, JoinAll(facts)) {
      if x in known && |known| == 1 {
        OneElement(known);
      }
    }
    if known != {} {
      var x :| x in known;
      if |known| == 1 {
        OneElement(known);
      } else {
        TwoElements(known, x);
        var y :| y in known && y != x;
        assert x in facts && y in facts;
      }
    }
  }

  lemma TwoElements(s: set<Element>, x: Element)
    requires x in s && |s| != 1
    ensures exists y :: y in s && y != x
  {
    var t := s - {x};
    assert s == t + {x} && |s| == |t| + 1;
    var y :| y in t;
  }

  // ---- transfer is monotone ----

  lemma InstructionMonotone(folders: Folders, i: Instruction, a: Facts, b: Facts)
    requires forall v :: v in ReadsOf(i) ==> v in a && !a[v].Bottom? && v in b && Leq(a[v], b[v])
    ensures Leq(InstructionFact(folders, i, a), InstructionFact(folders, i, b))
    ensures !InstructionFact(folders, i, a).Bottom?
  {
    if i.Operation? {
      forall k | 0 <= k < |i.operands| ensures Leq(Fact(a, i.operands[k]), Fact(b, i.operands[k]))
        && !Fact(a, i.operands[k]).Bottom? {
        assert i.operands[k] in ReadsOf(i);
      }
    }
  }

  /** The edges reached, and for each what a phi reads. */
  ghost predicate PhiReads(operands: seq<(Value, BlockId)>, arriving: Arriving<Facts>) {
    forall k :: 0 <= k < |operands| && operands[k].1 in arriving ==>
      operands[k].0 in arriving[operands[k].1] && !arriving[operands[k].1][operands[k].0].Bottom?
  }

  lemma {:induction false} PhiMonotone(operands: seq<(Value, BlockId)>, a: Arriving<Facts>, b: Arriving<Facts>)
    requires forall p :: p in a ==> p in b && FactsLeq(a[p], b[p])
    requires PhiReads(operands, a)
    ensures Leq(PhiFact(operands, a), PhiFact(operands, b))
    ensures (exists k :: 0 <= k < |operands| && operands[k].1 in a) ==> !PhiFact(operands, a).Bottom?
  {
    if operands != [] {
      var rest := operands[..|operands| - 1];
      forall k | 0 <= k < |rest| && rest[k].1 in a ensures rest[k].0 in a[rest[k].1]
        && !a[rest[k].1][rest[k].0].Bottom? {
        assert operands[k] == rest[k];
      }
      PhiMonotone(rest, a, b);
      if k :| 0 <= k < |operands| && operands[k].1 in a {
        if k < |rest| { assert rest[k] == operands[k]; }
      }
      JoinMonotone(PhiFact(rest, a), PhiFact(rest, b));
    }
  }

  lemma JoinMonotone(a: Element, b: Element)
    requires Leq(a, b)
    ensures forall x, y :: Leq(x, y) ==> Leq(Join(a, x), Join(b, y))
    ensures forall x :: Leq(a, Join(b, x))
  {
  }

  lemma JoinedMonotone(a: Arriving<Facts>, b: Arriving<Facts>)
    requires forall p :: p in a ==> p in b && FactsLeq(a[p], b[p])
    ensures FactsLeq(Joined(a), Joined(b))
  {
    forall v | v in Joined(a) ensures v in Joined(b) && Leq(Joined(a)[v], Joined(b)[v]) {
      forall x | x in FactsAt(a, v) ensures Leq(x, JoinAll(FactsAt(b, v))) {
        var p :| p in a && v in a[p] && a[p][v] == x;
        assert b[p][v] in FactsAt(b, v);
        JoinAllLeast(FactsAt(b, v), Top);
        LeqLaws(x, b[p][v], JoinAll(FactsAt(b, v)));
      }
      JoinAllLeast(FactsAt(a, v), JoinAll(FactsAt(b, v)));
      var p :| p in a && v in a[p];
      assert v in b[p];
    }
  }

  /** What arrives on one edge is joined in. */
  lemma ArrivesJoined(a: Arriving<Facts>, p: BlockId)
    requires p in a
    ensures FactsLeq(a[p], Joined(a))
  {
    forall v | v in a[p] ensures v in Joined(a) && Leq(a[p][v], Joined(a)[v]) {
      assert a[p][v] in FactsAt(a, v);
      JoinAllLeast(FactsAt(a, v), Top);
    }
  }

  lemma JoinedKnown(a: Arriving<Facts>, v: Value)
    requires v in Joined(a) && forall p :: p in a ==> forall u :: u in a[p] ==> !a[p][u].Bottom?
    ensures !Joined(a)[v].Bottom? && exists p :: p in a && v in a[p]
  {
    var p :| p in a && v in a[p];
    assert a[p][v] in FactsAt(a, v);
    JoinAllLeast(FactsAt(a, v), Top);
  }

  // ---- what is known while a block is evaluated ----

  /** Every instruction finds the facts it reads. */
  ghost predicate Reading(code: seq<Instruction>, k: nat, arriving: Arriving<Facts>, state: Facts)
    requires k < |code|
  {
    && (forall v :: v in ReadsOf(code[k]) ==> v in state)
    && (code[k].Phi? ==>
      PhiReads(code[k].incoming, arriving) && exists j :: 0 <= j < |code[k].incoming| && code[k].incoming[j].1 in arriving)
  }

  /** The facts after each prefix hold something about all that was known and computed. */
  lemma {:induction false} AfterKeys(folders: Folders, code: seq<Instruction>, arriving: Arriving<Facts>)
    ensures forall v :: v in FactsAfter(folders, code, arriving) <==> v in Known(arriving) || v in Results(code)
  {
    if code != [] {
      AfterKeys(folders, code[..|code| - 1], arriving);
    }
  }

  lemma {:induction false} AfterMonotone(folders: Folders, code: seq<Instruction>, k: nat, a: Arriving<Facts>,
      b: Arriving<Facts>)
    requires k <= |code| && forall p :: p in a ==> p in b && FactsLeq(a[p], b[p])
    requires forall p :: p in a ==> forall u :: u in a[p] ==> !a[p][u].Bottom?
    requires forall i: nat :: i < |code| ==> Reading(code, i, a, FactsAfter(folders, code[..i], a))
    ensures FactsLeq(FactsAfter(folders, code[..k], a), FactsAfter(folders, code[..k], b))
    ensures forall v :: v in FactsAfter(folders, code[..k], a) ==> !FactsAfter(folders, code[..k], a)[v].Bottom?
  {
    if k == 0 {
      JoinedMonotone(a, b);
      forall v | v in Joined(a) ensures !Joined(a)[v].Bottom? {
        JoinedKnown(a, v);
      }
    } else {
      AfterMonotone(folders, code, k - 1, a, b);
      assert code[..k][..k - 1] == code[..k - 1];
      var i := code[k - 1];
      assert Reading(code, k - 1, a, FactsAfter(folders, code[..k - 1], a));
      NextMonotone(folders, i, a, b, FactsAfter(folders, code[..k - 1], a), FactsAfter(folders, code[..k - 1], b));
    }
  }

  lemma NextMonotone(folders: Folders, i: Instruction, a: Arriving<Facts>, b: Arriving<Facts>, x: Facts, y: Facts)
    requires (forall p :: p in a ==> p in b && FactsLeq(a[p], b[p])) && FactsLeq(x, y)
    requires forall v :: v in x ==> !x[v].Bottom?
    requires forall v :: v in ReadsOf(i) ==> v in x
    requires i.Phi? ==> PhiReads(i.incoming, a) && exists j :: 0 <= j < |i.incoming| && i.incoming[j].1 in a
    ensures FactsLeq(NextFact(folders, i, a, x), NextFact(folders, i, b, y))
    ensures forall v :: v in NextFact(folders, i, a, x) ==> !NextFact(folders, i, a, x)[v].Bottom?
  {
    if i.Phi? {
      PhiMonotone(i.incoming, a, b);
    } else {
      InstructionMonotone(folders, i, x, y);
    }
  }

  // ---- the problem is lawful ----

  ghost predicate ArrivingOk(f: Function, b: BlockId, arriving: Arriving<Facts>) {
    arriving != map[] && forall q :: q in arriving ==> EdgeOk(f, q, b, arriving[q])
  }

  lemma NotFromStart(f: Function, b: BlockId)
    requires Analysable(f) && Find(f.blocks, b).Some?
    ensures b != START
  {
    var k := FindWhere(f.blocks, b);
  }

  /** What is defined wherever a block starts arrives on every edge into it. */
  lemma DefinedArrives(f: Function, b: BlockId, arriving: Arriving<Facts>, q: BlockId, v: Value)
    requires Analysable(f) && ArrivingOk(f, b, arriving) && q in arriving
    requires v in f.parameters || (exists c :: SSAProperties.DefinedAbove(f, c, b, v)) || ItemOf(f, b, v)
    ensures v in arriving[q]
  {
    hide IsSSA;
    assert EdgeOk(f, q, b, arriving[q]);
    if q == START {
      EntryDefines(f, v);
    } else if v in f.parameters {
      assert AvailableAtEnd(f, q, v);
    } else if c :| SSAProperties.DefinedAbove(f, c, b, v) {
      AboveArrives(f, b, q, c, v);
    } else {
      var h :| Find(f.blocks, h).Some? && var t := Find(f.blocks, h).value.terminator; t.ForNext? && t.body == b && t.result == Some(v);
      assert OwnBody(f, h);
    }
  }

  lemma EntryDefines(f: Function, v: Value)
    requires Connected(f)
    ensures !(exists c :: SSAProperties.DefinedAbove(f, c, f.entry, v)) && !ItemOf(f, f.entry, v)
  {
    var succ := SuccessorTable(f.blocks);
    assert WalkTo(succ, [f.entry], f.entry, f.entry);
    if h :| Find(f.blocks, h).Some? && var t := Find(f.blocks, h).value.terminator; t.ForNext? && t.body == f.entry && t.result == Some(v) {
      BodyIsTarget(Find(f.blocks, h).value);
      assert Edge(succ, h, f.entry);
    }
  }

  lemma BodyIsTarget(b: Block)
    requires b.terminator.ForNext?
    ensures b.terminator.body in Successors(b)
  {
    assert Targets(b.terminator)[0] == b.terminator.body;
  }

  lemma AboveArrives(f: Function, b: BlockId, q: BlockId, c: BlockId, v: Value)
    requires SSAProperties.DefinedAbove(f, c, b, v) && Edge(SuccessorTable(f.blocks), q, b) && Find(f.blocks, q).Some?
    ensures AvailableAtEnd(f, q, v)
  {
    var succ := SuccessorTable(f.blocks);
    Dominators.DominatesPredecessor(succ, f.entry, q, b, c);
    var code := Find(f.blocks, q).value.instructions;
    assert code[..|code|] == code;
    if c != q {
      assert SSAProperties.DefinedAbove(f, c, q, v);
    }
  }

  /** What is defined before a position is known there. */
  lemma AvailableIsKnown(folders: Folders, f: Function, b: BlockId, arriving: Arriving<Facts>, k: nat, v: Value)
    requires Analysable(f) && ArrivingOk(f, b, arriving) && Find(f.blocks, b).Some?
      && k <= |Find(f.blocks, b).value.instructions|
    requires Available(f, b, k, v)
    ensures v in FactsAfter(folders, Find(f.blocks, b).value.instructions[..k], arriving)
  {
    hide Analysable, ArrivingOk, SSAProperties.DefinedAbove, ItemOf, FactsAfter;
    var code := Find(f.blocks, b).value.instructions[..k];
    AfterKeys(folders, code, arriving);
    if v !in Results(code) {
      SomeArrives(f, b, arriving);
      var q :| q in arriving;
      DefinedArrives(f, b, arriving, q, v);
    }
  }

  lemma SomeArrives(f: Function, b: BlockId, arriving: Arriving<Facts>)
    requires ArrivingOk(f, b, arriving)
    ensures exists q :: q in arriving
  {
    if forall q :: q !in arriving {
      NothingArrives(arriving);
    }
  }

  lemma NothingArrives(arriving: Arriving<Facts>)
    requires forall q :: q !in arriving
    ensures arriving == map[]
  {
  }

  lemma BlockReads(folders: Folders, f: Function, b: BlockId, arriving: Arriving<Facts>, k: nat)
    requires Analysable(f) && ArrivingOk(f, b, arriving) && Find(f.blocks, b).Some?
      && k < |Find(f.blocks, b).value.instructions|
    ensures var code := Find(f.blocks, b).value.instructions;
      Reading(code, k, arriving, FactsAfter(folders, code[..k], arriving))
  {
    hide Available, FactsAfter, Connected;
    var code := Find(f.blocks, b).value.instructions;
    assert UsesAvailable(f, b);
    forall v | v in ReadsOf(code[k]) ensures v in FactsAfter(folders, code[..k], arriving) {
      AvailableIsKnown(folders, f, b, arriving, k, v);
    }
    if code[k].Phi? {
      PhiArrives(f, b, arriving, k);
    }
  }

  lemma PhiArrives(f: Function, b: BlockId, arriving: Arriving<Facts>, k: nat)
    requires Analysable(f) && ArrivingOk(f, b, arriving) && Find(f.blocks, b).Some?
      && k < |Find(f.blocks, b).value.instructions|
    requires Find(f.blocks, b).value.instructions[k].Phi? && UsesAvailable(f, b)
    ensures var i := Find(f.blocks, b).value.instructions[k];
      PhiReads(i.incoming, arriving) && exists j :: 0 <= j < |i.incoming| && i.incoming[j].1 in arriving
  {
    hide IsSSA, Available, EdgeOk, Connected, PredecessorsIn;
    var i := Find(f.blocks, b).value.instructions[k];
    assert OperandsAvailable(f, b, i.incoming);
    forall j | 0 <= j < |i.incoming| && i.incoming[j].1 in arriving
      ensures i.incoming[j].0 in arriving[i.incoming[j].1] && !arriving[i.incoming[j].1][i.incoming[j].0].Bottom?
    {
      NotFromStart(f, i.incoming[j].1);
      OperandArrives(f, i.incoming[j].1, b, arriving[i.incoming[j].1], i.incoming[j].0);
    }
    SomeArrives(f, b, arriving);
    var q :| q in arriving;
    EdgeIn(f, q, b, arriving[q], k);
    var j :| 0 <= j < |Sources(i.incoming)| && Sources(i.incoming)[j] == q;
    assert i.incoming[j].1 == q;
  }

  lemma OperandArrives(f: Function, p: BlockId, b: BlockId, state: Facts, v: Value)
    requires EdgeOk(f, p, b, state) && p != START && AvailableAtEnd(f, p, v)
    ensures v in state && !state[v].Bottom?
  {
  }

  /** A block with a phi is not the entry, so what arrives comes from a predecessor. */
  lemma EdgeIn(f: Function, q: BlockId, b: BlockId, state: Facts, k: nat)
    requires Analysable(f) && EdgeOk(f, q, b, state) && Find(f.blocks, b).Some?
      && k < |Find(f.blocks, b).value.instructions|
    requires Find(f.blocks, b).value.instructions[k].Phi?
    ensures q in PredecessorsIn(f.blocks, (set p | p in Ids(f.blocks)), b)
  {
    hide IsSSA, PredecessorsIn;
    if q != START {
      IsPredecessor(f, q, b);
    }
  }

  lemma IsPredecessor(f: Function, q: BlockId, b: BlockId)
    requires DistinctIds(f.blocks) && Edge(SuccessorTable(f.blocks), q, b)
    ensures q in PredecessorsIn(f.blocks, (set p | p in Ids(f.blocks)), b)
  {
    InPredecessors(f.blocks, (set p | p in Ids(f.blocks)), b, q);
    var k := FindWhere(f.blocks, q);
    assert Ids(f.blocks)[k] == q;
  }

  /** A block's results are values of the function. */
  lemma DefinesAreDefinitions(f: Function, b: BlockId, v: Value)
    requires Find(f.blocks, b).Some? && v in Defines(Find(f.blocks, b).value)
    ensures v in Definitions(f)
  {
    var k := FindWhere(f.blocks, b);
    InAllDefined(f.blocks, v);
  }

  /** What holds of the state after a block. */
  ghost predicate StateOk(f: Function, b: BlockId, state: Facts)
    requires Find(f.blocks, b).Some?
  {
    && (forall v :: v in state ==> v in Definitions(f) && !state[v].Bottom?)
    && (forall v :: AvailableAtEnd(f, b, v) ==> v in state)
    && (ResultOf(Find(f.blocks, b).value.terminator).Some? ==>
      ResultOf(Find(f.blocks, b).value.terminator).value in state)
  }

  lemma EvaluatedOk(folders: Folders, f: Function, b: BlockId, arriving: Arriving<Facts>)
    requires Analysable(f) && ArrivingOk(f, b, arriving) && Find(f.blocks, b).Some?
    ensures StateOk(f, b, Evaluated(folders, Find(f.blocks, b).value, arriving))
  {
    hide Analysable, FactsAfter, Available, Definitions, Reading, EdgeOk, Results;
    var block := Find(f.blocks, b).value;
    var code := block.instructions;
    var state := Evaluated(folders, block, arriving);
    assert code[..|code|] == code;
    EdgesHold(f, b, arriving);
    forall k: nat | k < |code| ensures Reading(code, k, arriving, FactsAfter(folders, code[..k], arriving)) {
      BlockReads(folders, f, b, arriving, k);
    }
    SelfLeq(arriving);
    AfterMonotone(folders, code, |code|, arriving, arriving);
    AfterKeys(folders, code, arriving);
    forall v | v in state ensures v in Definitions(f) {
      if v in Known(arriving) {
        var p :| p in arriving && v in arriving[p];
      } else {
        if v in Results(code) {
          assert v in Defines(block);
        } else {
          assert Defines(block)[|Results(code)|] == v;
        }
        DefinesAreDefinitions(f, b, v);
      }
    }
    forall v | AvailableAtEnd(f, b, v) ensures v in state {
      AvailableIsKnown(folders, f, b, arriving, |code|, v);
    }
  }

  lemma EdgesHold(f: Function, b: BlockId, arriving: Arriving<Facts>)
    requires ArrivingOk(f, b, arriving)
    ensures forall p :: p in arriving ==> forall v :: v in arriving[p] ==>
      v in Definitions(f) && !arriving[p][v].Bottom?
  {
    forall p | p in arriving ensures forall v :: v in arriving[p] ==> v in Definitions(f) && !arriving[p][v].Bottom? {
      assert EdgeOk(f, p, b, arriving[p]);
    }
  }

  lemma SelfLeq(arriving: Arriving<Facts>)
    ensures forall p :: p in arriving ==> FactsLeq(arriving[p], arriving[p])
  {
  }

  /** What a block sends keeps the promise of its edges. */
  lemma FlowOk(folders: Folders, f: Function, b: BlockId, arriving: Arriving<Facts>, t: BlockId)
    requires Analysable(f) && ArrivingOk(f, b, arriving) && Find(f.blocks, b).Some?
      && t in Flow(folders, f, b, arriving)
    ensures Find(f.blocks, t).Some? && EdgeOk(f, b, t, Flow(folders, f, b, arriving)[t])
  {
    hide IsSSA, Evaluated, ArrivingOk, Definitions, AvailableAtEnd;
    EvaluatedOk(folders, f, b, arriving);
    NotFromStart(f, b);
    var block := Find(f.blocks, b).value;
    ExitsAreSuccessors(block, Evaluated(folders, block, arriving), t);
    assert Edge(SuccessorTable(f.blocks), b, t);
  }

  lemma ExitsAreSuccessors(b: Block, state: Facts, t: BlockId)
    requires t in Exits(b, state)
    ensures t in Successors(b)
  {
    if t !in b.exceptionTargets {
      assert t in Targets(b.terminator);
    }
  }

  lemma FlowMonotone(folders: Folders, f: Function, b: BlockId, a: Arriving<Facts>, a': Arriving<Facts>)
    requires Analysable(f) && ArrivingOk(f, b, a) && Find(f.blocks, b).Some?
    requires forall p :: p in a ==> p in a' && FactsLeq(a[p], a'[p])
    ensures forall t :: t in Flow(folders, f, b, a) ==>
      t in Flow(folders, f, b, a') && FactsLeq(Flow(folders, f, b, a)[t], Flow(folders, f, b, a')[t])
  {
    hide Analysable, FactsAfter, Available, Definitions, Reading, EdgeOk, Results, FactsLeq, AvailableAtEnd;
    var block := Find(f.blocks, b).value;
    var code := block.instructions;
    assert code[..|code|] == code;
    EdgesHold(f, b, a);
    forall k: nat | k < |code| ensures Reading(code, k, a, FactsAfter(folders, code[..k], a)) {
      BlockReads(folders, f, b, a, k);
    }
    AfterMonotone(folders, code, |code|, a, a');
    var x, y := Evaluated(folders, block, a), Evaluated(folders, block, a');
    ItemMonotone(FactsAfter(folders, code, a), FactsAfter(folders, code, a'), ResultOf(block.terminator));
    if block.terminator.Branch? {
      EvaluatedOk(folders, f, b, a);
      ConditionKnown(f, b);
    }
    ExitsMonotone(block, x, y);
    SomeArrives(f, b, a);
  }

  lemma ItemMonotone(a: Facts, b: Facts, result: Option<Value>)
    requires FactsLeq(a, b)
    ensures FactsLeq(if result.Some? then a[result.value := Top] else a, if result.Some? then b[result.value := Top]
      else b)
  {
  }

  lemma ConditionKnown(f: Function, b: BlockId)
    requires Analysable(f) && Find(f.blocks, b).Some? && Find(f.blocks, b).value.terminator.Branch?
    ensures AvailableAtEnd(f, b, Find(f.blocks, b).value.terminator.condition)
  {
    assert UsesAvailable(f, b);
    assert Find(f.blocks, b).value.terminator.condition in Reads(Find(f.blocks, b).value.terminator);
  }

  lemma ExitsMonotone(b: Block, x: Facts, y: Facts)
    requires FactsLeq(x, y) && (b.terminator.Branch? ==>
      b.terminator.condition in x && !x[b.terminator.condition].Bottom?)
    ensures forall t :: t in Exits(b, x) ==> t in Exits(b, y)
  {
  }

  lemma {:induction false} RankGrows(universe: seq<Value>, a: Facts, b: Facts)
    requires FactsLeq(a, b)
    ensures Rank(universe, a) <= Rank(universe, b) <= 3 * |universe|
    ensures (exists v :: v in universe && (v !in a || v !in b || a[v] != b[v]) && (v in a || v in b)) ==>
      Rank(universe, a) < Rank(universe, b)
    decreases |universe|
  {
    if universe != [] {
      RankGrows(universe[1..], a, b);
      var v := universe[0];
      if v in a {
        LeqLaws(a[v], b[v], Top);
      }
    }
  }

  lemma SameFacts(a: Facts, c: Facts)
    requires FactsLeq(a, c) && forall v :: v in c ==> v in a && a[v] == c[v]
    ensures a == c
  {
    assert a.Keys == c.Keys;
  }

  lemma RankLaws(f: Function, b: BlockId, t: BlockId, a: Facts, c: Facts)
    requires EdgeOk(f, b, t, a) && EdgeOk(f, b, t, c) && FactsLeq(a, c) && a != c
    ensures Rank(Definitions(f), a) < Rank(Definitions(f), c)
  {
    hide Definitions;
    RankGrows(Definitions(f), a, c);
    if forall v :: v in c ==> v in a && a[v] == c[v] {
      SameFacts(a, c);
    }
    var v :| v in c && !(v in a && a[v] == c[v]);
    assert v in Definitions(f);
  }

  lemma ConstantsAreLawful(folders: Folders, f: Function)
    requires Analysable(f)
    ensures Lawful(ConstantProblem(folders, f), Solver.AsSet(Ids(f.blocks)))
  {
    hide Analysable, EdgeOk, Definitions, Flow, FactsLeq, Rank;
    var p := ConstantProblem(folders, f);
    var blocks := Solver.AsSet(Ids(f.blocks));
    forall a, b, c ensures p.leq(a, a) && (p.leq(a, b) && p.leq(b, c) ==> p.leq(a, c)) {
      FactsLeqLaws(a, b, c);
    }
    forall b, t, a, c | p.ok(b, t, a) && p.ok(b, t, c) && p.leq(a, c) && a != c ensures p.rank(a) < p.rank(c) {
      RankLaws(f, b, t, a, c);
    }
    forall b, t, a | p.ok(b, t, a) ensures p.rank(a) <= p.height {
      FactsLeqLaws(a, a, a);
      RankGrows(Definitions(f), a, a);
    }
    forall b, a | b in blocks && AllOk(p, b, a) ensures SendsOk(p, blocks, b, a) {
      IdFound(f, b);
      forall t | t in p.flow(b, a) ensures t in blocks && p.ok(b, t, p.flow(b, a)[t]) {
        FlowOk(folders, f, b, a, t);
        FoundId(f, t);
      }
    }
    forall b, a, a' | b in blocks && AllOk(p, b, a) && AllOk(p, b, a') && Below(p, a, a')
      ensures Below(p, p.flow(b, a), p.flow(b, a')) {
      IdFound(f, b);
      FlowMonotone(folders, f, b, a, a');
    }
    StartIsNoBlock(f);
  }

  lemma FactsLeqLaws(a: Facts, b: Facts, c: Facts)
    ensures FactsLeq(a, a) && (FactsLeq(a, b) && FactsLeq(b, c) ==> FactsLeq(a, c))
  {
    if FactsLeq(a, b) && FactsLeq(b, c) {
      forall v | v in a ensures v in c && Leq(a[v], c[v]) {
        LeqLaws(a[v], b[v], c[v]);
      }
    }
  }

  lemma IdFound(f: Function, b: BlockId)
    requires Analysable(f) && b in Ids(f.blocks)
    ensures Find(f.blocks, b).Some?
  {
    var k :| 0 <= k < |Ids(f.blocks)| && Ids(f.blocks)[k] == b;
    FindAt(f.blocks, k);
  }

  lemma FoundId(f: Function, b: BlockId)
    requires Find(f.blocks, b).Some?
    ensures b in Ids(f.blocks)
  {
    var k := FindWhere(f.blocks, b);
    assert Ids(f.blocks)[k] == b;
  }

  lemma StartIsNoBlock(f: Function)
    requires Analysable(f)
    ensures START !in Ids(f.blocks)
  {
  }

  // ---- propagation ----

  /** The states of two edges, taken together. */
  function Merged(a: Facts, b: Facts): Facts {
    map v | v in a.Keys + b.Keys :: if v in a && v in b then Join(a[v], b[v]) else if v in a then a[v] else b[v]
  }

  lemma LeqBothWays(a: Element, b: Element)
    requires Leq(a, b) && Leq(b, a)
    ensures a == b
  {
  }

  lemma JoinAllMore(facts: set<Element>, x: Element)
    ensures facts != {} ==> JoinAll(facts + {x}) == Join(JoinAll(facts), x)
    ensures JoinAll({x}) == x
  {
    var all := facts + {x};
    JoinAllLeast(all, Join(JoinAll(facts), x));
    JoinAllLeast(facts, JoinAll(all));
    JoinAllLeast(facts, Join(JoinAll(facts), x));
    forall y | y in all ensures Leq(y, Join(JoinAll(facts), x)) {
      LeqLaws(JoinAll(facts), x, Top);
      LeqLaws(y, JoinAll(facts), Join(JoinAll(facts), x));
    }
    LeqLaws(JoinAll(facts), x, JoinAll(all));
    LeqBothWays(JoinAll(all), Join(JoinAll(facts), x));
    JoinAllLeast({x}, x);
    LeqBothWays(JoinAll({x}), x);
  }

  lemma KnownMore(arriving: Arriving<Facts>, p: BlockId, state: Facts)
    requires p !in arriving
    ensures forall v {:trigger v in Known(arriving[p := state])} :: v in Known(arriving[p := state]) <==>
      v in Known(arriving) || v in state
  {
    var more := arriving[p := state];
    forall v ensures v in Known(more) <==> v in Known(arriving) || v in state {
      if v in Known(arriving) {
        var q :| q in arriving && v in arriving[q];
        assert q in more && v in more[q];
      }
      if v in state {
        assert p in more && v in more[p];
      }
    }
  }

  lemma JoinedMore(arriving: Arriving<Facts>, p: BlockId, state: Facts)
    requires p !in arriving
    ensures Joined(arriving[p := state]) == Merged(Joined(arriving), state)
  {
    var more := arriving[p := state];
    KnownMore(arriving, p, state);
    hide Known, JoinAll, FactsAt, Join;
    var joined, merged := Joined(more), Merged(Joined(arriving), state);
    forall v | v in joined ensures v in merged && joined[v] == merged[v] {
      JoinedMoreAt(arriving, p, state, v);
    }
    assert joined.Keys == merged.Keys;
  }

  lemma JoinedMoreAt(arriving: Arriving<Facts>, p: BlockId, state: Facts, v: Value)
    requires p !in arriving && (v in Known(arriving) || v in state)
    ensures JoinAll(FactsAt(arriving[p := state], v))
         == if v in Known(arriving) && v in state then Join(JoinAll(FactsAt(arriving, v)), state[v])
            else if v in Known(arriving) then JoinAll(FactsAt(arriving, v)) else state[v]
  {
    hide JoinAll;
    FactsMore(arriving, p, state, v);
    assert v !in state ==> FactsAt(arriving[p := state], v) == FactsAt(arriving, v);
    JoinAllMore(FactsAt(arriving, v), if v in state then state[v] else Top);
    if v in Known(arriving) {
      var q :| q in arriving && v in arriving[q];
      assert arriving[q][v] in FactsAt(arriving, v);
    } else {
      assert FactsAt(arriving, v) == {} && {} + {state[v]} == {state[v]};
    }
  }

  lemma FactsMore(arriving: Arriving<Facts>, p: BlockId, state: Facts, v: Value)
    requires p !in arriving
    ensures FactsAt(arriving[p := state], v) == FactsAt(arriving, v) + (if v in state then {state[v]} else {})
  {
    var more := arriving[p := state];
    forall x | x in FactsAt(arriving, v) ensures x in FactsAt(more, v) {
      var q :| q in arriving && v in arriving[q] && arriving[q][v] == x;
      assert q in more && more[q][v] == x;
    }
    if v in state {
      assert more[p][v] in FactsAt(more, v);
    }
  }

  /** The state after a block, given the states on the edges reached. */
  method Evaluate(folders: Folders, b: Block, arriving: Arriving<Facts>) returns (state: Facts)
    ensures state == Evaluated(folders, b, arriving)
  {
    state := map[];
    var rest := arriving.Keys;
    ghost var seen: Arriving<Facts> := map[];
    assert Joined(seen) == state;
    while rest != {}
      invariant rest <= arriving.Keys && seen.Keys == arriving.Keys - rest
      invariant (forall p :: p in seen ==> seen[p] == arriving[p]) && state == Joined(seen)
    {
      var p :| p in rest;
      JoinedMore(seen, p, arriving[p]);
      state, seen, rest := Merged(state, arriving[p]), seen[p := arriving[p]], rest - {p};
    }
    assert seen == arriving;
    for k := 0 to |b.instructions|
      invariant state == FactsAfter(folders, b.instructions[..k], arriving)
    {
      assert b.instructions[..k + 1][..k] == b.instructions[..k];
      state := NextFact(folders, b.instructions[k], arriving, state);
    }
    assert b.instructions[..|b.instructions|] == b.instructions;
    if b.terminator.ForNext? && b.terminator.result.Some? {
      state := state[b.terminator.result.value := Top];
    }
  }

  /** The state at the end of a reached block. */
  function Out(folders: Folders, f: Function, e: Edges<Facts>, b: BlockId): Facts {
    if b in e && Find(f.blocks, b).Some? then Evaluated(folders, Find(f.blocks, b).value, e[b]) else map[]
  }

  ghost predicate Solves(folders: Folders, f: Function, e: Edges<Facts>) {
    IsSolution(ConstantProblem(folders, f), Solver.AsSet(Ids(f.blocks)), {f.entry}, e)
  }

  ghost predicate IsPropagation(folders: Folders, f: Function, values: Facts, reachable: set<BlockId>) {
    exists e :: Solves(folders, f, e) && Collected(folders, f, e, values, reachable) && reachable == e.Keys
  }

  method PropagateConstants(folders: Folders, f: Function) returns (values: Facts, reachable: set<BlockId>)
    requires Analysable(f)
    ensures IsPropagation(folders, f, values, reachable)
  {
    hide Lawful, IsSolution, IsSSA, EdgeOk, Evaluated, Collected;
    ConstantsAreLawful(folders, f);
    StartsOk(folders, f);
    var p := ConstantProblem(folders, f);
    var e := Solve(p, Ids(f.blocks), [f.entry]);
    assert Solver.AsSet([f.entry]) == {f.entry};
    values, reachable := Collect(folders, f, e);
    AllReached(folders, f, e, reachable);
  }

  /** The facts of the blocks in `reachable`, a later one's in place of an earlier one's. */
  ghost predicate Collected(folders: Folders, f: Function, e: Edges<Facts>, values: Facts, reachable: set<BlockId>) {
    && reachable <= e.Keys
    && (forall b, v {:trigger v in Out(folders, f, e, b)} :: b in reachable && v in Out(folders, f, e, b) ==>
      v in values)
    && (forall v :: v in values ==> FactFrom(folders, f, e, reachable, v, values[v]))
  }

  ghost predicate FactFrom(folders: Folders, f: Function, e: Edges<Facts>, reachable: set<BlockId>, v: Value,
      x: Element) {
    exists b :: b in reachable && v in Out(folders, f, e, b) && Out(folders, f, e, b)[v] == x
  }

  lemma CollectedMore(folders: Folders, f: Function, e: Edges<Facts>, values: Facts, reachable: set<BlockId>,
      b: BlockId)
    requires Collected(folders, f, e, values, reachable) && b in e
    ensures Collected(folders, f, e, values + Out(folders, f, e, b), reachable + {b})
  {
    hide Out;
    var more := values + Out(folders, f, e, b);
    forall v | v in more ensures FactFrom(folders, f, e, reachable + {b}, v, more[v]) {
      if v !in Out(folders, f, e, b) {
        assert FactFrom(folders, f, e, reachable, v, values[v]);
        var c :| c in reachable && v in Out(folders, f, e, c) && Out(folders, f, e, c)[v] == values[v];
        assert c in reachable + {b};
      } else {
        assert b in reachable + {b};
      }
    }
  }

  method Collect(folders: Folders, f: Function, e: Edges<Facts>) returns (values: Facts, reachable: set<BlockId>)
    requires DistinctIds(f.blocks)
    ensures Collected(folders, f, e, values, reachable)
    ensures forall b :: b in reachable <==> b in e && exists j :: 0 <= j < |f.blocks| && f.blocks[j].id == b
  {
    hide Collected, Evaluated, Find, DistinctIds;
    values, reachable := map[], {};
    NoneCollected(folders, f, e);
    for k := 0 to |f.blocks|
      invariant forall b :: b in reachable <==> b in e && exists j :: 0 <= j < k && f.blocks[j].id == b
      invariant Collected(folders, f, e, values, reachable)
    {
      var block := f.blocks[k];
      FindAt(f.blocks, k);
      if block.id in e {
        var state := Evaluate(folders, block, e[block.id]);
        CollectedMore(folders, f, e, values, reachable, block.id);
        values := values + state;
        reachable := reachable + {block.id};
      }
    }
  }

  lemma NoneCollected(folders: Folders, f: Function, e: Edges<Facts>)
    ensures Collected(folders, f, e, map[], {})
  {
  }

  lemma StartsOk(folders: Folders, f: Function)
    requires Analysable(f)
    ensures f.entry in Ids(f.blocks) && EdgeOk(f, START, f.entry, Initial(f))
  {
    hide IsSSA;
    FoundId(f, f.entry);
  }

  lemma AllReached(folders: Folders, f: Function, e: Edges<Facts>, reachable: set<BlockId>)
    requires Solves(folders, f, e)
    requires forall b :: b in reachable <==> b in e && exists j :: 0 <= j < |f.blocks| && f.blocks[j].id == b
    ensures reachable == e.Keys
  {
    hide Least, Settled, Traced, AllOk;
    forall b | b in e ensures b in reachable {
      assert b in Ids(f.blocks);
      var k :| 0 <= k < |Ids(f.blocks)| && Ids(f.blocks)[k] == b;
      assert f.blocks[k].id == b;
    }
  }
}
