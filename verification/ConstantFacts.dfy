/** What propagation returns, exactly: the facts and reachable blocks are the least solution of one
    equation for each instruction and each edge. */
module ConstantFacts {
  import opened Graphs
  import opened Options
  import opened IR
  import opened SSAForm
  import opened SSAProperties
  import opened Solver
  import opened Constants
  import opened ConstantSoundness

  // ---- the equations ----

  /** The literals a test fails on. */
  predicate IsFalse(l: Literal) {
    l in {NoneLiteral, BoolLiteral(false), IntLiteral(0), FloatLiteral(0.0), TextLiteral("")}
  }

  predicate IsNumber(l: Literal) {
    match l
    case BoolLiteral(_) => true
    case IntLiteral(_) => true
    case FloatLiteral(_) => true
    case _ => false
  }

  ghost predicate IsConst(values: Facts, v: Value, l: Literal) {
    v in values && values[v] == Const(l)
  }

  /** The operators computed on constants; multiplying anything but numbers is not. */
  predicate Computable(operator: string, x: Literal, y: Literal) {
    || operator in {"add", "sub", "div", "floor_div", "mod", "bit_or", "bit_xor", "bit_and"}
    || (operator == "mul" && IsNumber(x) && IsNumber(y))
  }

  /** The operation comes to the constant `l`. */
  ghost predicate ComesTo(folders: Folders, op: Op, operands: seq<Value>, values: Facts, l: Literal) {
    match op
    case Constant(c) => l == c
    case BinaryOp(o) => |operands| == 2 && exists x, y ::
      IsConst(values, operands[0], x) && IsConst(values, operands[1], y) && Computable(o, x, y)
      && folders.binary(o, x, y) == Some(l)
    case Compare(o) => |operands| == 2 && exists x, y ::
      IsConst(values, operands[0], x) && IsConst(values, operands[1], y) && folders.compare(o, x, y) == Some(l)
    case UnaryOp(o) => |operands| == 1 && exists x ::
      IsConst(values, operands[0], x)
      && if o == "not" then l == BoolLiteral(IsFalse(x))
         else o in {"neg", "pos", "invert"} && IsNumber(x) && folders.unary(o, x) == Some(l)
    case Other(_) => false
  }

  /** Control may go on from `b` to `t`: to a handler, or after a branch on a constant to its side only. */
  ghost predicate Opens(values: Facts, b: Block, t: BlockId) {
    || t in b.exceptionTargets
    || match b.terminator
       case Branch(c, x, y) =>
         (t == x && forall l :: IsConst(values, c, l) ==> !IsFalse(l))
         || (t == y && forall l :: IsConst(values, c, l) ==> IsFalse(l))
       case Jump(a) => t == a
       case ForNext(_, _, body, exit, _) => t == body || t == exit
       case _ => false
  }

  ghost predicate GoesOn(f: Function, values: Facts, reachable: set<BlockId>, p: BlockId, t: BlockId) {
    p in reachable && Find(f.blocks, p).Some? && Opens(values, Find(f.blocks, p).value, t)
  }

  /** All a phi reads over the edges control may come by is the constant `l`. */
  ghost predicate ReadsOnly(f: Function, values: Facts, reachable: set<BlockId>, b: BlockId,
      incoming: seq<(Value, BlockId)>, l: Literal) {
    forall k :: 0 <= k < |incoming| && GoesOn(f, values, reachable, incoming[k].1, b) ==>
      IsConst(values, incoming[k].0, l)
  }

  /** The fact of what instruction `i` of block `b` makes. */
  ghost predicate IsFact(folders: Folders, f: Function, values: Facts, reachable: set<BlockId>, b: BlockId,
      i: Instruction, x: Element) {
    && !x.Bottom?
    && match i
       case Operation(_, op, operands) => forall l :: x == Const(l) <==> ComesTo(folders, op, operands, values, l)
       case Phi(_, _, incoming) => forall l :: x == Const(l) <==> ReadsOnly(f, values, reachable, b, incoming, l)
       case _ => x == Top
  }

  ghost predicate ResultIsFact(folders: Folders, f: Function, values: Facts, reachable: set<BlockId>, b: BlockId,
      i: Instruction) {
    Result(i).Some? ==>
      Result(i).value in values && IsFact(folders, f, values, reachable, b, i, values[Result(i).value])
  }

  ghost predicate BlockFacts(folders: Folders, f: Function, values: Facts, reachable: set<BlockId>, b: BlockId) {
    && Find(f.blocks, b).Some?
    && (b == f.entry || exists p :: GoesOn(f, values, reachable, p, b))
    && var block := Find(f.blocks, b).value;
    && (forall k {:trigger block.instructions[k]} :: 0 <= k < |block.instructions| ==>
          ResultIsFact(folders, f, values, reachable, b, block.instructions[k]))
    && (ResultOf(block.terminator).Some? ==>
          ResultOf(block.terminator).value in values && values[ResultOf(block.terminator).value] == Top)
  }

  /** The facts and the reachable blocks satisfy every equation, and are about nothing else. */
  ghost predicate AreFacts(folders: Folders, f: Function, values: Facts, reachable: set<BlockId>) {
    && f.entry in reachable
    && (forall b {:trigger BlockFacts(folders, f, values, reachable, b)} :: b in reachable ==>
          BlockFacts(folders, f, values, reachable, b))
    && (forall p, t {:trigger GoesOn(f, values, reachable, p, t)} :: GoesOn(f, values, reachable, p, t) ==>
          t in reachable)
    && (forall v :: v in f.parameters ==> v in values && values[v] == Top)
    && (forall v :: v in values ==> v in f.parameters || exists d :: d in reachable && HomeOf(f, v, d))
  }

  // ---- the equations and the flow ----

  lemma FalseIsNotTruthy(l: Literal)
    ensures IsFalse(l) <==> !Truthy(l)
  {
  }

  lemma OpensIsExits(values: Facts, b: Block, t: BlockId)
    ensures Opens(values, b, t) <==> t in Exits(b, values)
  {
    match b.terminator {
      case Branch(c, x, y) =>
        var fact := Fact(values, c);
        if fact.Const? {
          FalseIsNotTruthy(fact.literal);
          assert IsConst(values, c, fact.literal);
        }
      case _ =>
    }
  }

  lemma ComesToIsFact(folders: Folders, i: Instruction, values: Facts, l: Literal)
    requires i.Operation?
    ensures InstructionFact(folders, i, values) == Const(l) <==> ComesTo(folders, i.op, i.operands, values, l)
    ensures (forall v :: v in values ==> !values[v].Bottom?) ==> !InstructionFact(folders, i, values).Bottom?
  {
    match i.op {
      case UnaryOp(o) =>
        if |i.operands| == 1 && Fact(values, i.operands[0]).Const? {
          FalseIsNotTruthy(values[i.operands[0]].literal);
        }
      case _ =>
    }
  }

  // ---- facts that the equations admit ----

  ghost predicate AdmitsOne(folders: Folders, f: Function, bound: Facts, blocks: set<BlockId>, b: BlockId,
      i: Instruction) {
    Result(i).Some? ==>
      var v := Result(i).value;
      && v in bound
      && if i.Phi? then
           forall k :: 0 <= k < |i.incoming| && GoesOn(f, bound, blocks, i.incoming[k].1, b) ==>
             Leq(Fact(bound, i.incoming[k].0), bound[v])
         else Leq(InstructionFact(folders, i, bound), bound[v])
  }

  /** Facts about every value, no lower than the equations ask, and blocks closed under their edges. */
  ghost predicate Admits(folders: Folders, f: Function, bound: Facts, blocks: set<BlockId>) {
    && (forall v :: v in bound <==> v in Definitions(f))
    && (forall v :: v in bound ==> !bound[v].Bottom?)
    && (forall v :: v in f.parameters ==> v in bound && bound[v] == Top)
    && f.entry in blocks
    && (forall b :: b in blocks ==> Find(f.blocks, b).Some?)
    && (forall p, t {:trigger GoesOn(f, bound, blocks, p, t)} :: GoesOn(f, bound, blocks, p, t) ==> t in blocks)
    && (forall b, k: nat {:trigger Find(f.blocks, b).value.instructions[k]} ::
          b in blocks && k < |Find(f.blocks, b).value.instructions| ==>
          AdmitsOne(folders, f, bound, blocks, b, Find(f.blocks, b).value.instructions[k]))
    && (forall b :: b in blocks && ResultOf(Find(f.blocks, b).value.terminator).Some? ==>
          var v := ResultOf(Find(f.blocks, b).value.terminator).value; v in bound && bound[v] == Top)
  }

  ghost function Arrivals(f: Function, bound: Facts, blocks: set<BlockId>, b: BlockId): set<BlockId> {
    (set p | p in blocks && GoesOn(f, bound, blocks, p, b)) + (if b == f.entry then {START} else {})
  }

  /** The edges the blocks open, each with all the facts. */
  ghost function EdgesOf(f: Function, bound: Facts, blocks: set<BlockId>): Edges<Facts> {
    map b | b in blocks && Arrivals(f, bound, blocks, b) != {} ::
      map p | p in Arrivals(f, bound, blocks, b) :: bound
  }

  lemma AvailableDefined(f: Function, b: BlockId, v: Value)
    requires AvailableAtEnd(f, b, v)
    ensures v in Definitions(f)
  {
    var block := Find(f.blocks, b).value;
    assert block.instructions[..|block.instructions|] == block.instructions;
    if v !in f.parameters {
      var d := DefinedSomewhere(f, b, v);
      DefinesAreDefinitions(f, d, v);
    }
  }

  lemma DefinedSomewhere(f: Function, b: BlockId, v: Value) returns (d: BlockId)
    requires AvailableAtEnd(f, b, v) && v !in f.parameters
    ensures HomeOf(f, v, d)
  {
    var block := Find(f.blocks, b).value;
    assert block.instructions[..|block.instructions|] == block.instructions;
    if c :| SSAProperties.DefinedAbove(f, c, b, v) {
      if v in Results(Find(f.blocks, c).value.instructions) {
        d := c;
      } else {
        d := ItemSomewhere(f, c, v);
      }
    } else if ItemOf(f, b, v) {
      d := ItemSomewhere(f, b, v);
    } else {
      d := b;
    }
  }

  lemma ItemSomewhere(f: Function, b: BlockId, v: Value) returns (h: BlockId)
    requires ItemOf(f, b, v)
    ensures HomeOf(f, v, h)
  {
    h :| Find(f.blocks, h).Some?
      && var t := Find(f.blocks, h).value.terminator; t.ForNext? && t.body == b && t.result == Some(v);
    ItemHome(f, h);
  }

  // ---- what is admitted bounds what flows ----

  lemma {:induction false} PhiBelow(folders: Folders, f: Function, bound: Facts, blocks: set<BlockId>, b: BlockId,
      incoming: seq<(Value, BlockId)>, arriving: Arriving<Facts>, x: Element)
    requires forall k :: 0 <= k < |incoming| && GoesOn(f, bound, blocks, incoming[k].1, b) ==>
      Leq(Fact(bound, incoming[k].0), x)
    requires forall p :: p in arriving ==> FactsLeq(arriving[p], bound)
    requires forall k :: 0 <= k < |incoming| && incoming[k].1 in arriving ==>
      incoming[k].0 in arriving[incoming[k].1] && GoesOn(f, bound, blocks, incoming[k].1, b)
    ensures Leq(PhiFact(incoming, arriving), x)
  {
    hide GoesOn;
    if incoming != [] {
      var rest := incoming[..|incoming| - 1];
      forall k | 0 <= k < |rest| ensures rest[k] == incoming[k] {
      }
      PhiBelow(folders, f, bound, blocks, b, rest, arriving, x);
      var (v, p) := incoming[|incoming| - 1];
      if p in arriving {
        LeqLaws(Fact(arriving[p], v), Fact(bound, v), x);
        LeqLaws(PhiFact(rest, arriving), Fact(arriving[p], v), x);
      }
    }
  }

  /** What arrives comes by edges the bound opens, and is no higher. */
  ghost predicate ArrivesBelow(f: Function, bound: Facts, blocks: set<BlockId>, b: BlockId, arriving: Arriving<Facts>) {
    forall p {:trigger p in arriving} :: p in arriving ==>
      FactsLeq(arriving[p], bound) && (p == START || GoesOn(f, bound, blocks, p, b))
  }

  lemma {:induction false} AfterBelow(folders: Folders, f: Function, bound: Facts, blocks: set<BlockId>, b: BlockId,
      arriving: Arriving<Facts>, k: nat)
    requires Analysable(f) && Admits(folders, f, bound, blocks) && b in blocks
    requires ArrivingOk(f, b, arriving) && ArrivesBelow(f, bound, blocks, b, arriving)
    requires k <= |Find(f.blocks, b).value.instructions|
    ensures FactsLeq(FactsAfter(folders, Find(f.blocks, b).value.instructions[..k], arriving), bound)
  {
    hide Analysable, GoesOn, AdmitsOne, ArrivingOk, FactsLeq, Joined, InstructionFact, PhiFact;
    var code := Find(f.blocks, b).value.instructions;
    if k == 0 {
      JoinedBelow(f, bound, blocks, b, arriving);
    } else {
      AfterBelow(folders, f, bound, blocks, b, arriving, k - 1);
      assert code[..k][..k - 1] == code[..k - 1];
      BlockReads(folders, f, b, arriving, k - 1);
      NextBelow(folders, f, bound, blocks, b, arriving, k - 1);
    }
  }

  lemma JoinedBelow(f: Function, bound: Facts, blocks: set<BlockId>, b: BlockId, arriving: Arriving<Facts>)
    requires ArrivesBelow(f, bound, blocks, b, arriving)
    ensures FactsLeq(Joined(arriving), bound)
  {
    hide JoinAll, GoesOn;
    forall v | v in Joined(arriving) ensures v in bound && Leq(Joined(arriving)[v], bound[v]) {
      var p :| p in arriving && v in arriving[p];
      assert FactsLeq(arriving[p], bound);
      JoinAllLeast(FactsAt(arriving, v), bound[v]);
    }
  }

  lemma NextBelow(folders: Folders, f: Function, bound: Facts, blocks: set<BlockId>, b: BlockId,
      arriving: Arriving<Facts>, k: nat)
    requires Analysable(f) && Admits(folders, f, bound, blocks) && b in blocks
    requires ArrivingOk(f, b, arriving) && ArrivesBelow(f, bound, blocks, b, arriving)
    requires k < |Find(f.blocks, b).value.instructions|
    requires var state := FactsAfter(folders, Find(f.blocks, b).value.instructions[..k], arriving);
      FactsLeq(state, bound) && Reading(Find(f.blocks, b).value.instructions, k, arriving, state)
    ensures var code := Find(f.blocks, b).value.instructions;
      FactsLeq(NextFact(folders, code[k], arriving, FactsAfter(folders, code[..k], arriving)), bound)
  {
    hide Analysable, GoesOn, ArrivingOk, InstructionFact, PhiFact, FactsAfter, EdgeOk, Definitions, ReadsOf;
    var code := Find(f.blocks, b).value.instructions;
    var i, state := code[k], FactsAfter(folders, code[..k], arriving);
    if Result(i).Some? {
      var v := Result(i).value;
      assert AdmitsOne(folders, f, bound, blocks, b, i);
      if i.Phi? {
        PhiFrom(f, b, k);
        PhiBelow(folders, f, bound, blocks, b, i.incoming, arriving, bound[v]);
      } else {
        KnownBefore(folders, f, b, arriving, k);
        InstructionMonotone(folders, i, state, bound);
        LeqLaws(InstructionFact(folders, i, state), InstructionFact(folders, i, bound), bound[v]);
      }
    }
  }

  lemma KnownBefore(folders: Folders, f: Function, b: BlockId, arriving: Arriving<Facts>, k: nat)
    requires Analysable(f) && ArrivingOk(f, b, arriving) && Find(f.blocks, b).Some?
    requires k <= |Find(f.blocks, b).value.instructions|
    ensures var state := FactsAfter(folders, Find(f.blocks, b).value.instructions[..k], arriving);
      forall v :: v in state ==> !state[v].Bottom?
  {
    hide Analysable, ArrivingOk, FactsAfter, Reading;
    var code := Find(f.blocks, b).value.instructions;
    EdgesHold(f, b, arriving);
    forall j: nat | j < |code| ensures Reading(code, j, arriving, FactsAfter(folders, code[..j], arriving)) {
      BlockReads(folders, f, b, arriving, j);
    }
    SelfLeq(arriving);
    AfterMonotone(folders, code, k, arriving, arriving);
  }

  /** The operands of a phi come from blocks. */
  lemma PhiFrom(f: Function, b: BlockId, k: nat)
    requires Analysable(f) && Find(f.blocks, b).Some? && k < |Find(f.blocks, b).value.instructions|
    requires Find(f.blocks, b).value.instructions[k].Phi?
    ensures var incoming := Find(f.blocks, b).value.instructions[k].incoming;
      forall j :: 0 <= j < |incoming| ==> incoming[j].1 != START
  {
    hide Connected, Available, PredecessorsIn;
    var incoming := Find(f.blocks, b).value.instructions[k].incoming;
    assert UsesAvailable(f, b) && OperandsAvailable(f, b, incoming);
    forall j | 0 <= j < |incoming| ensures incoming[j].1 != START {
      assert AvailableAtEnd(f, incoming[j].1, incoming[j].0);
      NotFromStart(f, incoming[j].1);
    }
  }

  lemma EvaluatedBelow(folders: Folders, f: Function, bound: Facts, blocks: set<BlockId>, b: BlockId,
      arriving: Arriving<Facts>)
    requires Analysable(f) && Admits(folders, f, bound, blocks) && b in blocks
    requires ArrivingOk(f, b, arriving) && ArrivesBelow(f, bound, blocks, b, arriving)
    ensures FactsLeq(Evaluated(folders, Find(f.blocks, b).value, arriving), bound)
  {
    hide Analysable, GoesOn, ArrivingOk, ArrivesBelow, FactsAfter, AdmitsOne;
    var code := Find(f.blocks, b).value.instructions;
    AfterBelow(folders, f, bound, blocks, b, arriving, |code|);
    assert code[..|code|] == code;
  }

  lemma StartOfOk(folders: Folders, f: Function, bound: Facts, blocks: set<BlockId>)
    requires Admits(folders, f, bound, blocks)
    ensures EdgeOk(f, START, f.entry, bound)
  {
    hide Definitions, GoesOn, AdmitsOne;
  }

  lemma EdgesOfOk(folders: Folders, f: Function, bound: Facts, blocks: set<BlockId>, b: BlockId)
    requires Analysable(f) && Admits(folders, f, bound, blocks) && b in EdgesOf(f, bound, blocks)
    ensures ArrivingOk(f, b, EdgesOf(f, bound, blocks)[b])
      && ArrivesBelow(f, bound, blocks, b, EdgesOf(f, bound, blocks)[b])
  {
    hide Analysable, EdgeOk, GoesOn, Admits, FactsLeq;
    var arriving := EdgesOf(f, bound, blocks)[b];
    assert arriving.Keys == Arrivals(f, bound, blocks, b);
    forall p | p in arriving
      ensures arriving[p] == bound && EdgeOk(f, p, b, bound) && (p == START || GoesOn(f, bound, blocks, p, b)) {
      if GoesOn(f, bound, blocks, p, b) {
        EdgeOfOk(folders, f, bound, blocks, p, b);
      } else {
        StartOfOk(folders, f, bound, blocks);
      }
    }
    FactsLeqLaws(bound, bound, bound);
  }

  lemma EdgeOfOk(folders: Folders, f: Function, bound: Facts, blocks: set<BlockId>, p: BlockId, b: BlockId)
    requires Analysable(f) && Admits(folders, f, bound, blocks) && GoesOn(f, bound, blocks, p, b)
    ensures EdgeOk(f, p, b, bound) && p != START
  {
    hide IsSSA, Exits, Definitions, AvailableAtEnd, AdmitsOne;
    NotFromStart(f, p);
    var block := Find(f.blocks, p).value;
    OpensIsExits(bound, block, b);
    ExitsAreSuccessors(block, bound, b);
    assert Edge(SuccessorTable(f.blocks), p, b);
    forall v | AvailableAtEnd(f, p, v) ensures v in bound {
      AvailableDefined(f, p, v);
    }
  }

  /** What a block sends under the bound stays on the edges it opens, and below. */
  lemma EdgesOfAllowsOne(folders: Folders, f: Function, bound: Facts, blocks: set<BlockId>, b: BlockId, t: BlockId)
    requires Analysable(f) && Admits(folders, f, bound, blocks) && b in EdgesOf(f, bound, blocks)
    ensures AllowsOne(ConstantProblem(folders, f), EdgesOf(f, bound, blocks), b, t)
  {
    hide IsSSA, Exits, Definitions, AvailableAtEnd, AdmitsOne, Evaluated, EdgeOk, Connected, ArrivesBelow;
    var edges := EdgesOf(f, bound, blocks);
    if t in Flow(folders, f, b, edges[b]) {
      EdgesOfOk(folders, f, bound, blocks, b);
      EvaluatedBelow(folders, f, bound, blocks, b, edges[b]);
      var block := Find(f.blocks, b).value;
      var state := Evaluated(folders, block, edges[b]);
      OpenBelow(folders, f, bound, blocks, b, edges[b], t);
      assert GoesOn(f, bound, blocks, b, t);
      assert b in Arrivals(f, bound, blocks, t);
    }
  }

  /** Lower facts open no more. */
  lemma OpenBelow(folders: Folders, f: Function, bound: Facts, blocks: set<BlockId>, b: BlockId,
      arriving: Arriving<Facts>, t: BlockId)
    requires Analysable(f) && Find(f.blocks, b).Some? && ArrivingOk(f, b, arriving)
    requires FactsLeq(Evaluated(folders, Find(f.blocks, b).value, arriving), bound)
    requires t in Exits(Find(f.blocks, b).value, Evaluated(folders, Find(f.blocks, b).value, arriving))
    ensures Opens(bound, Find(f.blocks, b).value, t)
  {
    hide Analysable, Evaluated, AvailableAtEnd, ArrivingOk, Definitions, FactsLeq;
    var block := Find(f.blocks, b).value;
    var state := Evaluated(folders, block, arriving);
    EvaluatedOk(folders, f, b, arriving);
    if block.terminator.Branch? {
      ConditionKnown(f, b);
    }
    ExitsMonotone(block, state, bound);
    OpensIsExits(bound, block, t);
  }

  lemma EdgesOfAllows(folders: Folders, f: Function, bound: Facts, blocks: set<BlockId>)
    requires Analysable(f) && Admits(folders, f, bound, blocks)
    ensures Allows(ConstantProblem(folders, f), Solver.AsSet(Ids(f.blocks)), {f.entry}, EdgesOf(f, bound, blocks))
  {
    hide Analysable, Flow, AdmitsOne, GoesOn, AllowsOne, EdgeOk, Definitions;
    var edges := EdgesOf(f, bound, blocks);
    var problem := ConstantProblem(folders, f);
    forall b | b in edges ensures b in Solver.AsSet(Ids(f.blocks)) && AllOk(problem, b, edges[b]) {
      FoundId(f, b);
      EdgesOfOk(folders, f, bound, blocks, b);
    }
    assert START in Arrivals(f, bound, blocks, f.entry);
    forall b, t | b in edges ensures AllowsOne(problem, edges, b, t) {
      EdgesOfAllowsOne(folders, f, bound, blocks, b, t);
    }
  }

  /** Every block reached is among the blocks admitted, and its facts are no higher than the bound. */
  lemma Bounded(folders: Folders, f: Function, e: Edges<Facts>, bound: Facts, blocks: set<BlockId>, b: BlockId)
    requires Analysable(f) && Solves(folders, f, e) && Admits(folders, f, bound, blocks) && b in e
    ensures b in blocks && (b == f.entry || exists p :: GoesOn(f, bound, blocks, p, b))
    ensures FactsLeq(Out(folders, f, e, b), bound)
  {
    hide Analysable, WellFormed, Settled, Traced, Allows, Evaluated, AdmitsOne, GoesOn, EdgeOk, FactsLeq, ArrivingOk;
    EdgesOfAllows(folders, f, bound, blocks);
    var edges := EdgesOf(f, bound, blocks);
    assert EdgesBelow(ConstantProblem(folders, f), e, edges);
    assert Below(ConstantProblem(folders, f), e[b], edges[b]);
    EdgesOfOk(folders, f, bound, blocks, b);
    SolvedFacts(folders, f, e, b);
    forall p | p in e[b] ensures FactsLeq(e[b][p], bound) && (p == START || GoesOn(f, bound, blocks, p, b)) {
      assert p in edges[b];
    }
    EvaluatedBelow(folders, f, bound, blocks, b, e[b]);
    SomeArrived(f, bound, blocks, b);
  }

  lemma SomeArrived(f: Function, bound: Facts, blocks: set<BlockId>, b: BlockId)
    requires b in EdgesOf(f, bound, blocks)
    ensures b == f.entry || exists p :: GoesOn(f, bound, blocks, p, b)
  {
    hide GoesOn;
    var p :| p in Arrivals(f, bound, blocks, b);
    assert b != f.entry ==> GoesOn(f, bound, blocks, p, b);
  }

  // ---- each value has one fact ----

  /** The fact of a value where it is defined; anything if the analysis does not get there. */
  ghost function HomeFact(folders: Folders, f: Function, e: Edges<Facts>, v: Value): Element {
    if exists x :: Origin(folders, f, e, v, x) then
      var x :| Origin(folders, f, e, v, x); x
    else Top
  }

  ghost function HomeFacts(folders: Folders, f: Function, e: Edges<Facts>): Facts {
    map v | v in Definitions(f) :: HomeFact(folders, f, e, v)
  }

  lemma OriginOne(folders: Folders, f: Function, e: Edges<Facts>, v: Value, x: Element)
    requires Analysable(f) && Origin(folders, f, e, v, x)
    ensures HomeFact(folders, f, e, v) == x
  {
    hide Analysable, Out, HomeOf;
    forall y | Origin(folders, f, e, v, y) ensures y == x {
      if v !in f.parameters {
        var c :| HomeOf(f, v, c) && c in e && v in Out(folders, f, e, c) && Out(folders, f, e, c)[v] == x;
        var d :| HomeOf(f, v, d) && d in e && v in Out(folders, f, e, d) && Out(folders, f, e, d)[v] == y;
        SameHome(f, v, c, d);
      }
    }
  }

  lemma AtHome(folders: Folders, f: Function, e: Edges<Facts>, v: Value, d: BlockId)
    requires Analysable(f) && Solves(folders, f, e) && HomeOf(f, v, d) && d in e
    ensures v in Out(folders, f, e, d) && Out(folders, f, e, d)[v] == HomeFact(folders, f, e, v)
    ensures !HomeFact(folders, f, e, v).Bottom? && v in Definitions(f)
  {
    hide Analysable, Solves, Out, Covers, Definitions, Origin;
    HomeCovers(folders, f, e, d, v);
    OriginOne(folders, f, e, v, Out(folders, f, e, d)[v]);
    OutKnown(folders, f, e, d, v);
  }

  lemma OutKnown(folders: Folders, f: Function, e: Edges<Facts>, b: BlockId, v: Value)
    requires Analysable(f) && Solves(folders, f, e) && b in e && v in Out(folders, f, e, b)
    ensures v in Definitions(f) && !Out(folders, f, e, b)[v].Bottom?
  {
    hide Analysable, Solves, Evaluated, Definitions, ArrivingOk;
    SolvedFacts(folders, f, e, b);
    EvaluatedOk(folders, f, b, e[b]);
  }

  /** Where a value is known, its fact is no lower than at home. */
  lemma AboveHome(folders: Folders, f: Function, e: Edges<Facts>, b: BlockId, v: Value)
    requires Analysable(f) && Solves(folders, f, e) && b in e && v in Out(folders, f, e, b)
    ensures Leq(HomeFact(folders, f, e, v), Out(folders, f, e, b)[v])
    ensures Origin(folders, f, e, v, HomeFact(folders, f, e, v))
  {
    hide Analysable, Solves, Out, Origin;
    OutCovers(folders, f, e, b, v);
    var x :| Origin(folders, f, e, v, x);
    OriginOne(folders, f, e, v, x);
  }

  lemma NeverBottom(folders: Folders, f: Function, e: Edges<Facts>, v: Value)
    requires Analysable(f) && Solves(folders, f, e)
    ensures !HomeFact(folders, f, e, v).Bottom?
  {
    hide Analysable, Solves, Out, Origin;
    if x :| Origin(folders, f, e, v, x) {
      OriginOne(folders, f, e, v, x);
      OriginKnown(folders, f, e, v, x);
    }
  }

  lemma OriginKnown(folders: Folders, f: Function, e: Edges<Facts>, v: Value, x: Element)
    requires Analysable(f) && Solves(folders, f, e) && Origin(folders, f, e, v, x)
    ensures !x.Bottom?
  {
    hide Analysable, Solves, Out, HomeOf;
    if v !in f.parameters {
      var d :| HomeOf(f, v, d) && d in e && v in Out(folders, f, e, d) && Out(folders, f, e, d)[v] == x;
      OutKnown(folders, f, e, d, v);
    }
  }

  // ---- the facts at home are admitted ----

  /** What arrives is no lower than at home. */
  lemma ArrivesAbove(folders: Folders, f: Function, e: Edges<Facts>, b: BlockId, q: BlockId, v: Value)
    requires Analysable(f) && Solves(folders, f, e) && b in e && q in e[b] && v in e[b][q]
    ensures Leq(HomeFact(folders, f, e, v), e[b][q][v])
  {
    hide Analysable, Solves, Out, Origin;
    if q == START {
      StartArrives(folders, f, e, b, v);
    } else {
      EdgeIsOut(folders, f, e, q, b);
      AboveHome(folders, f, e, q, v);
    }
  }

  lemma StartArrives(folders: Folders, f: Function, e: Edges<Facts>, b: BlockId, v: Value)
    requires Analysable(f) && Solves(folders, f, e) && b in e && START in e[b] && v in e[b][START]
    ensures e[b][START][v] == Top
  {
    hide Analysable, Least, Settled, Traced, AllOk;
    assert Sent(ConstantProblem(folders, f), {f.entry}, e, b, START);
  }

  /** What is read at position `k` of a reached block is known there, and no lower than at home. */
  lemma ReadAbove(folders: Folders, f: Function, e: Edges<Facts>, b: BlockId, k: nat, u: Value)
    requires Analysable(f) && Solves(folders, f, e) && b in e && Find(f.blocks, b).Some?
    requires k <= |Find(f.blocks, b).value.instructions| && Available(f, b, k, u)
    ensures var state := FactsAfter(folders, Find(f.blocks, b).value.instructions[..k], e[b]);
      u in state && Leq(HomeFact(folders, f, e, u), state[u])
  {
    hide Analysable, Solves, ArrivingOk, SSAProperties.DefinedAbove, ItemOf, FactsAfter, HomeFact, Joined, Evaluated;
    var code := Find(f.blocks, b).value.instructions;
    SolvedFacts(folders, f, e, b);
    AvailableIsKnown(folders, f, b, e[b], k, u);
    if u in Results(code[..k]) {
      MadeBefore(folders, f, e, b, k, u);
    } else {
      SomeArrives(f, b, e[b]);
      var q :| q in e[b];
      DefinedArrives(f, b, e[b], q, u);
      ArrivesAbove(folders, f, e, b, q, u);
      ArrivesJoined(e[b], q);
      UntouchedAfter(folders, code[..k], e[b], u);
      LeqLaws(HomeFact(folders, f, e, u), e[b][q][u], Joined(e[b])[u]);
    }
  }

  lemma {:induction false} LaterUntouched(folders: Folders, code: seq<Instruction>, arriving: Arriving<Facts>, k: nat,
      n: nat, v: Value)
    requires k <= n <= |code| && v in FactsAfter(folders, code[..k], arriving)
    requires forall j :: k <= j < n ==> Result(code[j]) != Some(v)
    ensures v in FactsAfter(folders, code[..n], arriving)
      && FactsAfter(folders, code[..n], arriving)[v] == FactsAfter(folders, code[..k], arriving)[v]
    decreases n
  {
    if k < n {
      LaterUntouched(folders, code, arriving, k, n - 1, v);
      assert code[..n][..n - 1] == code[..n - 1];
    }
  }

  /** The fact an instruction gives its result is the one at the end of the block. */
  lemma MadeIsOut(folders: Folders, f: Function, e: Edges<Facts>, b: BlockId, k: nat, v: Value)
    requires Analysable(f) && b in e && Find(f.blocks, b).Some? && k < |Find(f.blocks, b).value.instructions|
    requires Result(Find(f.blocks, b).value.instructions[k]) == Some(v)
    ensures var code := Find(f.blocks, b).value.instructions;
      && HomeOf(f, v, b) && v in Out(folders, f, e, b)
      && v in FactsAfter(folders, code[..k + 1], e[b])
      && Out(folders, f, e, b)[v] == FactsAfter(folders, code[..k + 1], e[b])[v]
  {
    hide Analysable, FactsAfter, Definitions;
    var block := Find(f.blocks, b).value;
    var code := block.instructions;
    BlockApart(f, b);
    InResults(code, v);
    InResults(code[..k + 1], v);
    assert Result(code[..k + 1][k]) == Some(v);
    AfterKeys(folders, code[..k + 1], e[b]);
    LaterUntouched(folders, code, e[b], k + 1, |code|, v);
    assert code[..|code|] == code;
    NotItem(f, b, v);
  }

  lemma NotItem(f: Function, b: BlockId, v: Value)
    requires Analysable(f) && Find(f.blocks, b).Some? && v in Results(Find(f.blocks, b).value.instructions)
    ensures ResultOf(Find(f.blocks, b).value.terminator) != Some(v)
  {
    hide Connected, UsesAvailable, NoLocals, Results;
    var k := FindWhere(f.blocks, b);
    SliceDistinct(f.parameters, AllDefined(f.blocks));
    BlockSlice(f.blocks, k);
    var block := f.blocks[k];
    if ResultOf(block.terminator) == Some(v) {
      SlicesApart(Results(block.instructions), [v]);
    }
  }

  lemma MadeBefore(folders: Folders, f: Function, e: Edges<Facts>, b: BlockId, k: nat, u: Value)
    requires Analysable(f) && Solves(folders, f, e) && b in e && Find(f.blocks, b).Some?
    requires k <= |Find(f.blocks, b).value.instructions| && u in Results(Find(f.blocks, b).value.instructions[..k])
    ensures var state := FactsAfter(folders, Find(f.blocks, b).value.instructions[..k], e[b]);
      u in state && Leq(HomeFact(folders, f, e, u), state[u])
  {
    hide Analysable, Solves, FactsAfter, Evaluated;
    var code := Find(f.blocks, b).value.instructions;
    InResults(code[..k], u);
    var j :| 0 <= j < k && Result(code[..k][j]) == Some(u);
    assert code[..k][j] == code[j];
    MadeIsOut(folders, f, e, b, j, u);
    AtHome(folders, f, e, u, b);
    BlockApart(f, b);
    LaterUntouched(folders, code, e[b], j + 1, k, u);
  }

  /** Facts at home open no edge that was not recorded. */
  lemma HomeOpens(folders: Folders, f: Function, e: Edges<Facts>, p: BlockId, t: BlockId)
    requires Analysable(f) && Solves(folders, f, e) && GoesOn(f, HomeFacts(folders, f, e), e.Keys, p, t)
    ensures t in e && p in e[t] && e[t][p] == Out(folders, f, e, p) && p != START
  {
    hide Analysable, Solves, Out, HomeFact, Definitions, AvailableAtEnd, ArrivingOk;
    var home, block := HomeFacts(folders, f, e), Find(f.blocks, p).value;
    SolvedFacts(folders, f, e, p);
    OpensIsExits(home, block, t);
    if block.terminator.Branch? {
      var c := block.terminator.condition;
      ConditionKnown(f, p);
      AvailableCovered(folders, f, e, p, c);
      AboveHome(folders, f, e, p, c);
      AvailableDefined(f, p, c);
      NeverBottom(folders, f, e, c);
      assert forall l :: IsConst(Out(folders, f, e, p), c, l) ==> IsConst(home, c, l);
    }
    OpensIsExits(Out(folders, f, e, p), block, t);
    SentOn(folders, f, e, p, t);
  }

  lemma PhiAdmitted(folders: Folders, f: Function, e: Edges<Facts>, b: BlockId, k: nat, j: nat)
    requires Analysable(f) && Solves(folders, f, e) && b in e && Find(f.blocks, b).Some?
      && k < |Find(f.blocks, b).value.instructions| && Find(f.blocks, b).value.instructions[k].Phi?
    requires var incoming := Find(f.blocks, b).value.instructions[k].incoming;
      j < |incoming| && GoesOn(f, HomeFacts(folders, f, e), e.Keys, incoming[j].1, b)
    ensures var incoming := Find(f.blocks, b).value.instructions[k].incoming;
      Leq(HomeFact(folders, f, e, incoming[j].0), PhiFact(incoming, e[b])) && incoming[j].0 in Definitions(f)
  {
    hide Connected, Solves, Out, HomeFact, HomeFacts, Definitions, Available, PhiFact, Opens, PredecessorsIn;
    var incoming := Find(f.blocks, b).value.instructions[k].incoming;
    var (u, p) := incoming[j];
    HomeOpens(folders, f, e, p, b);
    assert UsesAvailable(f, b) && OperandsAvailable(f, b, incoming);
    assert AvailableAtEnd(f, p, u);
    AvailableDefined(f, p, u);
    AvailableCovered(folders, f, e, p, u);
    AboveHome(folders, f, e, p, u);
    PhiCovers(incoming, e[b], j);
    LeqLaws(HomeFact(folders, f, e, u), Fact(e[b][p], u), PhiFact(incoming, e[b]));
  }

  lemma HomeAdmitsOne(folders: Folders, f: Function, e: Edges<Facts>, b: BlockId, k: nat)
    requires Analysable(f) && Solves(folders, f, e) && b in e && Find(f.blocks, b).Some?
      && k < |Find(f.blocks, b).value.instructions|
    ensures AdmitsOne(folders, f, HomeFacts(folders, f, e), e.Keys, b, Find(f.blocks, b).value.instructions[k])
  {
    hide Analysable, Solves, Out, HomeFact, Definitions, Available, PhiFact, GoesOn, FactsAfter, InstructionFact;
    var code := Find(f.blocks, b).value.instructions;
    var i := code[k];
    if Result(i).Some? {
      var v := Result(i).value;
      MadeIsOut(folders, f, e, b, k, v);
      AtHome(folders, f, e, v, b);
      ResultFact(folders, code, e[b], k);
      if i.Phi? {
        forall j | 0 <= j < |i.incoming| && GoesOn(f, HomeFacts(folders, f, e), e.Keys, i.incoming[j].1, b)
          ensures Leq(Fact(HomeFacts(folders, f, e), i.incoming[j].0), HomeFacts(folders, f, e)[v]) {
          PhiAdmitted(folders, f, e, b, k, j);
        }
      } else {
        PlainAdmitted(folders, f, e, b, k);
      }
    }
  }

  lemma ResultFact(folders: Folders, code: seq<Instruction>, arriving: Arriving<Facts>, k: nat)
    requires k < |code| && Result(code[k]).Some?
    ensures var state := FactsAfter(folders, code[..k + 1], arriving); var v := Result(code[k]).value;
      v in state && state[v] == if code[k].Phi? then PhiFact(code[k].incoming, arriving)
        else InstructionFact(folders, code[k], FactsAfter(folders, code[..k], arriving))
  {
    assert code[..k + 1][..k] == code[..k];
  }

  lemma PlainAdmitted(folders: Folders, f: Function, e: Edges<Facts>, b: BlockId, k: nat)
    requires Analysable(f) && Solves(folders, f, e) && b in e && Find(f.blocks, b).Some?
      && k < |Find(f.blocks, b).value.instructions|
    ensures var code := Find(f.blocks, b).value.instructions;
      Leq(InstructionFact(folders, code[k], HomeFacts(folders, f, e)),
        InstructionFact(folders, code[k], FactsAfter(folders, code[..k], e[b])))
  {
    hide Analysable, Solves, Out, HomeFact, Definitions, Available, PhiFact, FactsAfter, InstructionFact;
    var code := Find(f.blocks, b).value.instructions;
    var home, state := HomeFacts(folders, f, e), FactsAfter(folders, code[..k], e[b]);
    forall v | v in ReadsOf(code[k]) ensures v in home && !home[v].Bottom? && v in state && Leq(home[v], state[v]) {
      ReadAvailable(f, b, k, v);
      ReadAbove(folders, f, e, b, k, v);
      NeverBottom(folders, f, e, v);
    }
    InstructionMonotone(folders, code[k], home, state);
  }

  lemma ReadAvailable(f: Function, b: BlockId, k: nat, v: Value)
    requires Analysable(f) && Find(f.blocks, b).Some? && k < |Find(f.blocks, b).value.instructions|
    requires v in ReadsOf(Find(f.blocks, b).value.instructions[k])
    ensures Available(f, b, k, v) && v in Definitions(f)
  {
    hide Connected, Definitions, Available;
    assert UsesAvailable(f, b);
    LaterAvailable(f, b, k, |Find(f.blocks, b).value.instructions|, v);
    AvailableDefined(f, b, v);
  }

  lemma HomeAdmitted(folders: Folders, f: Function, e: Edges<Facts>)
    requires Analysable(f) && Solves(folders, f, e)
    ensures Admits(folders, f, HomeFacts(folders, f, e), e.Keys)
  {
    hide Analysable, Solves, Out, HomeFact, AdmitsOne, GoesOn, Origin, ArrivingOk;
    var home := HomeFacts(folders, f, e);
    forall v | v in home ensures !home[v].Bottom? {
      NeverBottom(folders, f, e, v);
    }
    forall v | v in f.parameters ensures v in home && home[v] == Top {
      ParameterFact(folders, f, e, v);
    }
    EntryArrives(folders, f, e);
    forall b | b in e ensures Find(f.blocks, b).Some? {
      SolvedFacts(folders, f, e, b);
    }
    forall p, t | GoesOn(f, home, e.Keys, p, t) ensures t in e {
      HomeOpens(folders, f, e, p, t);
    }
    forall b, k: nat | b in e && k < |Find(f.blocks, b).value.instructions|
      ensures AdmitsOne(folders, f, home, e.Keys, b, Find(f.blocks, b).value.instructions[k]) {
      HomeAdmitsOne(folders, f, e, b, k);
    }
    forall b | b in e && ResultOf(Find(f.blocks, b).value.terminator).Some?
      ensures var v := ResultOf(Find(f.blocks, b).value.terminator).value; v in home && home[v] == Top {
      ItemFact(folders, f, e, b);
    }
  }

  lemma ParameterFact(folders: Folders, f: Function, e: Edges<Facts>, v: Value)
    requires Analysable(f) && v in f.parameters
    ensures HomeFact(folders, f, e, v) == Top
  {
    hide Analysable;
    OriginOne(folders, f, e, v, Top);
  }

  lemma ItemFact(folders: Folders, f: Function, e: Edges<Facts>, b: BlockId)
    requires Analysable(f) && Solves(folders, f, e) && b in e && Find(f.blocks, b).Some?
    requires ResultOf(Find(f.blocks, b).value.terminator).Some?
    ensures var v := ResultOf(Find(f.blocks, b).value.terminator).value;
      HomeFact(folders, f, e, v) == Top && v in Definitions(f) && HomeOf(f, v, b)
  {
    hide Analysable, Solves, Evaluated, HomeFact, Definitions;
    ItemHome(f, b);
    AtHome(folders, f, e, ResultOf(Find(f.blocks, b).value.terminator).value, b);
    ItemIsTop(folders, f, e, b);
  }

  /** Wherever a value is known, its fact is the one at home. */
  lemma OneFact(folders: Folders, f: Function, e: Edges<Facts>, b: BlockId, v: Value)
    requires Analysable(f) && Solves(folders, f, e) && b in e && v in Out(folders, f, e, b)
    ensures Out(folders, f, e, b)[v] == HomeFact(folders, f, e, v)
    ensures Origin(folders, f, e, v, HomeFact(folders, f, e, v))
  {
    hide Analysable, Solves, Out, HomeFact, Origin, Admits;
    HomeAdmitted(folders, f, e);
    Bounded(folders, f, e, HomeFacts(folders, f, e), e.Keys, b);
    AboveHome(folders, f, e, b, v);
    LeqBothWays(Out(folders, f, e, b)[v], HomeFact(folders, f, e, v));
  }

  /** And so are the facts collected. */
  lemma CollectedHome(folders: Folders, f: Function, e: Edges<Facts>, values: Facts, v: Value)
    requires Analysable(f) && Solves(folders, f, e) && Collected(folders, f, e, values, e.Keys)
    ensures v in values <==> exists b :: b in e && v in Out(folders, f, e, b)
    ensures v in values ==>
      v in Definitions(f) && values[v] == HomeFact(folders, f, e, v)
      && (v in f.parameters || exists d :: d in e && HomeOf(f, v, d))
  {
    hide Analysable, Solves, Out, HomeFact, HomeOf, Definitions;
    if v in values {
      assert FactFrom(folders, f, e, e.Keys, v, values[v]);
      var b :| b in e && v in Out(folders, f, e, b) && Out(folders, f, e, b)[v] == values[v];
      OneFact(folders, f, e, b, v);
      OutKnown(folders, f, e, b, v);
    }
  }

  // ---- what is returned satisfies the equations ----

  ghost predicate Returned(folders: Folders, f: Function, e: Edges<Facts>, values: Facts) {
    Analysable(f) && Solves(folders, f, e) && Collected(folders, f, e, values, e.Keys)
  }

  lemma OutIsValue(folders: Folders, f: Function, e: Edges<Facts>, values: Facts, b: BlockId, v: Value)
    requires Returned(folders, f, e, values) && b in e && v in Out(folders, f, e, b)
    ensures v in values && values[v] == Out(folders, f, e, b)[v] == HomeFact(folders, f, e, v)
  {
    hide Analysable, Solves, Out, HomeFact, Collected;
    CollectedHome(folders, f, e, values, v);
    OneFact(folders, f, e, b, v);
  }

  /** The edges recorded are those control may go on by. */
  lemma RecordedGoesOn(folders: Folders, f: Function, e: Edges<Facts>, values: Facts, p: BlockId, t: BlockId)
    requires Returned(folders, f, e, values)
    ensures GoesOn(f, values, e.Keys, p, t) <==> t in e && p in e[t] && p != START
  {
    hide Analysable, Solves, Out, Collected, Opens, ArrivingOk;
    if p in e {
      SolvedFacts(folders, f, e, p);
      SameOpens(folders, f, e, values, p, t);
      OpensIsExits(Out(folders, f, e, p), Find(f.blocks, p).value, t);
      if GoesOn(f, values, e.Keys, p, t) {
        SentOn(folders, f, e, p, t);
      }
    }
    if t in e && p in e[t] && p != START {
      RecordedExit(folders, f, e, p, t);
    }
  }

  lemma SameOpens(folders: Folders, f: Function, e: Edges<Facts>, values: Facts, p: BlockId, t: BlockId)
    requires Returned(folders, f, e, values) && p in e && Find(f.blocks, p).Some?
    ensures Opens(values, Find(f.blocks, p).value, t) <==> Opens(Out(folders, f, e, p), Find(f.blocks, p).value, t)
  {
    hide Analysable, Solves, Out, Collected, HomeFact, AvailableAtEnd;
    var block := Find(f.blocks, p).value;
    if block.terminator.Branch? {
      var c := block.terminator.condition;
      ConditionKnown(f, p);
      AvailableCovered(folders, f, e, p, c);
      OutIsValue(folders, f, e, values, p, c);
      assert forall l :: IsConst(Out(folders, f, e, p), c, l) <==> IsConst(values, c, l);
    }
  }

  lemma RecordedExit(folders: Folders, f: Function, e: Edges<Facts>, p: BlockId, t: BlockId)
    requires Analysable(f) && Solves(folders, f, e) && t in e && p in e[t] && p != START
    ensures p in e && Find(f.blocks, p).Some? && t in Exits(Find(f.blocks, p).value, Out(folders, f, e, p))
  {
    hide Analysable, Least, Settled, Traced, AllOk, Evaluated, ArrivingOk;
    assert Sent(ConstantProblem(folders, f), {f.entry}, e, t, p);
    SolvedFacts(folders, f, e, p);
  }

  /** A phi has a constant when all it reads is that constant. */
  lemma {:induction false} PhiIs(incoming: seq<(Value, BlockId)>, arriving: Arriving<Facts>, l: Literal)
    requires forall k :: 0 <= k < |incoming| && incoming[k].1 in arriving ==>
      !Fact(arriving[incoming[k].1], incoming[k].0).Bottom?
    ensures PhiFact(incoming, arriving).Bottom? <==> forall k :: 0 <= k < |incoming| ==> incoming[k].1 !in arriving
    ensures PhiFact(incoming, arriving) == Const(l) ==> forall k :: 0 <= k < |incoming| && incoming[k].1 in arriving ==>
      Fact(arriving[incoming[k].1], incoming[k].0) == Const(l)
    ensures (forall k :: 0 <= k < |incoming| && incoming[k].1 in arriving ==>
        Fact(arriving[incoming[k].1], incoming[k].0) == Const(l))
      ==> PhiFact(incoming, arriving).Bottom? || PhiFact(incoming, arriving) == Const(l)
  {
    hide Fact;
    if incoming != [] {
      var n := |incoming| - 1;
      assert forall k :: 0 <= k < n ==> incoming[..n][k] == incoming[k];
      PhiIs(incoming[..n], arriving, l);
      assert forall k :: 0 <= k < |incoming| ==> incoming[k] == if k < n then incoming[..n][k] else incoming[n];
    }
  }

  lemma PhiExact(folders: Folders, f: Function, e: Edges<Facts>, values: Facts, b: BlockId, k: nat, l: Literal)
    requires Returned(folders, f, e, values) && b in e && Find(f.blocks, b).Some?
      && k < |Find(f.blocks, b).value.instructions| && Find(f.blocks, b).value.instructions[k].Phi?
    ensures var incoming := Find(f.blocks, b).value.instructions[k].incoming;
      && !PhiFact(incoming, e[b]).Bottom?
      && (PhiFact(incoming, e[b]) == Const(l) <==> ReadsOnly(f, values, e.Keys, b, incoming, l))
  {
    hide Solves, Out, Collected, HomeFact, GoesOn, PhiFact, Analysable, EdgeOk;
    var code := Find(f.blocks, b).value.instructions;
    var incoming := code[k].incoming;
    SolvedFacts(folders, f, e, b);
    BlockReads(folders, f, b, e[b], k);
    PhiFrom(f, b, k);
    forall j | 0 <= j < |incoming|
      ensures incoming[j].1 in e[b] <==> GoesOn(f, values, e.Keys, incoming[j].1, b)
      ensures incoming[j].1 in e[b] ==> var fact := Fact(e[b][incoming[j].1], incoming[j].0);
        !fact.Bottom? && incoming[j].0 in values && values[incoming[j].0] == fact
    {
      RecordedGoesOn(folders, f, e, values, incoming[j].1, b);
      if incoming[j].1 in e[b] {
        EdgeIsOut(folders, f, e, incoming[j].1, b);
        OutIsValue(folders, f, e, values, incoming[j].1, incoming[j].0);
      }
    }
    PhiIs(incoming, e[b], l);
  }

  /** What an instruction of a reached block reads has the facts returned. */
  lemma ReadIsValue(folders: Folders, f: Function, e: Edges<Facts>, values: Facts, b: BlockId, k: nat, u: Value)
    requires Returned(folders, f, e, values) && b in e && Find(f.blocks, b).Some?
      && k < |Find(f.blocks, b).value.instructions| && u in ReadsOf(Find(f.blocks, b).value.instructions[k])
    ensures var state := FactsAfter(folders, Find(f.blocks, b).value.instructions[..k], e[b]);
      u in state && u in values && state[u] == values[u] && !values[u].Bottom?
  {
    hide Analysable, Solves, Out, Collected, HomeFact, Available, FactsAfter, ArrivingOk, Definitions, Admits, GoesOn;
    var n := |Find(f.blocks, b).value.instructions|;
    ReadAvailable(f, b, k, u);
    ReadAbove(folders, f, e, b, k, u);
    HomeAdmitted(folders, f, e);
    ArrivesHome(folders, f, e, b);
    SolvedFacts(folders, f, e, b);
    AfterBelow(folders, f, HomeFacts(folders, f, e), e.Keys, b, e[b], k);
    LeqBothWays(FactsAfter(folders, Find(f.blocks, b).value.instructions[..k], e[b])[u], HomeFact(folders, f, e, u));
    LaterAvailable(f, b, k, n, u);
    AvailableCovered(folders, f, e, b, u);
    OutIsValue(folders, f, e, values, b, u);
    NeverBottom(folders, f, e, u);
  }

  lemma ArrivesHome(folders: Folders, f: Function, e: Edges<Facts>, b: BlockId)
    requires Analysable(f) && Solves(folders, f, e) && b in e
    ensures ArrivesBelow(f, HomeFacts(folders, f, e), e.Keys, b, e[b])
  {
    hide Analysable, WellFormed, Settled, Traced, Allows, Admits, GoesOn, FactsLeq, HomeFacts;
    var home := HomeFacts(folders, f, e);
    HomeAdmitted(folders, f, e);
    EdgesOfAllows(folders, f, home, e.Keys);
    var edges := EdgesOf(f, home, e.Keys);
    assert EdgesBelow(ConstantProblem(folders, f), e, edges);
    assert Below(ConstantProblem(folders, f), e[b], edges[b]);
    forall p | p in e[b] ensures FactsLeq(e[b][p], home) && (p == START || GoesOn(f, home, e.Keys, p, b)) {
      assert p in edges[b];
    }
  }

  lemma ResultExact(folders: Folders, f: Function, e: Edges<Facts>, values: Facts, b: BlockId, k: nat)
    requires Returned(folders, f, e, values) && b in e && Find(f.blocks, b).Some?
      && k < |Find(f.blocks, b).value.instructions|
    ensures ResultIsFact(folders, f, values, e.Keys, b, Find(f.blocks, b).value.instructions[k])
  {
    hide Analysable, Solves, Out, Collected, HomeFact, FactsAfter, PhiFact, InstructionFact, ReadsOnly, ComesTo;
    var code := Find(f.blocks, b).value.instructions;
    var i := code[k];
    if Result(i).Some? {
      var v := Result(i).value;
      MadeIsOut(folders, f, e, b, k, v);
      OutIsValue(folders, f, e, values, b, v);
      ResultFact(folders, code, e[b], k);
      OutKnown(folders, f, e, b, v);
      match i {
        case Operation(_, op, operands) =>
          SameRead(folders, f, e, values, b, k);
          forall l ensures values[v] == Const(l) <==> ComesTo(folders, op, operands, values, l) {
            ComesToIsFact(folders, i, values, l);
          }
        case Phi(_, _, incoming) =>
          forall l ensures values[v] == Const(l) <==> ReadsOnly(f, values, e.Keys, b, incoming, l) {
            PhiExact(folders, f, e, values, b, k, l);
          }
        case _ => PlainFact(folders, i, FactsAfter(folders, code[..k], e[b]));
      }
    }
  }

  lemma SameRead(folders: Folders, f: Function, e: Edges<Facts>, values: Facts, b: BlockId, k: nat)
    requires Returned(folders, f, e, values) && b in e && Find(f.blocks, b).Some?
      && k < |Find(f.blocks, b).value.instructions|
    ensures var code := Find(f.blocks, b).value.instructions;
      InstructionFact(folders, code[k], FactsAfter(folders, code[..k], e[b]))
        == InstructionFact(folders, code[k], values)
  {
    hide Returned, FactsAfter, InstructionFact;
    var code := Find(f.blocks, b).value.instructions;
    var state := FactsAfter(folders, code[..k], e[b]);
    forall u | u in ReadsOf(code[k]) ensures u in state && u in values && state[u] == values[u] && !values[u].Bottom? {
      ReadIsValue(folders, f, e, values, b, k, u);
    }
    InstructionMonotone(folders, code[k], state, values);
    InstructionMonotone(folders, code[k], values, state);
    LeqBothWays(InstructionFact(folders, code[k], state), InstructionFact(folders, code[k], values));
  }

  lemma BlockExact(folders: Folders, f: Function, e: Edges<Facts>, values: Facts, b: BlockId)
    requires Returned(folders, f, e, values) && b in e
    ensures BlockFacts(folders, f, values, e.Keys, b)
  {
    hide Analysable, Solves, Out, Collected, HomeFact, GoesOn, ResultIsFact, ArrivingOk;
    SolvedFacts(folders, f, e, b);
    var block := Find(f.blocks, b).value;
    CameFrom(folders, f, e, values, b);
    forall k | 0 <= k < |block.instructions| ensures ResultIsFact(folders, f, values, e.Keys, b, block.instructions[k]) {
      ResultExact(folders, f, e, values, b, k);
    }
    if ResultOf(block.terminator).Some? {
      ItemIsTop(folders, f, e, b);
      OutIsValue(folders, f, e, values, b, ResultOf(block.terminator).value);
    }
  }

  lemma CameFrom(folders: Folders, f: Function, e: Edges<Facts>, values: Facts, b: BlockId)
    requires Returned(folders, f, e, values) && b in e
    ensures b == f.entry || exists p :: GoesOn(f, values, e.Keys, p, b)
  {
    hide Analysable, Least, Settled, Traced, Collected, GoesOn, EdgeOk;
    SolvedFacts(folders, f, e, b);
    SomeArrives(f, b, e[b]);
    var p :| p in e[b];
    if p == START {
      assert Sent(ConstantProblem(folders, f), {f.entry}, e, b, p);
    } else {
      RecordedGoesOn(folders, f, e, values, p, b);
    }
  }

  /** What propagation returns satisfies every equation. */
  lemma FactsAreExact(folders: Folders, f: Function, values: Facts, reachable: set<BlockId>)
    requires Analysable(f) && IsPropagation(folders, f, values, reachable)
    ensures AreFacts(folders, f, values, reachable)
  {
    hide Analysable, Solves, Collected, GoesOn, BlockFacts, HomeFact, HomeOf;
    var e :| Solves(folders, f, e) && Collected(folders, f, e, values, reachable) && reachable == e.Keys;
    EntryArrives(folders, f, e);
    forall b | b in reachable ensures BlockFacts(folders, f, values, reachable, b) {
      BlockExact(folders, f, e, values, b);
    }
    forall p, t | GoesOn(f, values, reachable, p, t) ensures t in reachable {
      RecordedGoesOn(folders, f, e, values, p, t);
    }
    forall v | v in f.parameters ensures v in values && values[v] == Top {
      ParameterKnown(folders, f, e, values, v);
    }
    forall v | v in values ensures v in f.parameters || exists d :: d in reachable && HomeOf(f, v, d) {
      CollectedHome(folders, f, e, values, v);
    }
  }

  lemma ParameterKnown(folders: Folders, f: Function, e: Edges<Facts>, values: Facts, v: Value)
    requires Returned(folders, f, e, values) && v in f.parameters
    ensures v in values && values[v] == Top
  {
    hide Analysable, Solves, Collected, HomeFact, Out;
    EntryArrives(folders, f, e);
    SolvedFacts(folders, f, e, f.entry);
    assert AvailableAtEnd(f, f.entry, v);
    AvailableCovered(folders, f, e, f.entry, v);
    OutIsValue(folders, f, e, values, f.entry, v);
    ParameterFact(folders, f, e, v);
  }

  // ---- and nothing satisfies them with less ----

  /** The facts with everything else unknown. */
  ghost function Total(f: Function, values: Facts): Facts {
    map v | v in Definitions(f) :: Fact(values, v)
  }

  lemma SameUnderTotal(folders: Folders, f: Function, values: Facts, reachable: set<BlockId>)
    requires AreFacts(folders, f, values, reachable)
    ensures forall v :: v in values ==> v in Definitions(f)
    ensures forall v, l :: IsConst(Total(f, values), v, l) <==> IsConst(values, v, l)
    ensures forall p, t :: GoesOn(f, Total(f, values), reachable, p, t) <==> GoesOn(f, values, reachable, p, t)
  {
    hide BlockFacts, Definitions;
    forall v | v in values ensures v in Definitions(f) {
      if v in f.parameters {
        ParametersDefined(f, v);
      } else {
        var d :| d in reachable && HomeOf(f, v, d);
        DefinesAreDefinitions(f, d, v);
      }
    }
  }

  lemma ParametersDefined(f: Function, v: Value)
    requires v in f.parameters
    ensures v in Definitions(f)
  {
  }

  lemma {:induction false} ValuesKnown(folders: Folders, f: Function, values: Facts, reachable: set<BlockId>, v: Value)
    requires AreFacts(folders, f, values, reachable) && v in values
    ensures !values[v].Bottom?
  {
    hide IsFact, GoesOn, Definitions;
    if v !in f.parameters {
      var d :| d in reachable && HomeOf(f, v, d);
      assert BlockFacts(folders, f, values, reachable, d);
      var block := Find(f.blocks, d).value;
      if v in Results(block.instructions) {
        InResults(block.instructions, v);
        var k :| 0 <= k < |block.instructions| && Result(block.instructions[k]) == Some(v);
        assert ResultIsFact(folders, f, values, reachable, d, block.instructions[k]);
        FactKnown(folders, f, values, reachable, d, block.instructions[k], values[v]);
      } else {
        assert ResultOf(block.terminator) == Some(v);
      }
    }
  }

  lemma FactKnown(folders: Folders, f: Function, values: Facts, reachable: set<BlockId>, b: BlockId, i: Instruction,
      x: Element)
    requires IsFact(folders, f, values, reachable, b, i, x)
    ensures !x.Bottom?
  {
  }

  lemma TotalAdmitsOne(folders: Folders, f: Function, values: Facts, reachable: set<BlockId>, b: BlockId,
      i: Instruction)
    requires AreFacts(folders, f, values, reachable) && ResultIsFact(folders, f, values, reachable, b, i)
    ensures AdmitsOne(folders, f, Total(f, values), reachable, b, i)
  {
    hide AreFacts, GoesOn, Definitions, InstructionFact, ComesTo;
    SameUnderTotal(folders, f, values, reachable);
    var total := Total(f, values);
    if Result(i).Some? {
      var v := Result(i).value;
      match i {
        case Operation(_, op, operands) =>
          if total[v].Const? {
            var l := total[v].literal;
            assert ComesTo(folders, op, operands, values, l);
            SameComesTo(folders, op, operands, values, total, l);
            ComesToIsFact(folders, i, total, l);
          }
        case Phi(_, _, incoming) =>
          if total[v].Const? {
            assert ReadsOnly(f, values, reachable, b, incoming, total[v].literal);
            forall k | 0 <= k < |incoming| && GoesOn(f, total, reachable, incoming[k].1, b)
              ensures Leq(Fact(total, incoming[k].0), total[v]) {
              assert IsConst(values, incoming[k].0, total[v].literal);
            }
          }
        case _ =>
      }
    }
  }

  lemma SameComesTo(folders: Folders, op: Op, operands: seq<Value>, values: Facts, total: Facts, l: Literal)
    requires forall v, x :: IsConst(total, v, x) <==> IsConst(values, v, x)
    ensures ComesTo(folders, op, operands, values, l) <==> ComesTo(folders, op, operands, total, l)
  {
    hide IsConst;
  }

  lemma TotalAdmitted(folders: Folders, f: Function, values: Facts, reachable: set<BlockId>)
    requires AreFacts(folders, f, values, reachable)
    ensures Admits(folders, f, Total(f, values), reachable)
  {
    hide GoesOn, Definitions, AdmitsOne, ResultIsFact;
    var total := Total(f, values);
    SameUnderTotal(folders, f, values, reachable);
    forall v | v in total ensures !total[v].Bottom? {
      if v in values {
        ValuesKnown(folders, f, values, reachable, v);
      }
    }
    forall b | b in reachable ensures BlockFacts(folders, f, values, reachable, b) {
    }
    forall b, k: nat | b in reachable && k < |Find(f.blocks, b).value.instructions|
      ensures AdmitsOne(folders, f, total, reachable, b, Find(f.blocks, b).value.instructions[k]) {
      assert BlockFacts(folders, f, values, reachable, b);
      TotalAdmitsOne(folders, f, values, reachable, b, Find(f.blocks, b).value.instructions[k]);
    }
  }

  /** Among all facts and blocks that satisfy the equations, those returned are the least: a value is
      constant when it is in any, and a block not reached in any is not reached. */
  lemma FactsAreLeast(folders: Folders, f: Function, values: Facts, reachable: set<BlockId>, values': Facts,
      reachable': set<BlockId>)
    requires Analysable(f) && IsPropagation(folders, f, values, reachable)
    requires AreFacts(folders, f, values', reachable')
    ensures reachable <= reachable'
    ensures forall v :: v in values ==> v in values' && Leq(values[v], values'[v])
  {
    hide Analysable, Solves, Collected, HomeOf, Out, Admits, AreFacts, GoesOn;
    var e :| Solves(folders, f, e) && Collected(folders, f, e, values, reachable) && reachable == e.Keys;
    TotalAdmitted(folders, f, values', reachable');
    forall b | b in reachable ensures b in reachable' {
      Bounded(folders, f, e, Total(f, values'), reachable', b);
    }
    forall v | v in values ensures v in values' && Leq(values[v], values'[v]) {
      CollectedHome(folders, f, e, values, v);
      var b :| b in e && v in Out(folders, f, e, b);
      OutIsValue(folders, f, e, values, b, v);
      Bounded(folders, f, e, Total(f, values'), reachable', b);
      HasFact(folders, f, values', reachable', reachable, v);
    }
  }

  lemma HasFact(folders: Folders, f: Function, values: Facts, reachable: set<BlockId>, some: set<BlockId>, v: Value)
    requires AreFacts(folders, f, values, reachable) && some <= reachable
    requires v in f.parameters || exists d :: d in some && HomeOf(f, v, d)
    ensures v in values
  {
    hide IsFact, GoesOn;
    if v !in f.parameters {
      var d :| d in some && HomeOf(f, v, d);
      assert BlockFacts(folders, f, values, reachable, d);
      var block := Find(f.blocks, d).value;
      if v in Results(block.instructions) {
        InResults(block.instructions, v);
        var k :| 0 <= k < |block.instructions| && Result(block.instructions[k]) == Some(v);
        assert ResultIsFact(folders, f, values, reachable, d, block.instructions[k]);
      }
    }
  }
}
