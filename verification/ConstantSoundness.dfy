/** The facts of constant propagation hold in every run. */
module ConstantSoundness {
  import opened Graphs
  import opened Options
  import opened IR
  import opened SSAForm
  import opened SSAProperties
  import opened Solver
  import opened Constants

  /** The values a machine gives literals, and the folding of operators on them, agree. */
  ghost predicate Faithful<V(!new), W(!new)>(sem: Semantics<V, W>, folders: Folders, lit: Literal -> V) {
    && (forall l, vs, w :: sem.apply(Constant(l), vs, w).0 == lit(l))
    && (forall o, l, r, w {:trigger sem.apply(BinaryOp(o), [lit(l), lit(r)], w)} ::
          folders.binary(o, l, r).Some? ==>
            sem.apply(BinaryOp(o), [lit(l), lit(r)], w).0 == lit(folders.binary(o, l, r).value))
    && (forall o, l, r, w {:trigger sem.apply(Compare(o), [lit(l), lit(r)], w)} ::
          folders.compare(o, l, r).Some? ==>
            sem.apply(Compare(o), [lit(l), lit(r)], w).0 == lit(folders.compare(o, l, r).value))
    && (forall o, l, w {:trigger sem.apply(UnaryOp(o), [lit(l)], w)} ::
          folders.unary(o, l).Some? && o in NEGATIONS ==>
            sem.apply(UnaryOp(o), [lit(l)], w).0 == lit(folders.unary(o, l).value))
    && (forall x, w :: sem.apply(UnaryOp("not"), [x], w).0 == lit(BoolLiteral(!sem.truth(x))))
    && (forall l :: sem.truth(lit(l)) == Truthy(l))
  }

  ghost predicate Holds<V>(lit: Literal -> V, x: V, e: Element) {
    match e
    case Bottom => false
    case Const(l) => x == lit(l)
    case Top => true
  }

  lemma HoldsMore<V>(lit: Literal -> V, x: V, a: Element, b: Element)
    requires Holds(lit, x, a) && Leq(a, b)
    ensures Holds(lit, x, b)
  {
  }

  ghost predicate EnvHolds<V>(lit: Literal -> V, env: map<Value, V>, state: Facts) {
    forall v :: v in env ==> v in state && Holds(lit, env[v], state[v])
  }

  lemma EnvHoldsMore<V>(lit: Literal -> V, env: map<Value, V>, a: Facts, b: Facts)
    requires EnvHolds(lit, env, a) && FactsLeq(a, b)
    ensures EnvHolds(lit, env, b)
  {
    forall v | v in env ensures v in b && Holds(lit, env[v], b[v]) {
      HoldsMore(lit, env[v], a[v], b[v]);
    }
  }

  // ---- one instruction ----

  lemma OperationHolds<V(!new), W(!new)>(sem: Semantics<V, W>, folders: Folders, lit: Literal -> V, i: Instruction,
      env: map<Value, V>, state: Facts, w: W)
    requires Faithful(sem, folders, lit) && i.Operation?
    requires forall v :: v in i.operands ==> v in env && v in state && Holds(lit, env[v], state[v])
    ensures Holds(lit, sem.apply(i.op, GetAll(sem, env, i.operands), w).0, InstructionFact(folders, i, state))
  {
    var vs := GetAll(sem, env, i.operands);
    match i.op {
      case Constant(l) =>
      case BinaryOp(o) =>
        if |vs| == 2 && InstructionFact(folders, i, state).Const? {
          assert i.operands[0] in i.operands && i.operands[1] in i.operands;
          assert vs == [lit(state[i.operands[0]].literal), lit(state[i.operands[1]].literal)];
        }
      case Compare(o) =>
        if |vs| == 2 && InstructionFact(folders, i, state).Const? {
          assert i.operands[0] in i.operands && i.operands[1] in i.operands;
          assert vs == [lit(state[i.operands[0]].literal), lit(state[i.operands[1]].literal)];
        }
      case UnaryOp(o) =>
        if |vs| == 1 && InstructionFact(folders, i, state).Const? {
          assert i.operands[0] in i.operands;
          assert vs == [lit(state[i.operands[0]].literal)];
        }
      case Other(_) =>
    }
  }

  // ---- one block ----

  /** Value `v` is made by a phi not reached yet. */
  ghost predicate PhiLater(code: seq<Instruction>, k: nat, v: Value) {
    exists j :: k <= j < |code| && code[j].Phi? && code[j].result == v
  }

  /** What is known of the values before position `k`; the phis were all read on entry. */
  ghost predicate HoldsAt<V>(folders: Folders, lit: Literal -> V, code: seq<Instruction>, arriving: Arriving<Facts>,
      k: nat, env: map<Value, V>)
    requires k <= |code|
  {
    && (forall v :: v in env && !PhiLater(code, k, v) ==>
      v in FactsAfter(folders, code[..k], arriving) && Holds(lit, env[v], FactsAfter(folders, code[..k], arriving)[v]))
    && (forall j :: k <= j < |code| && code[j].Phi? && code[j].result in env ==>
      Holds(lit, env[code[j].result], PhiFact(code[j].incoming, arriving)))
  }

  /** The instructions of a block make different values. */
  ghost predicate Apart(code: seq<Instruction>) {
    forall i, j :: 0 <= i < j < |code| && Result(code[i]).Some? ==> Result(code[i]) != Result(code[j])
  }

  lemma StepHolds<V(!new), W(!new)>(sem: Semantics<V, W>, folders: Folders, lit: Literal -> V, code: seq<Instruction>,
      arriving: Arriving<Facts>, k: nat, s: State<V, W>)
    requires Faithful(sem, folders, lit) && k < |code| && HoldsAt(folders, lit, code, arriving, k, s.env)
    requires Apart(code) && NoLocals(code)
    requires forall v :: v in ReadsOf(code[k]) ==> v in s.env
    ensures HoldsAt(folders, lit, code, arriving, k + 1, Do(sem, code[k], s).env)
  {
    hide Faithful, InstructionFact, PhiFact;
    var i := code[k];
    assert code[..k + 1][..k] == code[..k];
    var before, after := FactsAfter(folders, code[..k], arriving), FactsAfter(folders, code[..k + 1], arriving);
    assert after == NextFact(folders, i, arriving, before);
    var env, env' := s.env, Do(sem, i, s).env;
    forall v ensures PhiLater(code, k, v) <==> PhiLater(code, k + 1, v) || (i.Phi? && i.result == v) {
      if PhiLater(code, k, v) {
        var j :| k <= j < |code| && code[j].Phi? && code[j].result == v;
        assert j == k || PhiLater(code, k + 1, v);
      }
    }
    PlainFact(folders, i, before);
    if i.Operation? {
      forall v | v in i.operands ensures v in before && Holds(lit, env[v], before[v]) {
        assert v in ReadsOf(i);
      }
      OperationHolds(sem, folders, lit, i, env, before, s.world);
    }
    forall v | v in env' && !PhiLater(code, k + 1, v) ensures v in after && Holds(lit, env'[v], after[v]) {
      if Result(i) == Some(v) {
        if i.Phi? {
          assert code[k].Phi? && code[k].result in env;
        }
      } else {
        assert v in env && !PhiLater(code, k, v) && env'[v] == env[v];
      }
    }
    forall j | k + 1 <= j < |code| && code[j].Phi? && code[j].result in env'
      ensures Holds(lit, env'[code[j].result], PhiFact(code[j].incoming, arriving)) {
      assert Result(code[k]).Some? ==> Result(code[k]) != Result(code[j]);
    }
  }

  lemma PlainFact(folders: Folders, i: Instruction, state: Facts)
    ensures !i.Operation? ==> InstructionFact(folders, i, state) == Top
  {
  }

  /** What is defined before a position has a value there. */
  ghost predicate Defined<V>(f: Function, b: BlockId, k: nat, env: map<Value, V>) {
    forall v {:trigger Available(f, b, k, v)} :: Available(f, b, k, v) ==> v in env
  }

  lemma DefinedStep<V, W>(sem: Semantics<V, W>, f: Function, b: BlockId, k: nat, s: State<V, W>)
    requires Find(f.blocks, b).Some? && k < |Find(f.blocks, b).value.instructions| && Defined(f, b, k, s.env)
    requires Find(f.blocks, b).value.instructions[k].Phi? ==> Find(f.blocks, b).value.instructions[k].result in s.env
    ensures Defined(f, b, k + 1, Do(sem, Find(f.blocks, b).value.instructions[k], s).env)
  {
    hide SSAProperties.DefinedAbove, ItemOf;
    var code := Find(f.blocks, b).value.instructions;
    forall v | Available(f, b, k + 1, v) ensures v in Do(sem, code[k], s).env {
      assert code[..k + 1][..k] == code[..k];
      if Result(code[k]) != Some(v) {
        assert Available(f, b, k, v);
      }
    }
  }

  /** From its start to its end, a block keeps what is known. */
  lemma {:induction false} BlockHolds<V(!new), W(!new)>(sem: Semantics<V, W>, folders: Folders, lit: Literal -> V,
      f: Function, b: BlockId, arriving: Arriving<Facts>, k: nat, s: State<V, W>)
    requires Faithful(sem, folders, lit) && Find(f.blocks, b).Some? && UsesAvailable(f, b)
    requires var code := Find(f.blocks, b).value.instructions;
      Apart(code) && NoLocals(code) && k <= |code| && HoldsAt(folders, lit, code, arriving, 0, s.env)
      && forall j :: 0 <= j < |code| && code[j].Phi? ==> code[j].result in s.env
    requires Defined(f, b, 0, s.env)
    ensures var code := Find(f.blocks, b).value.instructions; var s' := DoAll(sem, code[..k], s);
      && HoldsAt(folders, lit, code, arriving, k, s'.env) && Defined(f, b, k, s'.env) && s.env.Keys <= s'.env.Keys
  {
    hide HoldsAt, Defined, Faithful, Apart, NoLocals, Find;
    var code := Find(f.blocks, b).value.instructions;
    if k > 0 {
      BlockHolds(sem, folders, lit, f, b, arriving, k - 1, s);
      assert code[..k][..k - 1] == code[..k - 1];
      var here := DoAll(sem, code[..k - 1], s);
      ReadsDefined(f, b, k - 1, here.env);
      StepHolds(sem, folders, lit, code, arriving, k - 1, here);
      DefinedStep(sem, f, b, k - 1, here);
      KeysKept(sem, code[k - 1], here);
    } else {
      assert code[..0] == [];
    }
  }

  lemma KeysKept<V, W>(sem: Semantics<V, W>, i: Instruction, s: State<V, W>)
    ensures s.env.Keys <= Do(sem, i, s).env.Keys
    ensures forall v :: v in s.env && Result(i) != Some(v) ==> Do(sem, i, s).env[v] == s.env[v]
    ensures forall v :: v in Do(sem, i, s).env && v !in s.env ==> Result(i) == Some(v)
  {
  }

  lemma ReadsDefined<V>(f: Function, b: BlockId, k: nat, env: map<Value, V>)
    requires Find(f.blocks, b).Some? && UsesAvailable(f, b) && k < |Find(f.blocks, b).value.instructions|
      && Defined(f, b, k, env)
    ensures forall v :: v in ReadsOf(Find(f.blocks, b).value.instructions[k]) ==> v in env
  {
    hide Available;
  }

  // ---- reading phis ----

  /** What a value is once the phis are read. */
  ghost predicate ReadsTo<V, W>(sem: Semantics<V, W>, code: seq<Instruction>, p: BlockId, before: map<Value, V>,
      env: map<Value, V>, env': map<Value, V>) {
    && (forall j :: 0 <= j < |code| && code[j].Phi? && From(code[j].incoming, p).Some? ==>
      code[j].result in env' && env'[code[j].result] == Get(sem, before, From(code[j].incoming, p).value))
    && (forall v :: !PhiLater(code, 0, v) ==> (v in env' <==> v in env) && (v in env ==> env'[v] == env[v]))
    && env.Keys <= env'.Keys
  }

  lemma LaterInRest(code: seq<Instruction>, v: Value)
    requires code != []
    ensures PhiLater(code, 0, v) <==> PhiLater(code[1..], 0, v) || (code[0].Phi? && code[0].result == v)
  {
    var rest := code[1..];
    if PhiLater(code, 0, v) {
      var j :| 0 <= j < |code| && code[j].Phi? && code[j].result == v;
      if j > 0 { assert rest[j - 1] == code[j]; }
    }
    if PhiLater(rest, 0, v) {
      var j :| 0 <= j < |rest| && rest[j].Phi? && rest[j].result == v;
      assert code[j + 1] == rest[j];
    }
  }

  lemma ApartRest(code: seq<Instruction>)
    requires code != [] && Apart(code)
    ensures Apart(code[1..]) && (code[0].Phi? ==> !PhiLater(code[1..], 0, code[0].result))
  {
    var rest := code[1..];
    forall a, b | 0 <= a < b < |rest| && Result(rest[a]).Some? ensures Result(rest[a]) != Result(rest[b]) {
      assert Result(code[a + 1]) != Result(code[b + 1]);
    }
    if code[0].Phi? {
      forall j | 0 <= j < |rest| && rest[j].Phi? ensures rest[j].result != code[0].result {
        assert Result(code[0]) != Result(code[j + 1]);
      }
    }
  }

  /** Reading the phis gives each what one of its operands held, and changes nothing else. */
  lemma {:induction false} PhisRead<V, W>(sem: Semantics<V, W>, code: seq<Instruction>, p: BlockId,
      before: map<Value, V>, env: map<Value, V>)
    requires Apart(code)
    ensures ReadsTo(sem, code, p, before, env, ReadPhis(sem, code, p, before, env))
    decreases |code|
  {
    hide Apart, PhiLater;
    if code != [] {
      var i, rest := code[0], code[1..];
      ApartRest(code);
      var v := if i.Phi? then From(i.incoming, p) else None;
      var env1 := if v.Some? then env[i.result := Get(sem, before, v.value)] else env;
      PhisRead(sem, rest, p, before, env1);
      var env' := ReadPhis(sem, code, p, before, env);
      assert env' == ReadPhis(sem, rest, p, before, env1);
      forall u ensures PhiLater(code, 0, u) <==> PhiLater(rest, 0, u) || (i.Phi? && i.result == u) {
        LaterInRest(code, u);
      }
      forall j | 0 <= j < |code| && code[j].Phi? && From(code[j].incoming, p).Some?
        ensures code[j].result in env' && env'[code[j].result] == Get(sem, before, From(code[j].incoming, p).value)
      {
        if j > 0 { assert rest[j - 1] == code[j]; }
      }
    } else {
      NoneLater(code);
    }
  }

  lemma NoneLater(code: seq<Instruction>)
    requires code == []
    ensures forall v :: !PhiLater(code, 0, v)
  {
  }

  /** The fact of a phi covers what it reads on a reached edge. */
  lemma {:induction false} PhiCovers(operands: seq<(Value, BlockId)>, arriving: Arriving<Facts>, k: nat)
    requires k < |operands| && operands[k].1 in arriving
    ensures Leq(Fact(arriving[operands[k].1], operands[k].0), PhiFact(operands, arriving))
  {
    var rest := operands[..|operands| - 1];
    var (v, p) := operands[|operands| - 1];
    if k < |rest| {
      PhiCovers(rest, arriving, k);
      assert rest[k] == operands[k];
      if p in arriving {
        LeqLaws(PhiFact(rest, arriving), Fact(arriving[p], v), Top);
        LeqLaws(Fact(arriving[operands[k].1], operands[k].0), PhiFact(rest, arriving), PhiFact(operands, arriving));
      }
    } else {
      LeqLaws(PhiFact(rest, arriving), Fact(arriving[p], v), Top);
    }
  }

  lemma {:induction false} FromAt(incoming: seq<(Value, BlockId)>, p: BlockId) returns (k: nat)
    requires p in Sources(incoming)
    ensures From(incoming, p).Some? && k < |incoming| && incoming[k] == (From(incoming, p).value, p)
    decreases |incoming|
  {
    if incoming[0].1 == p {
      k := 0;
    } else {
      var j :| 0 <= j < |Sources(incoming)| && Sources(incoming)[j] == p;
      assert Sources(incoming[1..])[j - 1] == p;
      k := FromAt(incoming[1..], p);
      k := k + 1;
    }
  }

  // ---- edges ----

  /** What holds at the end of a block of a run. */
  ghost predicate AtEnd<V>(folders: Folders, f: Function, e: Edges<Facts>, lit: Literal -> V, b: BlockId,
      env: map<Value, V>) {
    && b in e && Find(f.blocks, b).Some?
    && EnvHolds(lit, env, Out(folders, f, e, b))
    && Defined(f, b, |Find(f.blocks, b).value.instructions|, env)
  }

  lemma SolvedFacts(folders: Folders, f: Function, e: Edges<Facts>, b: BlockId)
    requires Analysable(f) && Solves(folders, f, e) && b in e
    ensures Find(f.blocks, b).Some? && ArrivingOk(f, b, e[b]) && b != START
  {
    hide IsSSA, Least, Settled, Traced;
    IdFound(f, b);
    NotFromStart(f, b);
    assert AllOk(ConstantProblem(folders, f), b, e[b]);
  }

  lemma SentOn(folders: Folders, f: Function, e: Edges<Facts>, b: BlockId, t: BlockId)
    requires Analysable(f) && Solves(folders, f, e) && b in e && Find(f.blocks, b).Some?
    requires t in Exits(Find(f.blocks, b).value, Out(folders, f, e, b))
    ensures t in e && b in e[t] && e[t][b] == Out(folders, f, e, b)
  {
    hide Analysable, Least, WellFormed, Traced, Evaluated, EdgeOk, Exits;
    SolvedFacts(folders, f, e, b);
    assert Recorded(ConstantProblem(folders, f), e, b, t);
  }

  /** The item of a loop enters its body only as it is taken. */
  lemma DefinedOnEdge<V>(f: Function, b: BlockId, t: BlockId, env: map<Value, V>, env': map<Value, V>)
    requires Connected(f) && Find(f.blocks, b).Some? && Edge(SuccessorTable(f.blocks), b, t)
    requires Defined(f, b, |Find(f.blocks, b).value.instructions|, env) && env.Keys <= env'.Keys
    requires var x := Find(f.blocks, b).value.terminator; x.ForNext? && t == x.body && x.result.Some? ==>
      x.result.value in env'
    ensures Defined(f, t, 0, env')
  {
    forall v | Available(f, t, 0, v) ensures v in env' {
      var code := Find(f.blocks, b).value.instructions;
      if v in f.parameters {
        assert Available(f, b, |code|, v);
      } else if c :| SSAProperties.DefinedAbove(f, c, t, v) {
        AboveArrives(f, t, b, c, v);
        assert Available(f, b, |code|, v);
      } else {
        assert ItemOf(f, t, v);
        var h :| Find(f.blocks, h).Some? && var x := Find(f.blocks, h).value.terminator; x.ForNext? && x.body == t && x.result == Some(v);
        assert OwnBody(f, h);
      }
    }
  }

  /** After the phis of `t` are read on an edge, each is what its fact says. */
  lemma EachPhiHolds<V, W>(sem: Semantics<V, W>, folders: Folders, lit: Literal -> V, f: Function, e: Edges<Facts>,
      b: BlockId, t: BlockId, env: map<Value, V>, env': map<Value, V>)
    requires Analysable(f) && t in e && b in e[t] && e[t][b] == Out(folders, f, e, b)
      && EnvHolds(lit, env, Out(folders, f, e, b))
    requires Find(f.blocks, b).Some? && Find(f.blocks, t).Some? && Edge(SuccessorTable(f.blocks), b, t)
    requires Defined(f, b, |Find(f.blocks, b).value.instructions|, env)
    requires ReadsTo(sem, Find(f.blocks, t).value.instructions, b, env, env, env')
    ensures var code := Find(f.blocks, t).value.instructions;
      forall j :: 0 <= j < |code| && code[j].Phi? ==>
        code[j].result in env' && Holds(lit, env'[code[j].result], PhiFact(code[j].incoming, e[t]))
  {
    assert UsesAvailable(f, t);
    hide Out, Available, PhiLater, Apart, Connected, Defined, SuccessorTable, EnvHolds, Find, IsSSA, Holds, PhiFact;
    var code := Find(f.blocks, t).value.instructions;
    forall j | 0 <= j < |code| && code[j].Phi? ensures code[j].result in env'
      && Holds(lit, env'[code[j].result], PhiFact(code[j].incoming, e[t])) {
      PhiHolds(folders, lit, f, e, b, t, env, code[j].incoming);
    }
  }

  /** Entering a block over a reached edge. */
  lemma PhisHold<V, W>(sem: Semantics<V, W>, folders: Folders, lit: Literal -> V, f: Function, e: Edges<Facts>,
      b: BlockId, t: BlockId, env: map<Value, V>)
    requires Analysable(f) && t in e && b in e[t] && e[t][b] == Out(folders, f, e, b)
      && EnvHolds(lit, env, Out(folders, f, e, b))
    requires Find(f.blocks, b).Some? && Find(f.blocks, t).Some? && Edge(SuccessorTable(f.blocks), b, t)
    requires Defined(f, b, |Find(f.blocks, b).value.instructions|, env) && Apart(Find(f.blocks, t).value.instructions)
    ensures var code := Find(f.blocks, t).value.instructions; var env' := ReadPhis(sem, code, b, env, env);
      && HoldsAt(folders, lit, code, e[t], 0, env') && env.Keys <= env'.Keys
      && forall j :: 0 <= j < |code| && code[j].Phi? ==> code[j].result in env'
  {
    hide Out, Analysable, PhiLater, Apart, ReadPhis, Defined, SuccessorTable, Find, PhiFact, Holds, Joined;
    var code := Find(f.blocks, t).value.instructions;
    var env' := ReadPhis(sem, code, b, env, env);
    PhisRead(sem, code, b, env, env);
    EachPhiHolds(sem, folders, lit, f, e, b, t, env, env');
    assert code[..0] == [];
    ArrivesJoined(e[t], b);
    EnvHoldsMore(lit, env, e[t][b], Joined(e[t]));
  }

  lemma PhiHolds<V>(folders: Folders, lit: Literal -> V, f: Function, e: Edges<Facts>, b: BlockId, t: BlockId,
      env: map<Value, V>, incoming: seq<(Value, BlockId)>)
    requires Connected(f) && t in e && b in e[t] && e[t][b] == Out(folders, f, e, b)
      && EnvHolds(lit, env, Out(folders, f, e, b))
    requires Find(f.blocks, b).Some? && Edge(SuccessorTable(f.blocks), b, t) && OperandsAvailable(f, t, incoming)
    requires Defined(f, b, |Find(f.blocks, b).value.instructions|, env)
    ensures From(incoming, b).Some? && From(incoming, b).value in env
      && Holds(lit, env[From(incoming, b).value], PhiFact(incoming, e[t]))
  {
    hide Out, Available;
    IsPredecessor(f, b, t);
    var k := FromAt(incoming, b);
    assert AvailableAtEnd(f, incoming[k].1, incoming[k].0);
    PhiCovers(incoming, e[t], k);
    HoldsMore(lit, env[incoming[k].0], Fact(e[t][b], incoming[k].0), PhiFact(incoming, e[t]));
  }

  lemma BlockApart(f: Function, b: BlockId)
    requires Analysable(f) && Find(f.blocks, b).Some?
    ensures Apart(Find(f.blocks, b).value.instructions) && NoLocals(Find(f.blocks, b).value.instructions)
      && UsesAvailable(f, b)
  {
    hide Connected, UsesAvailable, NoLocals;
    var k := FindWhere(f.blocks, b);
    var code := f.blocks[k].instructions;
    DefinesDistinct(f, k);
    forall i, j | 0 <= i < j < |code| && Result(code[i]).Some? ensures Result(code[i]) != Result(code[j]) {
      if Result(code[i]) == Result(code[j]) {
        TwiceMade(code, i, j);
      }
    }
  }

  lemma {:induction false} TwiceMade(code: seq<Instruction>, i: nat, j: nat)
    requires i < j < |code| && Result(code[i]).Some? && Result(code[i]) == Result(code[j])
    ensures !SSAProperties.Distinct(Results(code))
  {
    var n := |code| - 1;
    var before := Results(code[..n]);
    if j < n {
      TwiceMade(code[..n], i, j);
      if SSAProperties.Distinct(Results(code)) {
        SliceDistinct(before, if Result(code[n]).Some? then [Result(code[n]).value] else []);
      }
    } else {
      InResults(code[..n], Result(code[n]).value);
      assert Result(code[..n][i]) == Result(code[n]);
      var k :| 0 <= k < |before| && before[k] == Result(code[n]).value;
      assert Results(code)[k] == Results(code)[|before|];
    }
  }

  // ---- whole runs ----

  ghost predicate ConfigHolds<V, W>(folders: Folders, f: Function, e: Edges<Facts>, lit: Literal -> V,
      c: Config<V, W>) {
    c.At? ==> AtEnd(folders, f, e, lit, c.block, c.state.env)
  }

  /** A block run from its start. */
  lemma BlockEnds<V(!new), W(!new)>(sem: Semantics<V, W>, folders: Folders, lit: Literal -> V, f: Function,
      e: Edges<Facts>, t: BlockId, s: State<V, W>)
    requires Faithful(sem, folders, lit) && Analysable(f) && t in e && Find(f.blocks, t).Some?
    requires HoldsAt(folders, lit, Find(f.blocks, t).value.instructions, e[t], 0, s.env) && Defined(f, t, 0, s.env)
    requires var code := Find(f.blocks, t).value.instructions; forall j :: 0 <= j < |code| && code[j].Phi? ==>
      code[j].result in s.env
    ensures AtEnd(folders, f, e, lit, t, DoAll(sem, Find(f.blocks, t).value.instructions, s).env)
  {
    hide Faithful, Analysable, Apart, NoLocals, Defined;
    var code := Find(f.blocks, t).value.instructions;
    BlockApart(f, t);
    BlockHolds(sem, folders, lit, f, t, e[t], |code|, s);
    assert code[..|code|] == code;
    var env := DoAll(sem, code, s).env;
    forall v | v in env ensures v in Out(folders, f, e, t) && Holds(lit, env[v], Out(folders, f, e, t)[v]) {
      assert !PhiLater(code, |code|, v);
    }
  }

  lemma EnterHolds<V(!new), W(!new)>(sem: Semantics<V, W>, folders: Folders, lit: Literal -> V, f: Function,
      e: Edges<Facts>, b: BlockId, t: BlockId, s: State<V, W>, env: map<Value, V>)
    requires Faithful(sem, folders, lit) && Analysable(f) && Solves(folders, f, e) && AtEnd(folders, f, e, lit, b, env)
    requires t in Exits(Find(f.blocks, b).value, Out(folders, f, e, b))
    requires EnvHolds(lit, s.env, Out(folders, f, e, b)) && env.Keys <= s.env.Keys
    requires var x := Find(f.blocks, b).value.terminator; x.ForNext? && t == x.body && x.result.Some? ==>
      x.result.value in s.env
    ensures ConfigHolds(folders, f, e, lit, Enter(sem, f, b, t, s))
  {
    hide Faithful, Solves, HoldsAt, Evaluated, IsSSA, Defined;
    var block := Find(f.blocks, b).value;
    SentOn(folders, f, e, b, t);
    SolvedFacts(folders, f, e, t);
    ExitsAreSuccessors(block, Out(folders, f, e, b), t);
    assert Edge(SuccessorTable(f.blocks), b, t);
    BlockApart(f, t);
    DefinedMore(f, b, |block.instructions|, env, s.env);
    PhisHold(sem, folders, lit, f, e, b, t, s.env);
    var code := Find(f.blocks, t).value.instructions;
    var env' := ReadPhis(sem, code, b, s.env, s.env);
    DefinedOnEdge(f, b, t, s.env, env');
    BlockEnds(sem, folders, lit, f, e, t, s.(env := env'));
  }

  lemma DefinedMore<V>(f: Function, b: BlockId, k: nat, env: map<Value, V>, env': map<Value, V>)
    requires Defined(f, b, k, env) && env.Keys <= env'.Keys
    ensures Defined(f, b, k, env')
  {
  }

  lemma ItemIsTop(folders: Folders, f: Function, e: Edges<Facts>, b: BlockId)
    requires b in e && Find(f.blocks, b).Some? && ResultOf(Find(f.blocks, b).value.terminator).Some?
    ensures var v := ResultOf(Find(f.blocks, b).value.terminator).value; v in Out(folders, f, e, b) && Out(folders, f, e, b)[v] == Top
  {
  }

  lemma ItemHolds<V>(lit: Literal -> V, env: map<Value, V>, state: Facts, v: Value, x: V)
    requires EnvHolds(lit, env, state) && v in state && state[v] == Top
    ensures EnvHolds(lit, env[v := x], state)
  {
  }

  /** The side a branch takes is one its facts leave open. */
  lemma BranchOpen<V(!new), W(!new)>(sem: Semantics<V, W>, folders: Folders, lit: Literal -> V, f: Function,
      e: Edges<Facts>, b: BlockId, env: map<Value, V>)
    requires Faithful(sem, folders, lit) && Analysable(f) && AtEnd(folders, f, e, lit, b, env)
      && Find(f.blocks, b).value.terminator.Branch?
    ensures var t := Find(f.blocks, b).value.terminator;
      (if sem.truth(Get(sem, env, t.condition)) then t.thenBlock else t.elseBlock) in Exits(Find(f.blocks, b).value,
        Out(folders, f, e, b))
  {
    hide Analysable, Evaluated, Available;
    var block := Find(f.blocks, b).value;
    var t := block.terminator;
    ConditionKnown(f, b);
    assert t.condition in env;
    var state := Out(folders, f, e, b);
    var sides := if Fact(state, t.condition).Const? then [if Truthy(Fact(state, t.condition).literal) then t.thenBlock
      else t.elseBlock] else [t.thenBlock, t.elseBlock];
    assert Exits(block, state) == block.exceptionTargets + sides;
    assert (if sem.truth(Get(sem, env, t.condition)) then t.thenBlock else t.elseBlock) in sides;
  }

  lemma LeaveHolds<V(!new), W(!new)>(sem: Semantics<V, W>, folders: Folders, lit: Literal -> V, f: Function,
      e: Edges<Facts>, b: BlockId, s: State<V, W>)
    requires Faithful(sem, folders, lit) && Analysable(f) && Solves(folders, f, e)
      && AtEnd(folders, f, e, lit, b, s.env)
    ensures ConfigHolds(folders, f, e, lit, Leave(sem, f, Find(f.blocks, b).value, s))
  {
    hide Faithful, Analysable, Solves, Out, Defined, Enter, EnvHolds, ConfigHolds, Exits;
    var block := Find(f.blocks, b).value;
    var k := FindWhere(f.blocks, b);
    var state := Out(folders, f, e, b);
    match block.terminator {
      case Return(vs) => Ended(folders, f, e, lit, Leave(sem, f, block, s));
      case Raise(vs) => Ended(folders, f, e, lit, Leave(sem, f, block, s));
      case Jump(t) =>
        PlainExits(block, state, t);
        EnterHolds(sem, folders, lit, f, e, b, t, s.(trace := s.trace + [Left([])]), s.env);
      case Branch(c, x, y) =>
        BranchOpen(sem, folders, lit, f, e, b, s.env);
        var v := Get(sem, s.env, c);
        EnterHolds(sem, folders, lit, f, e, b, if sem.truth(v) then x else y, s.(trace := s.trace + [Left([v])]),
          s.env);
      case ForNext(it, n, body, exit, r) =>
        PlainExits(block, state, body);
        PlainExits(block, state, exit);
        OwnBodyOf(f, b);
        var v := Get(sem, s.env, it);
        var (item, w) := sem.next(v, s.world);
        var s' := s.(world := w, trace := s.trace + [Left([v])]);
        if item.None? {
          EnterHolds(sem, folders, lit, f, e, b, exit, s', s.env);
        } else {
          ItemIsTop(folders, f, e, b);
          ItemHolds(lit, s.env, state, r.value, item.value);
          EnterHolds(sem, folders, lit, f, e, b, body, s'.(env := s'.env[r.value := item.value]), s.env);
        }
    }
  }

  lemma Ended<V, W>(folders: Folders, f: Function, e: Edges<Facts>, lit: Literal -> V, c: Config<V, W>)
    requires !c.At?
    ensures ConfigHolds(folders, f, e, lit, c)
  {
  }

  lemma PlainExits(b: Block, state: Facts, t: BlockId)
    requires !b.terminator.Branch? && t in Targets(b.terminator)
    ensures t in Exits(b, state)
  {
  }

  lemma OwnBodyOf(f: Function, h: BlockId)
    requires Analysable(f) && Find(f.blocks, h).Some? && Find(f.blocks, h).value.terminator.ForNext?
    ensures OwnBody(f, h)
  {
    hide IsSSA;
  }

  lemma RaiseHolds<V(!new), W(!new)>(sem: Semantics<V, W>, folders: Folders, lit: Literal -> V, f: Function,
      e: Edges<Facts>, b: BlockId, t: BlockId, s: State<V, W>)
    requires Faithful(sem, folders, lit) && Analysable(f) && Solves(folders, f, e)
      && AtEnd(folders, f, e, lit, b, s.env)
    requires t in Find(f.blocks, b).value.exceptionTargets
    ensures ConfigHolds(folders, f, e, lit, Enter(sem, f, b, t, s))
  {
    hide Faithful, Analysable, Solves, Out, Defined, Enter, EnvHolds, ConfigHolds;
    var block := Find(f.blocks, b).value;
    if block.terminator.ForNext? {
      OwnBodyOf(f, b);
    }
    EnterHolds(sem, folders, lit, f, e, b, t, s, s.env);
  }

  lemma MoveHolds<V(!new), W(!new)>(sem: Semantics<V, W>, folders: Folders, lit: Literal -> V, f: Function,
      e: Edges<Facts>, c: Config<V, W>, choice: Choice)
    requires Faithful(sem, folders, lit) && Analysable(f) && Solves(folders, f, e) && ConfigHolds(folders, f, e, lit, c)
    ensures ConfigHolds(folders, f, e, lit, Move(sem, f, c, choice))
  {
    hide Faithful, Analysable, Solves, EnvHolds, Defined, Leave, Enter, Out;
    if c.At? {
      var k := FindWhere(f.blocks, c.block);
      var block := Find(f.blocks, c.block).value;
      if choice.Follow? {
        LeaveHolds(sem, folders, lit, f, e, c.block, c.state);
      } else if choice.handler in block.exceptionTargets {
        RaiseHolds(sem, folders, lit, f, e, c.block, choice.handler, c.state);
      }
    }
  }

  lemma StartHolds<V(!new), W(!new)>(sem: Semantics<V, W>, folders: Folders, lit: Literal -> V, f: Function,
      e: Edges<Facts>, arguments: map<Value, V>, w: W)
    requires Faithful(sem, folders, lit) && Analysable(f) && Solves(folders, f, e)
    requires forall v :: v in arguments <==> v in f.parameters
    ensures ConfigHolds(folders, f, e, lit, Start(sem, f, arguments, w))
  {
    hide Faithful, HoldsAt, EdgeOk, Defined;
    EntryArrives(folders, f, e);
    var code := Find(f.blocks, f.entry).value.instructions;
    EntryHolds(folders, lit, f, e, arguments);
    EntryDefined(f, arguments);
    BlockEnds(sem, folders, lit, f, e, f.entry, State(arguments, map[], w, []));
  }

  lemma EntryArrives(folders: Folders, f: Function, e: Edges<Facts>)
    requires Analysable(f) && Solves(folders, f, e)
    ensures f.entry in e && START in e[f.entry] && e[f.entry][START] == Initial(f) && Find(f.blocks, f.entry).Some?
    ensures forall j :: 0 <= j < |Find(f.blocks, f.entry).value.instructions| ==>
      !Find(f.blocks, f.entry).value.instructions[j].Phi?
  {
    hide IsSSA, Least, Settled, Traced, AllOk;
    var p := ConstantProblem(folders, f);
    assert Sent(p, {f.entry}, e, f.entry, START);
  }

  lemma EntryHolds<V>(folders: Folders, lit: Literal -> V, f: Function, e: Edges<Facts>, arguments: map<Value, V>)
    requires f.entry in e && START in e[f.entry] && e[f.entry][START] == Initial(f) && Find(f.blocks, f.entry).Some?
    requires forall j :: 0 <= j < |Find(f.blocks, f.entry).value.instructions| ==>
      !Find(f.blocks, f.entry).value.instructions[j].Phi?
    requires forall v :: v in arguments <==> v in f.parameters
    ensures HoldsAt(folders, lit, Find(f.blocks, f.entry).value.instructions, e[f.entry], 0, arguments)
  {
    var code := Find(f.blocks, f.entry).value.instructions;
    assert code[..0] == [];
    ArrivesJoined(e[f.entry], START);
    forall v | v in arguments ensures v in Joined(e[f.entry]) && Holds(lit, arguments[v], Joined(e[f.entry])[v]) {
      assert v in Initial(f);
    }
  }

  lemma EntryDefined<V>(f: Function, arguments: map<Value, V>)
    requires Connected(f) && forall v :: v in arguments <==> v in f.parameters
    ensures Defined(f, f.entry, 0, arguments)
  {
    hide Connected, SSAProperties.DefinedAbove, ItemOf;
    forall v | Available(f, f.entry, 0, v) ensures v in arguments {
      EntryDefines(f, v);
    }
  }

  /** Whatever a run does, it stays in reached blocks, and every value it computed is as the
      facts at the end of the block say. */
  lemma {:induction false} RunHolds<V(!new), W(!new)>(sem: Semantics<V, W>, folders: Folders, lit: Literal -> V,
      f: Function, e: Edges<Facts>, arguments: map<Value, V>, w: W, choices: seq<Choice>)
    requires Faithful(sem, folders, lit) && Analysable(f) && Solves(folders, f, e)
    requires forall v :: v in arguments <==> v in f.parameters
    ensures ConfigHolds(folders, f, e, lit, Run(sem, f, arguments, w, choices))
  {
    hide Faithful, Analysable, Solves, ConfigHolds;
    if choices == [] {
      StartHolds(sem, folders, lit, f, e, arguments, w);
    } else {
      RunHolds(sem, folders, lit, f, e, arguments, w, choices[..|choices| - 1]);
      MoveHolds(sem, folders, lit, f, e, Run(sem, f, arguments, w, choices[..|choices| - 1]), choices[|choices| - 1]);
    }
  }

  // ---- one fact for each value ----

  /** The fact at the end of the block defining a value; arguments may be anything. */
  ghost predicate Origin(folders: Folders, f: Function, e: Edges<Facts>, v: Value, x: Element) {
    if v in f.parameters then x == Top
    else exists d :: HomeOf(f, v, d) && d in e && v in Out(folders, f, e, d) && Out(folders, f, e, d)[v] == x
  }

  /** The value is defined where the analysis gets to, and `x` covers whatever it was then. */
  ghost predicate Covers(folders: Folders, f: Function, e: Edges<Facts>, v: Value, x: Element) {
    (exists y :: Origin(folders, f, e, v, y)) && forall y :: Origin(folders, f, e, v, y) ==> Leq(y, x)
  }

  /** A block passes on what arrives, but for what it defines. */
  lemma PassedOn(folders: Folders, f: Function, e: Edges<Facts>, t: BlockId, p: BlockId, v: Value)
    requires t in e && p in e[t] && v in e[t][p] && Find(f.blocks, t).Some? && v !in Defines(Find(f.blocks, t).value)
    ensures v in Out(folders, f, e, t) && Leq(e[t][p][v], Out(folders, f, e, t)[v])
  {
    hide Joined, Known;
    var block := Find(f.blocks, t).value;
    ArrivesJoined(e[t], p);
    UntouchedAfter(folders, block.instructions, e[t], v);
    NotDefined(block, v);
  }

  lemma NotDefined(b: Block, v: Value)
    requires v !in Defines(b)
    ensures v !in Results(b.instructions) && ResultOf(b.terminator) != Some(v)
  {
    if ResultOf(b.terminator).Some? {
      assert Defines(b)[|Results(b.instructions)|] == ResultOf(b.terminator).value;
    }
  }

  lemma {:induction false} UntouchedAfter(folders: Folders, code: seq<Instruction>, arriving: Arriving<Facts>, v: Value)
    requires v in Joined(arriving) && v !in Results(code)
    ensures v in FactsAfter(folders, code, arriving) && FactsAfter(folders, code, arriving)[v] == Joined(arriving)[v]
  {
    hide Joined;
    if code != [] {
      UntouchedAfter(folders, code[..|code| - 1], arriving, v);
    }
  }

  /** What is defined before a block starts is covered where it ends. */
  lemma {:induction false} TraceCovers(folders: Folders, f: Function, e: Edges<Facts>, w: seq<BlockId>, k: nat,
      v: Value)
    requires Analysable(f) && Solves(folders, f, e) && v !in f.parameters
    requires w != [] && k < |w| && (forall i :: 0 <= i < |w| ==> w[i] in e) && (forall i :: 0 < i < |w| ==>
      w[i - 1] in e[w[i]])
    requires HomeOf(f, v, w[k]) && forall i :: k < i < |w| ==> !HomeOf(f, v, w[i])
    ensures v in Out(folders, f, e, w[|w| - 1]) && Covers(folders, f, e, v, Out(folders, f, e, w[|w| - 1])[v])
  {
    hide Analysable, Solves, Out, Covers, HomeOf;
    var n := |w| - 1;
    if k == n {
      HomeCovers(folders, f, e, w[n], v);
    } else {
      TraceCovers(folders, f, e, w[..n], k, v);
      assert w[..n][n - 1] == w[n - 1];
      StepCovers(folders, f, e, w[n - 1], w[n], v);
    }
  }

  lemma StepCovers(folders: Folders, f: Function, e: Edges<Facts>, p: BlockId, t: BlockId, v: Value)
    requires Analysable(f) && Solves(folders, f, e) && t in e && p in e && p in e[t] && !HomeOf(f, v, t)
    requires v in Out(folders, f, e, p) && Covers(folders, f, e, v, Out(folders, f, e, p)[v])
    ensures v in Out(folders, f, e, t) && Covers(folders, f, e, v, Out(folders, f, e, t)[v])
  {
    hide Analysable, Solves, Out, Covers, ArrivingOk;
    SolvedFacts(folders, f, e, t);
    SolvedFacts(folders, f, e, p);
    EdgeIsOut(folders, f, e, p, t);
    PassedOn(folders, f, e, t, p, v);
    CoversMore(folders, f, e, v, Out(folders, f, e, p)[v], Out(folders, f, e, t)[v]);
  }

  lemma CoversMore(folders: Folders, f: Function, e: Edges<Facts>, v: Value, x: Element, y: Element)
    requires Covers(folders, f, e, v, x) && Leq(x, y)
    ensures Covers(folders, f, e, v, y)
  {
    hide Origin;
    forall z | Origin(folders, f, e, v, z) ensures Leq(z, y) {
      LeqLaws(z, x, y);
    }
  }

  lemma HomeOut(folders: Folders, f: Function, e: Edges<Facts>, d: BlockId, v: Value)
    requires HomeOf(f, v, d) && d in e
    ensures v in Out(folders, f, e, d)
  {
    hide Joined, Known, Results;
    var block := Find(f.blocks, d).value;
    AfterKeys(folders, block.instructions, e[d]);
    if v !in Results(block.instructions) {
      assert ResultOf(block.terminator) == Some(v);
    }
  }

  lemma HomeCovers(folders: Folders, f: Function, e: Edges<Facts>, d: BlockId, v: Value)
    requires Analysable(f) && HomeOf(f, v, d) && d in e
    ensures v !in f.parameters && v in Out(folders, f, e, d) && Covers(folders, f, e, v, Out(folders, f, e, d)[v])
    ensures Origin(folders, f, e, v, Out(folders, f, e, d)[v])
  {
    hide UsesAvailable, NoLocals, Joined, Known, Evaluated, Defines;
    OneHome(f, v, d, d);
    HomeOut(folders, f, e, d, v);
    hide Analysable, Out;
    assert Origin(folders, f, e, v, Out(folders, f, e, d)[v]);
    forall y | Origin(folders, f, e, v, y) ensures Leq(y, Out(folders, f, e, d)[v]) {
      var c :| HomeOf(f, v, c) && c in e && v in Out(folders, f, e, c) && Out(folders, f, e, c)[v] == y;
      SameHome(f, v, c, d);
    }
  }

  lemma SameHome(f: Function, v: Value, c: BlockId, d: BlockId)
    requires Analysable(f) && HomeOf(f, v, c) && HomeOf(f, v, d)
    ensures c == d && v !in f.parameters
  {
    hide UsesAvailable, NoLocals, Defines;
    OneHome(f, v, c, d);
  }

  /** A recorded edge carries the state at its source's end. */
  lemma EdgeIsOut(folders: Folders, f: Function, e: Edges<Facts>, p: BlockId, t: BlockId)
    requires Analysable(f) && Solves(folders, f, e) && t in e && p in e[t] && p != START
    ensures p in e && Find(f.blocks, p).Some? && e[t][p] == Out(folders, f, e, p)
      && Edge(SuccessorTable(f.blocks), p, t)
  {
    hide Analysable, Least, Traced, Evaluated, ArrivingOk, AllOk;
    var problem := ConstantProblem(folders, f);
    assert Sent(problem, {f.entry}, e, t, p);
    SolvedFacts(folders, f, e, p);
    assert Recorded(problem, e, p, t);
    ExitsAreSuccessors(Find(f.blocks, p).value, Out(folders, f, e, p), t);
  }

  /** A reached block is reached along a walk of the graph. */
  lemma TraceOf(folders: Folders, f: Function, e: Edges<Facts>, b: BlockId) returns (w: seq<BlockId>)
    requires Analysable(f) && Solves(folders, f, e) && b in e
    ensures Trace({f.entry}, e, w, b) && WalkTo(SuccessorTable(f.blocks), w, f.entry, b)
  {
    hide Least, Settled, WellFormed, IsSSA, SuccessorTable;
    assert Traced({f.entry}, e);
    w :| Trace({f.entry}, e, w, b);
    forall i | 0 <= i < |w| - 1 ensures Edge(SuccessorTable(f.blocks), w[i], w[i + 1]) {
      assert w[i + 1 - 1] in e[w[i + 1]];
      SolvedFacts(folders, f, e, w[i]);
      EdgeIsOut(folders, f, e, w[i], w[i + 1]);
    }
  }

  /** The item of a loop was defined on the way to its body. */
  lemma ItemOnWay(f: Function, w: seq<BlockId>, i: nat, v: Value) returns (k: nat)
    requires Connected(f) && IsWalk(SuccessorTable(f.blocks), w) && w[0] == f.entry && i < |w| && ItemOf(f, w[i], v)
    ensures k < |w| && HomeOf(f, v, w[k])
  {
    var h :| Find(f.blocks, h).Some? && var t := Find(f.blocks, h).value.terminator; t.ForNext? && t.body == w[i] && t.result == Some(v);
    assert OwnBody(f, h);
    EntryDefines(f, v);
    assert Edge(SuccessorTable(f.blocks), w[i - 1], w[i - 1 + 1]);
    k := i - 1;
    var block := Find(f.blocks, h).value;
    assert Defines(block)[|Results(block.instructions)|] == v;
  }

  /** What is available at the end of a block was defined on every walk to it. */
  lemma HomeOnWay(f: Function, w: seq<BlockId>, b: BlockId, v: Value) returns (k: nat)
    requires Connected(f) && WalkTo(SuccessorTable(f.blocks), w, f.entry, b) && AvailableAtEnd(f, b, v)
      && v !in f.parameters
    ensures k < |w| && HomeOf(f, v, w[k])
  {
    hide Connected;
    var block := Find(f.blocks, b).value;
    assert block.instructions[..|block.instructions|] == block.instructions;
    if c :| SSAProperties.DefinedAbove(f, c, b, v) {
      var i := FirstOccurrence(w, c);
      if v in Results(Find(f.blocks, c).value.instructions) {
        k := i;
      } else {
        k := ItemOnWay(f, w, i, v);
      }
    } else if ItemOf(f, b, v) {
      k := ItemOnWay(f, w, |w| - 1, v);
    } else {
      k := |w| - 1;
    }
  }

  lemma LastHome(f: Function, w: seq<BlockId>, v: Value, k0: nat) returns (k: nat)
    requires k0 < |w| && HomeOf(f, v, w[k0])
    ensures k < |w| && HomeOf(f, v, w[k]) && forall i :: k < i < |w| ==> !HomeOf(f, v, w[i])
  {
    k := |w| - 1;
    while !HomeOf(f, v, w[k])
      invariant k0 <= k < |w| && forall i :: k < i < |w| ==> !HomeOf(f, v, w[i])
      decreases k
    {
      k := k - 1;
    }
  }

  lemma AvailableCovered(folders: Folders, f: Function, e: Edges<Facts>, b: BlockId, v: Value)
    requires Analysable(f) && Solves(folders, f, e) && b in e && AvailableAtEnd(f, b, v)
    ensures v in Out(folders, f, e, b) && Covers(folders, f, e, v, Out(folders, f, e, b)[v])
  {
    hide IsSSA, Solves, AvailableAtEnd, Out, HomeOf, Covers;
    var w := TraceOf(folders, f, e, b);
    if v in f.parameters {
      ParameterCovered(folders, f, e, w, v);
    } else {
      var k := HomeOnWay(f, w, b, v);
      k := LastHome(f, w, v, k);
      TraceCovers(folders, f, e, w, k, v);
    }
  }

  lemma {:induction false} ParameterCovered(folders: Folders, f: Function, e: Edges<Facts>, w: seq<BlockId>, v: Value)
    requires Analysable(f) && Solves(folders, f, e) && v in f.parameters
    requires w != [] && w[0] == f.entry && (forall i :: 0 <= i < |w| ==> w[i] in e) && (forall i :: 0 < i < |w| ==>
      w[i - 1] in e[w[i]])
    ensures v in Out(folders, f, e, w[|w| - 1]) && Covers(folders, f, e, v, Out(folders, f, e, w[|w| - 1])[v])
  {
    hide Analysable, Solves, Out, HomeOf, Covers;
    var n := |w| - 1;
    SolvedFacts(folders, f, e, w[n]);
    NoHome(f, v, w[n]);
    if n == 0 {
      EntryArrives(folders, f, e);
      StartCovers(folders, f, e, v);
    } else {
      ParameterCovered(folders, f, e, w[..n], v);
      assert w[..n][n - 1] == w[n - 1];
      StepCovers(folders, f, e, w[n - 1], w[n], v);
    }
  }

  lemma NoHome(f: Function, v: Value, d: BlockId)
    requires Analysable(f) && v in f.parameters
    ensures !HomeOf(f, v, d)
  {
    hide HomeOf, UsesAvailable, NoLocals;
    if HomeOf(f, v, d) {
      OneHome(f, v, d, d);
    }
  }

  lemma StartCovers(folders: Folders, f: Function, e: Edges<Facts>, v: Value)
    requires f.entry in e && START in e[f.entry] && e[f.entry][START] == Initial(f) && Find(f.blocks, f.entry).Some?
    requires v in f.parameters && !HomeOf(f, v, f.entry)
    ensures v in Out(folders, f, e, f.entry) && Covers(folders, f, e, v, Out(folders, f, e, f.entry)[v])
  {
    PassedOn(folders, f, e, f.entry, START, v);
    assert Origin(folders, f, e, v, Top);
  }

  // ---- nothing stale is recorded ----

  ghost function Restricted(folders: Folders, f: Function, e: Edges<Facts>, state: Facts): Facts {
    map v | v in state && Covers(folders, f, e, v, state[v]) :: state[v]
  }

  /** The edges without the facts that do not cover. */
  ghost function AllRestricted(folders: Folders, f: Function, e: Edges<Facts>): Edges<Facts> {
    map t | t in e :: map p | p in e[t] :: Restricted(folders, f, e, e[t][p])
  }

  lemma RestrictedOk(folders: Folders, f: Function, e: Edges<Facts>, t: BlockId, p: BlockId)
    requires Analysable(f) && Solves(folders, f, e) && t in e && p in e[t]
    ensures EdgeOk(f, p, t, Restricted(folders, f, e, e[t][p])) && FactsLeq(Restricted(folders, f, e, e[t][p]), e[t][p])
  {
    hide Analysable, Solves, Out, Covers, AvailableAtEnd;
    SolvedFacts(folders, f, e, t);
    assert EdgeOk(f, p, t, e[t][p]);
    if p == START {
      forall v | v in f.parameters ensures v in Restricted(folders, f, e, e[t][p]) {
        InitialCovers(folders, f, e, t, v);
      }
    } else {
      EdgeIsOut(folders, f, e, p, t);
      forall v | AvailableAtEnd(f, p, v) ensures v in Restricted(folders, f, e, e[t][p]) {
        AvailableCovered(folders, f, e, p, v);
      }
      var item := ResultOf(Find(f.blocks, p).value.terminator);
      if item.Some? {
        ItemHome(f, p);
        HomeCovers(folders, f, e, p, item.value);
      }
    }
  }

  lemma InitialCovers(folders: Folders, f: Function, e: Edges<Facts>, t: BlockId, v: Value)
    requires Solves(folders, f, e) && t in e && START in e[t] && v in f.parameters
    ensures v in e[t][START] && Covers(folders, f, e, v, e[t][START][v])
  {
    hide Least, Settled, Traced, AllOk;
    assert Sent(ConstantProblem(folders, f), {f.entry}, e, t, START);
  }

  /** What a block makes of covering facts covers. */
  lemma SendsCovering(folders: Folders, f: Function, e: Edges<Facts>, b: BlockId, arriving: Arriving<Facts>, v: Value)
    requires Analysable(f) && Solves(folders, f, e) && b in e && Find(f.blocks, b).Some?
    requires forall p, u :: p in arriving && u in arriving[p] ==>
      p in e[b] && u in e[b][p] && Covers(folders, f, e, u, e[b][p][u])
    requires v in Evaluated(folders, Find(f.blocks, b).value, arriving)
    ensures v in Out(folders, f, e, b) && Covers(folders, f, e, v, Out(folders, f, e, b)[v])
  {
    hide Analysable, Solves, Out, Covers;
    var block := Find(f.blocks, b).value;
    if HomeOf(f, v, b) {
      HomeCovers(folders, f, e, b, v);
    } else {
      AfterKeys(folders, block.instructions, arriving);
      NotDefined(block, v);
      var p :| p in arriving && v in arriving[p];
      PassedOn(folders, f, e, b, p, v);
      CoversMore(folders, f, e, v, e[b][p][v], Out(folders, f, e, b)[v]);
    }
  }

  lemma RestrictedAllows(folders: Folders, f: Function, e: Edges<Facts>, b: BlockId, t: BlockId)
    requires Analysable(f) && Solves(folders, f, e) && b in e
    ensures AllowsOne(ConstantProblem(folders, f), AllRestricted(folders, f, e), b, t)
  {
    hide Analysable, Solves, Covers, Evaluated, FactsLeq, EdgeOk;
    var r := AllRestricted(folders, f, e);
    SolvedFacts(folders, f, e, b);
    forall p | p in e[b] ensures EdgeOk(f, p, b, r[b][p]) && FactsLeq(r[b][p], e[b][p]) {
      RestrictedOk(folders, f, e, b, p);
    }
    SomeArrives(f, b, e[b]);
    FlowMonotone(folders, f, b, r[b], e[b]);
    if t in Flow(folders, f, b, r[b]) {
      SentOn(folders, f, e, b, t);
      FlowsBelow(folders, f, e, b, t, r[b]);
    }
  }

  lemma FlowsBelow(folders: Folders, f: Function, e: Edges<Facts>, b: BlockId, t: BlockId, arriving: Arriving<Facts>)
    requires Analysable(f) && Solves(folders, f, e) && b in e && Find(f.blocks, b).Some? && arriving != map[]
    requires arriving.Keys == e[b].Keys && forall p :: p in arriving ==>
      arriving[p] == Restricted(folders, f, e, e[b][p])
    requires t in Flow(folders, f, b, arriving) && t in Flow(folders, f, b, e[b])
      && FactsLeq(Flow(folders, f, b, arriving)[t], Flow(folders, f, b, e[b])[t])
    ensures FactsLeq(Flow(folders, f, b, arriving)[t], Restricted(folders, f, e, Out(folders, f, e, b)))
  {
    hide Analysable, Solves, Covers, Evaluated;
    var state := Evaluated(folders, Find(f.blocks, b).value, arriving);
    forall v | v in state ensures v in Restricted(folders, f, e, Out(folders, f, e, b))
      && Leq(state[v], Out(folders, f, e, b)[v]) {
      SendsCovering(folders, f, e, b, arriving, v);
    }
  }

  lemma RestrictedArrives(folders: Folders, f: Function, e: Edges<Facts>, b: BlockId)
    requires Analysable(f) && Solves(folders, f, e) && b in e
    ensures AllOk(ConstantProblem(folders, f), b, AllRestricted(folders, f, e)[b])
  {
    hide Analysable, Solves, EdgeOk, Restricted;
    SolvedFacts(folders, f, e, b);
    SomeArrives(f, b, e[b]);
    forall p | p in e[b] ensures EdgeOk(f, p, b, Restricted(folders, f, e, e[b][p])) {
      RestrictedOk(folders, f, e, b, p);
    }
  }

  lemma RestrictedStarts(folders: Folders, f: Function, e: Edges<Facts>)
    requires Analysable(f) && Solves(folders, f, e)
    ensures var r := AllRestricted(folders, f, e); f.entry in r && START in r[f.entry] && FactsLeq(Initial(f), r[f.entry][START])
  {
    hide Analysable, Solves, Covers;
    EntryArrives(folders, f, e);
    forall v | v in Initial(f) ensures v in Restricted(folders, f, e, e[f.entry][START]) {
      InitialCovers(folders, f, e, f.entry, v);
    }
  }

  lemma RestrictedIsAllowed(folders: Folders, f: Function, e: Edges<Facts>)
    requires Analysable(f) && Solves(folders, f, e)
    ensures Allows(ConstantProblem(folders, f), Solver.AsSet(Ids(f.blocks)), {f.entry}, AllRestricted(folders, f, e))
  {
    hide Analysable, Solves, AllowsOne, AllOk, Restricted;
    var r := AllRestricted(folders, f, e);
    var problem := ConstantProblem(folders, f);
    forall b | b in r ensures b in Solver.AsSet(Ids(f.blocks)) && AllOk(problem, b, r[b]) {
      SolvedFacts(folders, f, e, b);
      FoundId(f, b);
      RestrictedArrives(folders, f, e, b);
    }
    RestrictedStarts(folders, f, e);
    forall b, t | b in r ensures AllowsOne(problem, r, b, t) {
      RestrictedAllows(folders, f, e, b, t);
    }
  }

  lemma AllCovered(folders: Folders, f: Function, e: Edges<Facts>)
    requires Analysable(f) && Solves(folders, f, e)
    ensures EdgesBelow(ConstantProblem(folders, f), e, AllRestricted(folders, f, e))
  {
    hide Analysable, WellFormed, Settled, Traced, EdgesBelow, AllRestricted, Allows;
    RestrictedIsAllowed(folders, f, e);
  }

  /** Wherever a value is known, its fact covers what it was when defined. */
  lemma OutCovers(folders: Folders, f: Function, e: Edges<Facts>, b: BlockId, v: Value)
    requires Analysable(f) && Solves(folders, f, e) && b in e && v in Out(folders, f, e, b)
    ensures Covers(folders, f, e, v, Out(folders, f, e, b)[v])
  {
    hide Analysable, Solves, Covers, Evaluated;
    SolvedFacts(folders, f, e, b);
    AllCovered(folders, f, e);
    var r := AllRestricted(folders, f, e);
    assert Below(ConstantProblem(folders, f), e[b], r[b]);
    forall p, u | p in e[b] && u in e[b][p] ensures Covers(folders, f, e, u, e[b][p][u]) {
      assert u in r[b][p];
    }
    SendsCovering(folders, f, e, b, e[b], v);
  }

  // ---- runs keep the facts of the definitions ----

  /** Every value a run has computed is as the fact where it is defined says. */
  ghost predicate Originates<V>(folders: Folders, f: Function, e: Edges<Facts>, lit: Literal -> V, env: map<Value, V>) {
    forall v :: v in env ==> OriginatesOne(folders, f, e, lit, v, env[v])
  }

  ghost predicate OriginatesOne<V>(folders: Folders, f: Function, e: Edges<Facts>, lit: Literal -> V, v: Value, x: V) {
    exists y :: Origin(folders, f, e, v, y) && Holds(lit, x, y)
  }

  /** What a block leaves alone. */
  lemma {:induction false} CodeLeaves<V, W>(sem: Semantics<V, W>, code: seq<Instruction>, s: State<V, W>, v: Value)
    requires v !in Results(code)
    ensures var env := DoAll(sem, code, s).env; (v in env <==> v in s.env) && (v in env ==> env[v] == s.env[v])
  {
    if code != [] {
      CodeLeaves(sem, code[..|code| - 1], s, v);
    }
  }

  lemma {:induction false} PhisLeave<V, W>(sem: Semantics<V, W>, code: seq<Instruction>, p: BlockId,
      before: map<Value, V>, env: map<Value, V>, v: Value)
    requires !PhiLater(code, 0, v)
    ensures var env' := ReadPhis(sem, code, p, before, env); (v in env' <==> v in env) && (v in env' ==> env'[v] == env[v])
    decreases |code|
  {
    hide PhiLater;
    if code != [] {
      LaterInRest(code, v);
      var x := if code[0].Phi? then From(code[0].incoming, p) else None;
      PhisLeave(sem, code[1..], p, before, if x.Some? then env[code[0].result := Get(sem, before, x.value)]
        else env, v);
    }
  }

  /** At the end of a block, what it defined is as its facts say, and the rest is as before. */
  lemma EndOriginates<V, W>(sem: Semantics<V, W>, folders: Folders, lit: Literal -> V, f: Function, e: Edges<Facts>,
      t: BlockId, s: State<V, W>)
    requires Analysable(f) && Find(f.blocks, t).Some?
      && AtEnd(folders, f, e, lit, t, DoAll(sem, Find(f.blocks, t).value.instructions, s).env)
    requires forall v :: v in s.env && v !in Results(Find(f.blocks, t).value.instructions) ==>
      OriginatesOne(folders, f, e, lit, v, s.env[v])
    ensures Originates(folders, f, e, lit, DoAll(sem, Find(f.blocks, t).value.instructions, s).env)
  {
    hide Analysable, Out, Defined, OriginatesOne;
    var code := Find(f.blocks, t).value.instructions;
    var env := DoAll(sem, code, s).env;
    forall v | v in env ensures OriginatesOne(folders, f, e, lit, v, env[v]) {
      if v in Results(code) {
        MadeOriginates(folders, lit, f, e, t, env, v);
      } else {
        CodeLeaves(sem, code, s, v);
      }
    }
  }

  lemma MadeOriginates<V>(folders: Folders, lit: Literal -> V, f: Function, e: Edges<Facts>, t: BlockId,
      env: map<Value, V>, v: Value)
    requires Analysable(f) && AtEnd(folders, f, e, lit, t, env) && v in env && HomeOf(f, v, t)
    ensures OriginatesOne(folders, f, e, lit, v, env[v])
  {
    hide Analysable, Out, Defined, Covers, Origin;
    HomeCovers(folders, f, e, t, v);
    assert Holds(lit, env[v], Out(folders, f, e, t)[v]);
  }

  ghost predicate ConfigOriginates<V, W>(folders: Folders, f: Function, e: Edges<Facts>, lit: Literal -> V,
      c: Config<V, W>) {
    c.At? ==> Originates(folders, f, e, lit, c.state.env)
  }

  lemma EnterOriginates<V, W>(sem: Semantics<V, W>, folders: Folders, lit: Literal -> V, f: Function, e: Edges<Facts>,
      b: BlockId, t: BlockId, s: State<V, W>)
    requires Analysable(f) && ConfigHolds(folders, f, e, lit, Enter(sem, f, b, t, s))
      && Originates(folders, f, e, lit, s.env)
    ensures ConfigOriginates(folders, f, e, lit, Enter(sem, f, b, t, s))
  {
    hide Analysable, AtEnd, OriginatesOne;
    if Find(f.blocks, t).Some? {
      var code := Find(f.blocks, t).value.instructions;
      var s' := s.(env := ReadPhis(sem, code, b, s.env, s.env));
      forall v | v in s'.env && v !in Results(code) ensures OriginatesOne(folders, f, e, lit, v, s'.env[v]) {
        NotPhi(code, v);
        PhisLeave(sem, code, b, s.env, s.env, v);
      }
      EndOriginates(sem, folders, lit, f, e, t, s');
    }
  }

  lemma NotPhi(code: seq<Instruction>, v: Value)
    requires v !in Results(code)
    ensures !PhiLater(code, 0, v)
  {
    InResults(code, v);
  }

  lemma MoveOriginates<V(!new), W(!new)>(sem: Semantics<V, W>, folders: Folders, lit: Literal -> V, f: Function,
      e: Edges<Facts>, c: Config<V, W>, choice: Choice)
    requires Faithful(sem, folders, lit) && Analysable(f) && Solves(folders, f, e)
    requires ConfigHolds(folders, f, e, lit, c) && ConfigOriginates(folders, f, e, lit, c)
    ensures ConfigOriginates(folders, f, e, lit, Move(sem, f, c, choice))
  {
    hide Faithful, Analysable, Solves, EnvHolds, Defined, Enter, Leave, Originates;
    MoveHolds(sem, folders, lit, f, e, c, choice);
    if c.At? && Find(f.blocks, c.block).Some? {
      var b := Find(f.blocks, c.block).value;
      var s := c.state;
      if choice.Follow? {
        LeaveOriginates(sem, folders, lit, f, e, c.block, s);
      } else if choice.handler in b.exceptionTargets {
        IdAt(f, c.block);
        EnterOriginates(sem, folders, lit, f, e, b.id, choice.handler, s);
      }
    }
  }

  lemma IdAt(f: Function, b: BlockId)
    requires Find(f.blocks, b).Some?
    ensures Find(f.blocks, b).value.id == b
  {
    var k := FindWhere(f.blocks, b);
  }

  lemma LeaveOriginates<V(!new), W(!new)>(sem: Semantics<V, W>, folders: Folders, lit: Literal -> V, f: Function,
      e: Edges<Facts>, b: BlockId, s: State<V, W>)
    requires Analysable(f) && Find(f.blocks, b).Some? && b in e && Originates(folders, f, e, lit, s.env)
    requires ConfigHolds(folders, f, e, lit, Leave(sem, f, Find(f.blocks, b).value, s))
    ensures ConfigOriginates(folders, f, e, lit, Leave(sem, f, Find(f.blocks, b).value, s))
  {
    hide Analysable, AtEnd, Enter, Originates, ConfigHolds, ConfigOriginates;
    var block := Find(f.blocks, b).value;
    match block.terminator {
      case Return(vs) => OverOriginates(folders, f, e, lit, Leave(sem, f, block, s));
      case Raise(vs) => OverOriginates(folders, f, e, lit, Leave(sem, f, block, s));
      case Jump(t) => EnterOriginates(sem, folders, lit, f, e, block.id, t, s.(trace := s.trace + [Left([])]));
      case Branch(c, x, y) =>
        var v := Get(sem, s.env, c);
        EnterOriginates(sem, folders, lit, f, e, block.id, if sem.truth(v) then x
          else y, s.(trace := s.trace + [Left([v])]));
      case ForNext(it, n, body, exit, r) =>
        var v := Get(sem, s.env, it);
        var (item, w) := sem.next(v, s.world);
        var s' := s.(world := w, trace := s.trace + [Left([v])]);
        if item.None? {
          EnterOriginates(sem, folders, lit, f, e, block.id, exit, s');
        } else {
          OwnBodyOf(f, b);
          ItemOriginates(folders, lit, f, e, b, s.env, item.value);
          EnterOriginates(sem, folders, lit, f, e, block.id, body, s'.(env := s'.env[r.value := item.value]));
        }
    }
  }

  lemma OverOriginates<V, W>(folders: Folders, f: Function, e: Edges<Facts>, lit: Literal -> V, c: Config<V, W>)
    requires !c.At?
    ensures ConfigOriginates(folders, f, e, lit, c)
  {
  }

  lemma ItemOriginates<V>(folders: Folders, lit: Literal -> V, f: Function, e: Edges<Facts>, h: BlockId,
      env: map<Value, V>, item: V)
    requires Analysable(f) && h in e && Find(f.blocks, h).Some? && ResultOf(Find(f.blocks, h).value.terminator).Some?
      && Originates(folders, f, e, lit, env)
    ensures Originates(folders, f, e, lit, env[ResultOf(Find(f.blocks, h).value.terminator).value := item])
  {
    hide Analysable, Out, Origin, Covers;
    var v := ResultOf(Find(f.blocks, h).value.terminator).value;
    ItemHome(f, h);
    HomeCovers(folders, f, e, h, v);
    ItemIsTop(folders, f, e, h);
    assert OriginatesOne(folders, f, e, lit, v, item) by {
      assert Holds(lit, item, Out(folders, f, e, h)[v]);
    }
  }

  lemma {:induction false} RunOriginates<V(!new), W(!new)>(sem: Semantics<V, W>, folders: Folders, lit: Literal -> V,
      f: Function, e: Edges<Facts>, arguments: map<Value, V>, w: W, choices: seq<Choice>)
    requires Faithful(sem, folders, lit) && Analysable(f) && Solves(folders, f, e)
    requires forall v :: v in arguments <==> v in f.parameters
    ensures ConfigOriginates(folders, f, e, lit, Run(sem, f, arguments, w, choices))
  {
    hide Faithful, Analysable, Solves, ConfigHolds, ConfigOriginates;
    RunHolds(sem, folders, lit, f, e, arguments, w, choices);
    if choices == [] {
      StartOriginates(sem, folders, lit, f, e, arguments, w);
    } else {
      var before := choices[..|choices| - 1];
      RunOriginates(sem, folders, lit, f, e, arguments, w, before);
      RunHolds(sem, folders, lit, f, e, arguments, w, before);
      MoveOriginates(sem, folders, lit, f, e, Run(sem, f, arguments, w, before), choices[|choices| - 1]);
    }
  }

  lemma StartOriginates<V(!new), W(!new)>(sem: Semantics<V, W>, folders: Folders, lit: Literal -> V, f: Function,
      e: Edges<Facts>, arguments: map<Value, V>, w: W)
    requires Analysable(f) && ConfigHolds(folders, f, e, lit, Start(sem, f, arguments, w)) && forall v ::
      v in arguments <==> v in f.parameters
    ensures ConfigOriginates(folders, f, e, lit, Start(sem, f, arguments, w))
  {
    hide Analysable, AtEnd;
    if Find(f.blocks, f.entry).Some? {
      forall v | v in arguments ensures OriginatesOne(folders, f, e, lit, v, arguments[v]) {
        assert Origin(folders, f, e, v, Top) && Holds(lit, arguments[v], Top);
      }
      EndOriginates(sem, folders, lit, f, e, f.entry, State(arguments, map[], w, []));
    }
  }

  lemma {:induction false} BindKeys<V>(parameters: seq<Value>, arguments: seq<V>)
    requires |arguments| == |parameters|
    ensures forall v :: v in Bind(parameters, arguments) <==> v in parameters
  {
    if parameters != [] {
      BindKeys(parameters[..|parameters| - 1], arguments[..|parameters| - 1]);
    }
  }

  /** In every run, every block visited is found reachable, and every value whose fact is a
      constant is that constant, loop-carried values and pruned branches included. */
  lemma ConstantsAreSound<V(!new), W(!new)>(sem: Semantics<V, W>, folders: Folders, lit: Literal -> V, f: Function,
      values: Facts, reachable: set<BlockId>, arguments: seq<V>, w: W, choices: seq<Choice>)
    requires Faithful(sem, folders, lit) && Analysable(f) && IsPropagation(folders, f, values, reachable)
      && |arguments| == |f.parameters|
    ensures var c := Run(sem, f, Bind(f.parameters, arguments), w, choices);
      c.At? ==> c.block in reachable && forall v :: v in c.state.env ==>
        v in values && Holds(lit, c.state.env[v], values[v])
  {
    hide Faithful, Analysable, Solves, Run, Out, Defined;
    var e :| Solves(folders, f, e) && Collected(folders, f, e, values, reachable) && reachable == e.Keys;
    BindKeys(f.parameters, arguments);
    RunHolds(sem, folders, lit, f, e, Bind(f.parameters, arguments), w, choices);
    RunOriginates(sem, folders, lit, f, e, Bind(f.parameters, arguments), w, choices);
    var c := Run(sem, f, Bind(f.parameters, arguments), w, choices);
    if c.At? {
      forall v | v in c.state.env ensures v in values && Holds(lit, c.state.env[v], values[v]) {
        assert v in Out(folders, f, e, c.block);
        FinalFact(folders, lit, f, e, values, reachable, v, c.state.env[v]);
      }
    }
  }

  lemma FinalFact<V>(folders: Folders, lit: Literal -> V, f: Function, e: Edges<Facts>, values: Facts,
      reachable: set<BlockId>, v: Value, x: V)
    requires Analysable(f) && Solves(folders, f, e) && Collected(folders, f, e, values, reachable)
      && reachable == e.Keys
    requires v in values && OriginatesOne(folders, f, e, lit, v, x)
    ensures Holds(lit, x, values[v])
  {
    hide Analysable, Solves, Out, Origin;
    assert FactFrom(folders, f, e, reachable, v, values[v]);
    var b :| b in reachable && v in Out(folders, f, e, b) && Out(folders, f, e, b)[v] == values[v];
    OutCovers(folders, f, e, b, v);
    var y :| Origin(folders, f, e, v, y) && Holds(lit, x, y);
    HoldsMore(lit, x, y, values[v]);
  }
}
