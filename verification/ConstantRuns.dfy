/** Where a run computes only constants, propagation finds exactly what the run does: the blocks it
    visits, and the literal each value is. */
module ConstantRuns {
  import opened Graphs
  import opened Options
  import opened IR
  import opened SSAForm
  import opened SSAProperties
  import opened Solver
  import opened Constants
  import opened ConstantSoundness
  import opened ConstantFacts

  function Following(n: nat): seq<Choice> {
    seq(n, i => Follow)
  }

  /** Where the call without arguments is after `n` blocks, nothing raising. */
  function After<V, W>(sem: Semantics<V, W>, f: Function, w: W, n: nat): Config<V, W> {
    Run(sem, f, map[], w, Following(n))
  }

  lemma NextIs<V, W>(sem: Semantics<V, W>, f: Function, w: W, n: nat)
    ensures After(sem, f, w, n + 1) == Move(sem, f, After(sem, f, w, n), Follow)
  {
    assert Following(n + 1)[..n] == Following(n);
  }

  ghost predicate Visits<V, W>(sem: Semantics<V, W>, f: Function, w: W, i: nat, b: BlockId) {
    After(sem, f, w, i).At? && After(sem, f, w, i).block == b
  }

  ghost function Visited<V, W>(sem: Semantics<V, W>, f: Function, w: W, n: nat): set<BlockId> {
    set i: nat | i < n && After(sem, f, w, i).At? :: After(sem, f, w, i).block
  }

  /** The literals as facts. */
  function AsFacts(literals: map<Value, Literal>): Facts {
    map v | v in literals :: Const(literals[v])
  }

  /** The phi reads one value from each predecessor, however many edges lead from it. */
  ghost predicate OneEach(incoming: seq<(Value, BlockId)>) {
    forall j, k :: 0 <= j < |incoming| && 0 <= k < |incoming| && incoming[j].1 == incoming[k].1 ==>
      incoming[j] == incoming[k]
  }

  /** A block that cannot raise, takes no items, and makes values by phis and operations that come to
      the literals given. */
  ghost predicate Folds(folders: Folders, literals: map<Value, Literal>, b: Block) {
    && b.exceptionTargets == [] && !b.terminator.ForNext?
    && forall k {:trigger b.instructions[k]} :: 0 <= k < |b.instructions| ==>
      var i := b.instructions[k];
      && (i.Phi? || i.Operation?) && (i.Phi? ==> OneEach(i.incoming))
      && (i.Operation? && i.outcome.Some? && i.outcome.value in literals ==>
            ComesTo(folders, i.op, i.operands, AsFacts(literals), literals[i.outcome.value]))
  }

  ghost predicate Agrees<V>(lit: Literal -> V, literals: map<Value, Literal>, env: map<Value, V>) {
    forall v :: v in env && v in literals ==> env[v] == lit(literals[v])
  }

  /** The call of `f`, which takes nothing, ends after `n` blocks, and every value made on the way is
      always the same literal, to which its operation comes. */
  ghost predicate ComputesOnly<V, W>(sem: Semantics<V, W>, folders: Folders, lit: Literal -> V, f: Function, w: W,
      n: nat, literals: map<Value, Literal>) {
    && f.parameters == [] && After(sem, f, w, n).Over?
    && (forall i {:trigger After(sem, f, w, i)} :: 0 <= i < n ==>
          var c := After(sem, f, w, i);
          && c.At? && Agrees(lit, literals, c.state.env)
          && Find(f.blocks, c.block).Some? && Folds(folders, literals, Find(f.blocks, c.block).value))
    && (forall v :: v in literals <==> exists d :: d in Visited(sem, f, w, n) && HomeOf(f, v, d))
  }

  ghost predicate Injective<V>(lit: Literal -> V) {
    forall x, y :: lit(x) == lit(y) ==> x == y
  }

  // ---- the run satisfies the equations ----

  lemma VisitedAt<V, W>(sem: Semantics<V, W>, f: Function, w: W, n: nat, b: BlockId) returns (i: nat)
    requires b in Visited(sem, f, w, n)
    ensures i < n && Visits(sem, f, w, i, b)
  {
    i :| i < n && After(sem, f, w, i).At? && After(sem, f, w, i).block == b;
  }

  /** At the end of every block visited, all it can use has a value. */
  lemma ValuesMade<V(!new), W(!new)>(sem: Semantics<V, W>, folders: Folders, lit: Literal -> V, f: Function,
      e: Edges<Facts>, w: W, n: nat, literals: map<Value, Literal>, i: nat, b: BlockId, v: Value)
    requires Faithful(sem, folders, lit) && Analysable(f) && Solves(folders, f, e)
    requires ComputesOnly(sem, folders, lit, f, w, n, literals) && i < n && Visits(sem, f, w, i, b)
    requires AvailableAtEnd(f, b, v)
    ensures v in After(sem, f, w, i).state.env && v in literals
      && After(sem, f, w, i).state.env[v] == lit(literals[v])
  {
    hide Faithful, Analysable, Solves, Run, Out, HomeOf;
    RunHolds(sem, folders, lit, f, e, map[], w, Following(i));
    HomeVisited(sem, folders, lit, f, w, n, literals, i, v);
  }

  /** What a run has computed was made in a block visited. */
  lemma {:induction false} HomeVisited<V, W>(sem: Semantics<V, W>, folders: Folders, lit: Literal -> V, f: Function,
      w: W, n: nat, literals: map<Value, Literal>, i: nat, v: Value)
    requires ComputesOnly(sem, folders, lit, f, w, n, literals) && i < n
    requires v in After(sem, f, w, i).state.env
    ensures v in literals
  {
    hide Folds, Agrees;
    var c := After(sem, f, w, i);
    var code := Find(f.blocks, c.block).value.instructions;
    if v in Results(code) {
      assert c.block in Visited(sem, f, w, n) && HomeOf(f, v, c.block);
    } else if i == 0 {
      assert Following(0) == [];
      CodeLeaves(sem, code, State(map[], map[], w, []), v);
    } else {
      NextIs(sem, f, w, i - 1);
      Brought(sem, folders, lit, f, w, n, literals, i - 1, v);
      HomeVisited(sem, folders, lit, f, w, n, literals, i - 1, v);
    }
  }

  /** Following the terminator of a block that takes no items. */
  lemma Entered<V, W>(sem: Semantics<V, W>, folders: Folders, lit: Literal -> V, f: Function, w: W, n: nat,
      literals: map<Value, Literal>, i: nat) returns (s: State<V, W>)
    requires ComputesOnly(sem, folders, lit, f, w, n, literals) && i + 1 < n && DistinctIds(f.blocks)
    ensures var c, d := After(sem, f, w, i), After(sem, f, w, i + 1);
      && s.env == c.state.env && d == Enter(sem, f, c.block, d.block, s)
  {
    hide Folds, Agrees;
    var c, d := After(sem, f, w, i), After(sem, f, w, i + 1);
    NextIs(sem, f, w, i);
    var b := Find(f.blocks, c.block).value;
    assert b.id == c.block by {
      var k := FindWhere(f.blocks, c.block);
    }
    assert Folds(folders, literals, b);
    s := Passed(sem, folders, literals, f, b, c.state);
  }

  lemma Passed<V, W>(sem: Semantics<V, W>, folders: Folders, literals: map<Value, Literal>, f: Function, b: Block,
      s: State<V, W>) returns (s': State<V, W>)
    requires Folds(folders, literals, b) && Leave(sem, f, b, s).At?
    ensures s'.env == s.env && Leave(sem, f, b, s) == Enter(sem, f, b.id, Leave(sem, f, b, s).block, s')
  {
    match b.terminator {
      case Jump(t) => s' := s.(trace := s.trace + [Left([])]);
      case Branch(c, x, y) => s' := s.(trace := s.trace + [Left([Get(sem, s.env, c)])]);
      case _ => s' := s;
    }
  }

  lemma Brought<V, W>(sem: Semantics<V, W>, folders: Folders, lit: Literal -> V, f: Function, w: W, n: nat,
      literals: map<Value, Literal>, i: nat, v: Value)
    requires ComputesOnly(sem, folders, lit, f, w, n, literals) && i + 1 < n
    requires v in After(sem, f, w, i + 1).state.env
      && v !in Results(Find(f.blocks, After(sem, f, w, i + 1).block).value.instructions)
    ensures v in After(sem, f, w, i).state.env
  {
    hide Folds, Agrees;
    NextIs(sem, f, w, i);
    var c, d := After(sem, f, w, i), After(sem, f, w, i + 1);
    assert Folds(folders, literals, Find(f.blocks, c.block).value);
    var s := Passed(sem, folders, literals, f, Find(f.blocks, c.block).value, c.state);
    var code := Find(f.blocks, d.block).value.instructions;
    var p := Find(f.blocks, c.block).value.id;
    NotPhi(code, v);
    PhisLeave(sem, code, p, s.env, s.env, v);
    CodeLeaves(sem, code, s.(env := ReadPhis(sem, code, p, s.env, s.env)), v);
  }

  /** What a block tests has its literal when the run is at its end. */
  ghost predicate TestsLiteral<V, W>(sem: Semantics<V, W>, lit: Literal -> V, literals: map<Value, Literal>, b: Block,
      s: State<V, W>) {
    b.terminator.Branch? ==>
      b.terminator.condition in literals && b.terminator.condition in s.env
      && s.env[b.terminator.condition] == lit(literals[b.terminator.condition])
  }

  lemma Tested<V(!new), W(!new)>(sem: Semantics<V, W>, folders: Folders, lit: Literal -> V, f: Function,
      e: Edges<Facts>, w: W, n: nat, literals: map<Value, Literal>, i: nat, b: BlockId)
    requires Faithful(sem, folders, lit) && Analysable(f) && Solves(folders, f, e)
    requires ComputesOnly(sem, folders, lit, f, w, n, literals) && i < n && Visits(sem, f, w, i, b)
    ensures Find(f.blocks, b).Some?
      && TestsLiteral(sem, lit, literals, Find(f.blocks, b).value, After(sem, f, w, i).state)
  {
    hide Faithful, Analysable, Solves, Folds, Run, Agrees;
    var block := Find(f.blocks, b).value;
    if block.terminator.Branch? {
      ConditionKnown(f, b);
      ValuesMade(sem, folders, lit, f, e, w, n, literals, i, b, block.terminator.condition);
    }
  }

  /** The one edge open is the one followed. */
  lemma OneExit<V(!new), W(!new)>(sem: Semantics<V, W>, folders: Folders, lit: Literal -> V, f: Function, b: Block,
      literals: map<Value, Literal>, s: State<V, W>, t: BlockId)
    requires Faithful(sem, folders, lit) && Folds(folders, literals, b) && TestsLiteral(sem, lit, literals, b, s)
    ensures Opens(AsFacts(literals), b, t) ==>
      !Leave(sem, f, b, s).Over? && (Leave(sem, f, b, s).At? ==> Leave(sem, f, b, s).block == t)
    ensures Leave(sem, f, b, s).At? && Leave(sem, f, b, s).block == t ==> Opens(AsFacts(literals), b, t)
  {
    match b.terminator {
      case Branch(c, x, y) =>
        var l := literals[c];
        FalseIsNotTruthy(l);
        assert IsConst(AsFacts(literals), c, l);
        assert sem.truth(lit(l)) == Truthy(l);
      case _ =>
    }
  }

  lemma GoesWhere<V(!new), W(!new)>(sem: Semantics<V, W>, folders: Folders, lit: Literal -> V, f: Function,
      e: Edges<Facts>, w: W, n: nat, literals: map<Value, Literal>, i: nat, p: BlockId, t: BlockId)
    requires Faithful(sem, folders, lit) && Analysable(f) && Solves(folders, f, e)
    requires ComputesOnly(sem, folders, lit, f, w, n, literals) && i < n && Visits(sem, f, w, i, p)
    requires GoesOn(f, AsFacts(literals), Visited(sem, f, w, n), p, t)
    ensures i + 1 < n && Visits(sem, f, w, i + 1, t)
  {
    hide Faithful, Analysable, Solves, Folds, Run, Agrees, Opens, TestsLiteral;
    Tested(sem, folders, lit, f, e, w, n, literals, i, p);
    var b := Find(f.blocks, p).value;
    NextIs(sem, f, w, i);
    assert Folds(folders, literals, b);
    OneExit(sem, folders, lit, f, b, literals, After(sem, f, w, i).state, t);
  }

  lemma CameBy<V(!new), W(!new)>(sem: Semantics<V, W>, folders: Folders, lit: Literal -> V, f: Function,
      e: Edges<Facts>, w: W, n: nat, literals: map<Value, Literal>, i: nat)
    requires Faithful(sem, folders, lit) && Analysable(f) && Solves(folders, f, e)
    requires ComputesOnly(sem, folders, lit, f, w, n, literals) && i + 1 < n
    ensures GoesOn(f, AsFacts(literals), Visited(sem, f, w, n), After(sem, f, w, i).block, After(sem, f, w, i + 1).block)
  {
    hide Faithful, Analysable, Solves, Folds, Run, Agrees, Opens, TestsLiteral;
    var p := After(sem, f, w, i).block;
    Tested(sem, folders, lit, f, e, w, n, literals, i, p);
    var b := Find(f.blocks, p).value;
    NextIs(sem, f, w, i);
    assert Folds(folders, literals, b);
    OneExit(sem, folders, lit, f, b, literals, After(sem, f, w, i).state, After(sem, f, w, i + 1).block);
    assert p in Visited(sem, f, w, n);
  }

  // ---- phis along the run ----

  /** A phi has, at the end of its block, what it read on entry. */
  lemma PhiRead<V, W>(sem: Semantics<V, W>, code: seq<Instruction>, p: BlockId, s: State<V, W>, k: nat)
    requires Apart(code) && k < |code| && code[k].Phi? && From(code[k].incoming, p).Some?
    requires From(code[k].incoming, p).value in s.env
    ensures var env := DoAll(sem, code, s.(env := ReadPhis(sem, code, p, s.env, s.env))).env;
      code[k].result in env && env[code[k].result] == s.env[From(code[k].incoming, p).value]
  {
    PhisRead(sem, code, p, s.env, s.env);
    var s' := s.(env := ReadPhis(sem, code, p, s.env, s.env));
    PhiStays(sem, code, s', k, |code|);
    assert code[..|code|] == code;
  }

  lemma {:induction false} PhiStays<V, W>(sem: Semantics<V, W>, code: seq<Instruction>, s: State<V, W>, k: nat, n: nat)
    requires Apart(code) && k < |code| && code[k].Phi? && code[k].result in s.env && n <= |code|
    ensures var env := DoAll(sem, code[..n], s).env;
      code[k].result in env && env[code[k].result] == s.env[code[k].result]
  {
    if n > 0 {
      PhiStays(sem, code, s, k, n - 1);
      assert code[..n][..n - 1] == code[..n - 1];
      var before := DoAll(sem, code[..n - 1], s);
      KeysKept(sem, code[n - 1], before);
      if k != n - 1 {
        assert Result(code[k]) == Some(code[k].result);
        assert Result(code[if k < n - 1 then k else n - 1]).Some? ==>
          Result(code[if k < n - 1 then k else n - 1]) != Result(code[if k < n - 1 then n - 1 else k]);
      }
    }
  }

  /** The operand for the block a run came from is available there, and the one read. */
  lemma OperandRead(f: Function, folders: Folders, literals: map<Value, Literal>, p: BlockId, b: BlockId, k: nat, j: nat)
    requires Analysable(f) && Find(f.blocks, b).Some? && Folds(folders, literals, Find(f.blocks, b).value)
    requires var code := Find(f.blocks, b).value.instructions;
      k < |code| && code[k].Phi? && j < |code[k].incoming| && code[k].incoming[j].1 == p
    ensures var i := Find(f.blocks, b).value.instructions[k];
      AvailableAtEnd(f, p, i.incoming[j].0) && From(i.incoming, p) == Some(i.incoming[j].0)
  {
    hide Available, Connected, PredecessorsIn, ComesTo;
    var incoming := Find(f.blocks, b).value.instructions[k].incoming;
    assert UsesAvailable(f, b) && OperandsAvailable(f, b, incoming);
    assert AvailableAtEnd(f, p, incoming[j].0);
    assert Sources(incoming)[j] == p;
    var m := FromAt(incoming, p);
    assert incoming[m] == incoming[j];
  }

  /** What a phi reads from where the run came is the literal it is. */
  lemma PhiLiteral<V(!new), W(!new)>(sem: Semantics<V, W>, folders: Folders, lit: Literal -> V, f: Function,
      e: Edges<Facts>, w: W, n: nat, literals: map<Value, Literal>, i: nat, k: nat, j: nat)
    requires Faithful(sem, folders, lit) && Analysable(f) && Solves(folders, f, e) && Injective(lit)
    requires ComputesOnly(sem, folders, lit, f, w, n, literals) && i + 1 < n
    requires var code := Find(f.blocks, After(sem, f, w, i + 1).block).value.instructions;
      k < |code| && code[k].Phi? && j < |code[k].incoming| && code[k].incoming[j].1 == After(sem, f, w, i).block
    ensures var i := Find(f.blocks, After(sem, f, w, i + 1).block).value.instructions[k];
      i.result in literals && IsConst(AsFacts(literals), i.incoming[j].0, literals[i.result])
  {
    hide Faithful, Solves, Run, Agrees, AvailableAtEnd, IsSSA, Connected, HomeOf, Folds, After;
    var c, d := After(sem, f, w, i), After(sem, f, w, i + 1);
    assert Visits(sem, f, w, i, c.block);
    var code := Find(f.blocks, d.block).value.instructions;
    assert Folds(folders, literals, Find(f.blocks, d.block).value);
    OperandRead(f, folders, literals, c.block, d.block, k, j);
    ValuesMade(sem, folders, lit, f, e, w, n, literals, i, c.block, code[k].incoming[j].0);
    BlockApart(f, d.block);
    IdsApart(f);
    var s := Entered(sem, folders, lit, f, w, n, literals, i);
    PhiRead(sem, code, c.block, s, k);
    ResultLiteral(sem, folders, lit, f, w, n, literals, i + 1, k);
  }

  lemma IdsApart(f: Function)
    requires Analysable(f)
    ensures DistinctIds(f.blocks)
  {
  }

  lemma ResultLiteral<V, W>(sem: Semantics<V, W>, folders: Folders, lit: Literal -> V, f: Function, w: W, n: nat,
      literals: map<Value, Literal>, i: nat, k: nat)
    requires ComputesOnly(sem, folders, lit, f, w, n, literals) && i < n
    requires var code := Find(f.blocks, After(sem, f, w, i).block).value.instructions;
      k < |code| && Result(code[k]).Some?
    ensures var code := Find(f.blocks, After(sem, f, w, i).block).value.instructions; var v := Result(code[k]).value;
      v in literals && (v in After(sem, f, w, i).state.env ==> After(sem, f, w, i).state.env[v] == lit(literals[v]))
  {
    hide Folds;
    var c := After(sem, f, w, i);
    var code := Find(f.blocks, c.block).value.instructions;
    InResults(code, Result(code[k]).value);
    assert c.block in Visited(sem, f, w, n) && HomeOf(f, Result(code[k]).value, c.block);
  }

  // ---- the theorem ----

  /** What an operation comes to is one literal. */
  lemma ComesToOne(folders: Folders, op: Op, operands: seq<Value>, values: Facts, x: Literal, y: Literal)
    requires ComesTo(folders, op, operands, values, x) && ComesTo(folders, op, operands, values, y)
    ensures x == y
  {
  }

  lemma RunFact<V(!new), W(!new)>(sem: Semantics<V, W>, folders: Folders, lit: Literal -> V, f: Function,
      e: Edges<Facts>, w: W, n: nat, literals: map<Value, Literal>, i: nat, k: nat)
    requires Faithful(sem, folders, lit) && Analysable(f) && Solves(folders, f, e) && Injective(lit)
    requires ComputesOnly(sem, folders, lit, f, w, n, literals) && i < n
    requires k < |Find(f.blocks, After(sem, f, w, i).block).value.instructions|
    ensures ResultIsFact(folders, f, AsFacts(literals), Visited(sem, f, w, n), After(sem, f, w, i).block,
      Find(f.blocks, After(sem, f, w, i).block).value.instructions[k])
  {
    hide Faithful, Analysable, Solves, Run, Agrees, ComesTo, ReadsOnly, HomeOf, Visited, After;
    var b := After(sem, f, w, i).block;
    var x := Find(f.blocks, b).value.instructions[k];
    var facts := AsFacts(literals);
    assert Folds(folders, literals, Find(f.blocks, b).value);
    if Result(x).Some? {
      ResultLiteral(sem, folders, lit, f, w, n, literals, i, k);
      var v := Result(x).value;
      if x.Operation? {
        forall l ensures facts[v] == Const(l) <==> ComesTo(folders, x.op, x.operands, facts, l) {
          if ComesTo(folders, x.op, x.operands, facts, l) {
            ComesToOne(folders, x.op, x.operands, facts, l, literals[v]);
          }
        }
      } else {
        forall l ensures facts[v] == Const(l) <==> ReadsOnly(f, facts, Visited(sem, f, w, n), b, x.incoming, l) {
          RunPhi(sem, folders, lit, f, e, w, n, literals, i, k, l);
        }
      }
    }
  }

  lemma RunPhi<V(!new), W(!new)>(sem: Semantics<V, W>, folders: Folders, lit: Literal -> V, f: Function,
      e: Edges<Facts>, w: W, n: nat, literals: map<Value, Literal>, i: nat, k: nat, l: Literal)
    requires Faithful(sem, folders, lit) && Analysable(f) && Solves(folders, f, e) && Injective(lit)
    requires ComputesOnly(sem, folders, lit, f, w, n, literals) && i < n
    requires var code := Find(f.blocks, After(sem, f, w, i).block).value.instructions; k < |code| && code[k].Phi?
    ensures var b := After(sem, f, w, i).block; var x := Find(f.blocks, b).value.instructions[k];
      x.result in literals
      && (literals[x.result] == l <==> ReadsOnly(f, AsFacts(literals), Visited(sem, f, w, n), b, x.incoming, l))
  {
    hide Faithful, Solves, Run, Agrees, Folds, HomeOf, IsSSA, GoesOn, Analysable, PredecessorsIn;
    var b := After(sem, f, w, i).block;
    var code := Find(f.blocks, b).value.instructions;
    var facts, visited := AsFacts(literals), Visited(sem, f, w, n);
    ResultLiteral(sem, folders, lit, f, w, n, literals, i, k);
    forall j | 0 <= j < |code[k].incoming| && GoesOn(f, facts, visited, code[k].incoming[j].1, b)
      ensures IsConst(facts, code[k].incoming[j].0, literals[code[k].result]) {
      var m := FromVisited(sem, f, facts, w, n, code[k].incoming[j].1, b);
      GoesWhere(sem, folders, lit, f, e, w, n, literals, m, code[k].incoming[j].1, b);
      PhiLiteral(sem, folders, lit, f, e, w, n, literals, m, k, j);
    }
    EntryNoPhi(sem, f, w, i, k);
    CameBy(sem, folders, lit, f, e, w, n, literals, i - 1);
    var j := ListsPredecessor(f, facts, visited, After(sem, f, w, i - 1).block, b, k);
  }

  lemma FromVisited<V, W>(sem: Semantics<V, W>, f: Function, facts: Facts, w: W, n: nat, p: BlockId, b: BlockId)
      returns (i: nat)
    requires GoesOn(f, facts, Visited(sem, f, w, n), p, b)
    ensures i < n && Visits(sem, f, w, i, p)
  {
    i := VisitedAt(sem, f, w, n, p);
  }

  /** The entry has no phi, so a block with one is not where the run starts. */
  lemma EntryNoPhi<V, W>(sem: Semantics<V, W>, f: Function, w: W, i: nat, k: nat)
    requires Analysable(f) && After(sem, f, w, i).At? && Find(f.blocks, After(sem, f, w, i).block).Some?
    requires var code := Find(f.blocks, After(sem, f, w, i).block).value.instructions; k < |code| && code[k].Phi?
    ensures i > 0
  {
    hide IsSSA;
    assert Following(0) == [];
    assert After(sem, f, w, 0) == Start(sem, f, map[], w);
  }

  /** A phi lists every block control comes from. */
  lemma ListsPredecessor(f: Function, facts: Facts, blocks: set<BlockId>, p: BlockId, b: BlockId, k: nat)
      returns (j: nat)
    requires Analysable(f) && GoesOn(f, facts, blocks, p, b) && Find(f.blocks, b).Some?
    requires k < |Find(f.blocks, b).value.instructions| && Find(f.blocks, b).value.instructions[k].Phi?
    ensures var incoming := Find(f.blocks, b).value.instructions[k].incoming; j < |incoming| && incoming[j].1 == p
  {
    hide Available, PredecessorsIn, Exits, AvailableAtEnd;
    var incoming := Find(f.blocks, b).value.instructions[k].incoming;
    assert UsesAvailable(f, b) && OperandsAvailable(f, b, incoming);
    OpensIsExits(facts, Find(f.blocks, p).value, b);
    ExitsAreSuccessors(Find(f.blocks, p).value, facts, b);
    assert Edge(SuccessorTable(f.blocks), p, b);
    IsPredecessor(f, p, b);
    j :| 0 <= j < |Sources(incoming)| && Sources(incoming)[j] == p;
  }

  lemma RunBlock<V(!new), W(!new)>(sem: Semantics<V, W>, folders: Folders, lit: Literal -> V, f: Function,
      e: Edges<Facts>, w: W, n: nat, literals: map<Value, Literal>, b: BlockId)
    requires Faithful(sem, folders, lit) && Analysable(f) && Solves(folders, f, e) && Injective(lit)
    requires ComputesOnly(sem, folders, lit, f, w, n, literals) && b in Visited(sem, f, w, n)
    ensures BlockFacts(folders, f, AsFacts(literals), Visited(sem, f, w, n), b)
  {
    hide Faithful, Analysable, Solves, Agrees, HomeOf, GoesOn, ResultIsFact, Move;
    var i := VisitedAt(sem, f, w, n, b);
    var block := Find(f.blocks, b).value;
    assert Folds(folders, literals, block);
    if i == 0 {
      assert Following(0) == [];
    } else {
      CameBy(sem, folders, lit, f, e, w, n, literals, i - 1);
    }
    forall k | 0 <= k < |block.instructions|
      ensures ResultIsFact(folders, f, AsFacts(literals), Visited(sem, f, w, n), b, block.instructions[k]) {
      RunFact(sem, folders, lit, f, e, w, n, literals, i, k);
    }
  }

  lemma RunFacts<V(!new), W(!new)>(sem: Semantics<V, W>, folders: Folders, lit: Literal -> V, f: Function,
      e: Edges<Facts>, w: W, n: nat, literals: map<Value, Literal>)
    requires Faithful(sem, folders, lit) && Analysable(f) && Solves(folders, f, e) && Injective(lit)
    requires ComputesOnly(sem, folders, lit, f, w, n, literals)
    ensures AreFacts(folders, f, AsFacts(literals), Visited(sem, f, w, n))
  {
    hide Faithful, Analysable, Solves, Agrees, HomeOf, GoesOn, BlockFacts, Folds, Move;
    var facts, visited := AsFacts(literals), Visited(sem, f, w, n);
    StartsAtEntry(sem, folders, lit, f, w, n, literals);
    forall b | b in visited ensures BlockFacts(folders, f, facts, visited, b) {
      RunBlock(sem, folders, lit, f, e, w, n, literals, b);
    }
    forall p, t | GoesOn(f, facts, visited, p, t) ensures t in visited {
      var i := FromVisited(sem, f, facts, w, n, p, t);
      GoesWhere(sem, folders, lit, f, e, w, n, literals, i, p, t);
    }
  }

  lemma StartsAtEntry<V, W>(sem: Semantics<V, W>, folders: Folders, lit: Literal -> V, f: Function, w: W, n: nat,
      literals: map<Value, Literal>)
    requires ComputesOnly(sem, folders, lit, f, w, n, literals)
    ensures f.entry in Visited(sem, f, w, n)
  {
    hide Folds, Agrees, HomeOf;
    assert Following(0) == [];
    assert After(sem, f, w, 0) == Start(sem, f, map[], w);
    assert n > 0;
  }

  /** Where a call computes only literals, the blocks propagation reaches are those of the run, and the
      fact of every value made is its literal. */
  lemma RunIsFound<V(!new), W(!new)>(sem: Semantics<V, W>, folders: Folders, lit: Literal -> V, f: Function,
      values: Facts, reachable: set<BlockId>, w: W, n: nat, literals: map<Value, Literal>)
    requires Faithful(sem, folders, lit) && Injective(lit) && Analysable(f)
    requires IsPropagation(folders, f, values, reachable)
    requires ComputesOnly(sem, folders, lit, f, w, n, literals)
    ensures reachable == Visited(sem, f, w, n)
    ensures values == AsFacts(literals)
  {
    hide Faithful, Analysable, Solves, Collected, Folds, Agrees, HomeOf, AreFacts, Visited, Run;
    var e :| Solves(folders, f, e) && Collected(folders, f, e, values, reachable) && reachable == e.Keys;
    RunFacts(sem, folders, lit, f, e, w, n, literals);
    FactsAreLeast(folders, f, values, reachable, AsFacts(literals), Visited(sem, f, w, n));
    FactsAreExact(folders, f, values, reachable);
    forall b | b in Visited(sem, f, w, n) ensures b in reachable {
      var i := VisitedAt(sem, f, w, n, b);
      ConstantsAreSound(sem, folders, lit, f, values, reachable, [], w, Following(i));
    }
    forall v | v in literals ensures v in values && values[v] == AsFacts(literals)[v] {
      HasFactHere(sem, folders, lit, f, values, reachable, w, n, literals, v);
    }
  }

  lemma HasFactHere<V, W>(sem: Semantics<V, W>, folders: Folders, lit: Literal -> V, f: Function, values: Facts,
      reachable: set<BlockId>, w: W, n: nat, literals: map<Value, Literal>, v: Value)
    requires ComputesOnly(sem, folders, lit, f, w, n, literals) && AreFacts(folders, f, values, reachable)
    requires reachable == Visited(sem, f, w, n) && v in literals
    requires v in values ==> Leq(values[v], AsFacts(literals)[v])
    ensures v in values && values[v] == AsFacts(literals)[v]
  {
    hide Folds, Agrees, HomeOf, BlockFacts, GoesOn;
    HasFact(folders, f, values, reachable, reachable, v);
    ValuesKnown(folders, f, values, reachable, v);
  }
}
