/** What the conversion to SSA form must produce, and why such an output means what its source
    means: loads and stores of locals disappear, phis stand where definitions meet and the
    local is live, and every other instruction reads the values its locals held. */
module SSAForm {
  import opened Graphs
  import opened Options
  import opened Trees
  import opened DominatorTrees
  import opened IR

  /** A local's values at the top of the renaming stacks; a local with no entry is undefined. */
  type Stacks = map<string, Value>

  /** The function before conversion, restricted to its reachable blocks, with what the
      conversion reads of it. */
  datatype Source = Source(
    code: Function,
    blocks: map<BlockId, Block>,
    tree: DominatorTree,
    loopOf: map<BlockId, (string, BlockId)>,
    live: map<BlockId, set<string>>)

  /** What the renaming decided. */
  datatype Renaming = Renaming(
    aliases: map<Value, Value>,
    undefined: map<string, Value>,
    phis: map<BlockId, map<string, Value>>,
    loops: map<BlockId, Value>,
    tops: map<BlockId, Stacks>)

  function Resolve(aliases: map<Value, Value>, v: Value): Value {
    if v in aliases then aliases[v] else v
  }

  function ResolveAll(aliases: map<Value, Value>, vs: seq<Value>): seq<Value> {
    seq(|vs|, i requires 0 <= i < |vs| => Resolve(aliases, vs[i]))
  }

  /** The stack tops after some code, from those before it. */
  function After(aliases: map<Value, Value>, code: seq<Instruction>, t: Stacks): Stacks {
    if code == [] then t
    else Stored(aliases, code[|code| - 1], After(aliases, code[..|code| - 1], t))
  }

  function Stored(aliases: map<Value, Value>, i: Instruction, t: Stacks): Stacks {
    if i.StoreLocal? then t[i.name := Resolve(aliases, i.value)] else t
  }

  /** The instructions that stay, their operands resolved. */
  function Kept(aliases: map<Value, Value>, code: seq<Instruction>): seq<Instruction> {
    if code == [] then []
    else Kept(aliases, code[..|code| - 1]) + KeptOf(aliases, code[|code| - 1])
  }

  function KeptOf(aliases: map<Value, Value>, i: Instruction): seq<Instruction> {
    if i.Operation? then [Operation(i.outcome, i.op, ResolveAll(aliases, i.operands))] else []
  }

  function ResolveTerminator(aliases: map<Value, Value>, t: Terminator): Terminator {
    match t
    case Return(vs) => Return(ResolveAll(aliases, vs))
    case Raise(vs) => Raise(ResolveAll(aliases, vs))
    case Branch(c, a, b) => Branch(Resolve(aliases, c), a, b)
    case Jump(_) => t
    case ForNext(it, n, b, e, r) => ForNext(Resolve(aliases, it), n, b, e, r)
  }

  function Reads(t: Terminator): seq<Value> {
    match t
    case Return(vs) => vs
    case Raise(vs) => vs
    case Branch(c, _, _) => [c]
    case Jump(_) => []
    case ForNext(it, _, _, _, _) => [it]
  }

  /** The value a local has under the stacks, when it has one. */
  function Top(undefined: map<string, Value>, t: Stacks, name: string): Option<Value> {
    if name in t then Some(t[name])
    else if name in undefined then Some(undefined[name])
    else None
  }

  /** The results of operations. */
  function Computed(code: seq<Instruction>): set<Value> {
    set i | 0 <= i < |code| && code[i].Operation? && code[i].outcome.Some? :: code[i].outcome.value
  }

  /** The results of operations and loads. */
  function Produced(code: seq<Instruction>): set<Value> {
    Computed(code) + Loaded(code)
  }

  function Loaded(code: seq<Instruction>): set<Value> {
    set i | 0 <= i < |code| && code[i].LoadLocal? :: code[i].result
  }

  function ProducedBy(i: Instruction): set<Value> {
    ComputedBy(i) + (if i.LoadLocal? then {i.result} else {})
  }

  function ComputedBy(i: Instruction): set<Value> {
    if i.Operation? && i.outcome.Some? then {i.outcome.value} else {}
  }

  /** The locals read by the code, or live after it, before being stored. */
  function LiveBefore(code: seq<Instruction>, out: set<string>): set<string> {
    if code == [] then out else LiveAcross(code[0], LiveBefore(code[1..], out))
  }

  function LiveAcross(i: Instruction, out: set<string>): set<string> {
    match i
    case LoadLocal(_, n) => out + {n}
    case StoreLocal(n, _) => out - {n}
    case _ => out
  }

  // ---- agreement of two states while both forms run the same code ----

  /** The value the converted form has for a local. */
  function TopValue<V, W>(sem: Semantics<V, W>, undefined: map<string, Value>, t: Stacks, env: map<Value, V>,
      name: string): V {
    var v := Top(undefined, t, name);
    if v.Some? then Get(sem, env, v.value) else sem.undefined(name)
  }

  /** The values in scope and the live locals are the same in both states. */
  ghost predicate Agree<V, W>(sem: Semantics<V, W>, r: Renaming, scope: set<Value>, t: Stacks, live: set<string>,
      py: State<V, W>, ssa: State<V, W>) {
    && py.world == ssa.world && py.trace == ssa.trace
    && (forall v :: v in scope ==> Get(sem, py.env, v) == Get(sem, ssa.env, Resolve(r.aliases, v)))
    && (forall x :: x in live ==> Local(sem, py.locals, x) == TopValue(sem, r.undefined, t, ssa.env, x))
  }

  /** Everything the renaming may refer to is defined already. */
  ghost predicate Scoped(r: Renaming, scope: set<Value>, defined: set<Value>, t: Stacks) {
    && (forall v :: v in scope ==> Resolve(r.aliases, v) in defined)
    && (forall x :: x in t ==> t[x] in defined)
    && r.undefined.Values <= defined
  }

  /** The code reads values in scope, and computes only values not defined before. */
  ghost predicate Proper(r: Renaming, scope: set<Value>, defined: set<Value>, code: seq<Instruction>) {
    forall i :: 0 <= i < |code| ==>
      match code[i]
      case LoadLocal(v, _) => true
      case StoreLocal(_, v) => v in scope + Produced(code[..i])
      case Operation(o, _, vs) =>
        && (forall v :: v in vs ==> v in scope + Produced(code[..i]))
        && (o.Some? ==> o.value !in defined + Computed(code[..i]) && o.value !in r.aliases)
      case _ => false
  }

  /** Each load stands for what the stacks held where it stood. */
  ghost predicate LoadsAliased(aliases: map<Value, Value>, undefined: map<string, Value>, t: Stacks,
      code: seq<Instruction>) {
    forall i :: 0 <= i < |code| && code[i].LoadLocal? ==>
      && code[i].result in aliases
      && Top(undefined, After(aliases, code[..i], t), code[i].name) == Some(aliases[code[i].result])
  }

  lemma PrefixStep(code: seq<Instruction>, i: nat)
    requires i < |code|
    ensures code[..i + 1][..i] == code[..i] && code[..i + 1][|code[..i + 1]| - 1] == code[i]
    ensures Computed(code[..i + 1]) == Computed(code[..i]) + ComputedBy(code[i])
    ensures Produced(code[..i + 1]) == Produced(code[..i]) + ProducedBy(code[i])
  {
    var p, q := code[..i + 1], code[..i];
    forall v | v in Computed(p) ensures v in Computed(q) + ComputedBy(code[i]) {
      var k :| 0 <= k < |p| && p[k].Operation? && p[k].outcome.Some? && p[k].outcome.value == v;
      if k < i { assert q[k] == p[k]; }
    }
    forall v | v in Computed(q) ensures v in Computed(p) {
      var k :| 0 <= k < |q| && q[k].Operation? && q[k].outcome.Some? && q[k].outcome.value == v;
      assert p[k] == q[k];
    }
    forall v | v in Loaded(p) ensures v in Loaded(q) + ProducedBy(code[i]) {
      var k :| 0 <= k < |p| && p[k].LoadLocal? && p[k].result == v;
      if k < i { assert q[k] == p[k]; }
    }
    forall v | v in Loaded(q) ensures v in Loaded(p) {
      var k :| 0 <= k < |q| && q[k].LoadLocal? && q[k].result == v;
      assert p[k] == q[k];
    }
    assert p[i] == code[i];
  }

  /** What an instruction must satisfy to be renamed where it stands. */
  ghost predicate Fits(r: Renaming, scope: set<Value>, defined: set<Value>, t: Stacks, i: Instruction) {
    match i
    case LoadLocal(v, n) => v in r.aliases && Top(r.undefined, t, n) == Some(r.aliases[v])
    case StoreLocal(_, v) => v in scope
    case Operation(o, _, vs) => (forall v :: v in vs ==> v in scope)
      && (o.Some? ==> o.value !in defined && o.value !in r.aliases)
    case _ => false
  }

  lemma InstructionScoped(r: Renaming, scope: set<Value>, defined: set<Value>, t: Stacks, i: Instruction)
    requires Scoped(r, scope, defined, t) && Fits(r, scope, defined, t, i)
    ensures Scoped(r, scope + ProducedBy(i), defined + ComputedBy(i), Stored(r.aliases, i, t))
  {
    if i.LoadLocal? && i.name !in t {
      assert r.undefined[i.name] in r.undefined.Values;
    }
  }

  lemma StoreAgrees<V, W>(sem: Semantics<V, W>, r: Renaming, scope: set<Value>, defined: set<Value>, t: Stacks,
      live: set<string>, i: Instruction, py: State<V, W>, ssa: State<V, W>)
    requires i.StoreLocal?
    requires Agree(sem, r, scope, t, LiveAcross(i, live), py, ssa)
    requires Scoped(r, scope, defined, t) && Fits(r, scope, defined, t, i)
    ensures Agree(sem, r, scope + ProducedBy(i), Stored(r.aliases, i, t), live, Do(sem, i, py),
      DoAll(sem, KeptOf(r.aliases, i), ssa))
  {
    hide Scoped;
    assert KeptOf(r.aliases, i) == [] && ProducedBy(i) == {} && scope + {} == scope;
    forall x | x in live ensures x == i.name || Local(sem, py.locals, x) == TopValue(sem, r.undefined, t, ssa.env, x) {
      assert x == i.name || x in LiveAcross(i, live);
    }
  }

  /** Reading the same value by value is reading the same. */
  lemma SameReads<V, W>(sem: Semantics<V, W>, env: map<Value, V>, env': map<Value, V>, aliases: map<Value, Value>,
      vs: seq<Value>)
    requires forall v :: v in vs ==> Get(sem, env, v) == Get(sem, env', Resolve(aliases, v))
    ensures GetAll(sem, env, vs) == GetAll(sem, env', ResolveAll(aliases, vs))
  {
  }

  lemma OperationAgrees<V, W>(sem: Semantics<V, W>, r: Renaming, scope: set<Value>, defined: set<Value>, t: Stacks,
      live: set<string>, i: Instruction, py: State<V, W>, ssa: State<V, W>)
    requires i.Operation?
    requires Agree(sem, r, scope, t, LiveAcross(i, live), py, ssa)
    requires Scoped(r, scope, defined, t) && Fits(r, scope, defined, t, i)
    ensures Agree(sem, r, scope + ProducedBy(i), Stored(r.aliases, i, t), live, Do(sem, i, py),
      DoAll(sem, KeptOf(r.aliases, i), ssa))
  {
    var kept := Operation(i.outcome, i.op, ResolveAll(r.aliases, i.operands));
    assert KeptOf(r.aliases, i)[..0] == [];
    SameReads(sem, py.env, ssa.env, r.aliases, i.operands);
    hide GetAll, Resolve;
    if i.outcome.Some? {
      OutcomeAgrees(sem, r, scope, defined, t, live, i, kept, py, ssa);
    }
  }

  /** A new value takes nothing from what the locals hold. */
  lemma OutcomeAgrees<V, W>(sem: Semantics<V, W>, r: Renaming, scope: set<Value>, defined: set<Value>, t: Stacks,
      live: set<string>, i: Instruction, kept: Instruction, py: State<V, W>, ssa: State<V, W>)
    requires i.Operation? && i.outcome.Some? && kept.Operation? && kept.outcome == i.outcome
    requires Agree(sem, r, scope, t, live, py, ssa)
    requires Scoped(r, scope, defined, t) && Fits(r, scope, defined, t, i)
    ensures forall x :: x in live ==>
      Local(sem, Do(sem, i, py).locals, x) == TopValue(sem, r.undefined, t, Do(sem, kept, ssa).env, x)
  {
    var py', ssa' := Do(sem, i, py), Do(sem, kept, ssa);
    forall x | x in live ensures Local(sem, py'.locals, x) == TopValue(sem, r.undefined, t, ssa'.env, x) {
      assert Local(sem, py.locals, x) == TopValue(sem, r.undefined, t, ssa.env, x);
      if x !in t && x in r.undefined {
        assert r.undefined[x] in r.undefined.Values;
      }
    }
  }

  /** One instruction, and what is kept of it, keep the states in agreement. */
  lemma InstructionAgrees<V, W>(sem: Semantics<V, W>, r: Renaming, scope: set<Value>, defined: set<Value>, t: Stacks,
      live: set<string>, i: Instruction, py: State<V, W>, ssa: State<V, W>)
    requires Agree(sem, r, scope, t, LiveAcross(i, live), py, ssa)
    requires Scoped(r, scope, defined, t) && Fits(r, scope, defined, t, i)
    ensures Agree(sem, r, scope + ProducedBy(i), Stored(r.aliases, i, t), live, Do(sem, i, py),
      DoAll(sem, KeptOf(r.aliases, i), ssa))
  {
    if i.StoreLocal? {
      StoreAgrees(sem, r, scope, defined, t, live, i, py, ssa);
    } else if i.Operation? {
      OperationAgrees(sem, r, scope, defined, t, live, i, py, ssa);
    }
  }

  ghost predicate ScopedAfter(r: Renaming, scope: set<Value>, defined: set<Value>, t: Stacks, code: seq<Instruction>,
      i: nat)
    requires i <= |code|
  {
    Scoped(r, scope + Produced(code[..i]), defined + Computed(code[..i]), After(r.aliases, code[..i], t))
  }

  lemma NextScoped(r: Renaming, scope: set<Value>, defined: set<Value>, t: Stacks, code: seq<Instruction>, i: nat)
    requires i < |code| && ScopedAfter(r, scope, defined, t, code, i)
    requires Fits(r, scope + Produced(code[..i]), defined + Computed(code[..i]), After(r.aliases, code[..i], t), code[i])
    ensures ScopedAfter(r, scope, defined, t, code, i + 1)
  {
    hide Scoped, Fits, Produced, Computed, Stored;
    PrefixStep(code, i);
    var here := code[..i];
    InstructionScoped(r, scope + Produced(here), defined + Computed(here), After(r.aliases, here, t), code[i]);
    assert scope + Produced(here) + ProducedBy(code[i]) == scope + Produced(code[..i + 1]);
    assert defined + Computed(here) + ComputedBy(code[i]) == defined + Computed(code[..i + 1]);
  }

  lemma FitsThere(r: Renaming, scope: set<Value>, defined: set<Value>, t: Stacks, code: seq<Instruction>, i: nat)
    requires i < |code| && ScopedAfter(r, scope, defined, t, code, i)
    requires Proper(r, scope, defined, code) && LoadsAliased(r.aliases, r.undefined, t, code)
    ensures Fits(r, scope + Produced(code[..i]), defined + Computed(code[..i]), After(r.aliases, code[..i], t), code[i])
  {
    hide Produced, Computed, After;
  }

  lemma NoneScoped(r: Renaming, scope: set<Value>, defined: set<Value>, t: Stacks, code: seq<Instruction>)
    requires Scoped(r, scope, defined, t)
    ensures ScopedAfter(r, scope, defined, t, code, 0)
  {
    assert code[..0] == [];
    assert scope + Produced([]) == scope && defined + Computed([]) == defined;
  }

  lemma {:induction false} PrefixScoped(r: Renaming, scope: set<Value>, defined: set<Value>, t: Stacks,
      code: seq<Instruction>, i: nat)
    requires i <= |code|
    requires Scoped(r, scope, defined, t)
    requires Proper(r, scope, defined, code) && LoadsAliased(r.aliases, r.undefined, t, code)
    ensures ScopedAfter(r, scope, defined, t, code, i)
    ensures i < |code| ==> Fits(r, scope + Produced(code[..i]), defined + Computed(code[..i]),
      After(r.aliases, code[..i], t), code[i])
  {
    hide Scoped, ScopedAfter, Fits, Proper, LoadsAliased, Produced, Computed, After;
    if i == 0 {
      NoneScoped(r, scope, defined, t, code);
    } else {
      PrefixScoped(r, scope, defined, t, code, i - 1);
      NextScoped(r, scope, defined, t, code, i - 1);
    }
    if i < |code| {
      FitsThere(r, scope, defined, t, code, i);
    }
  }

  /** Each instruction of the code finds what it reads where it stands. */
  ghost predicate FitsAt(r: Renaming, scope: set<Value>, defined: set<Value>, t: Stacks, code: seq<Instruction>, i: nat)
    requires i < |code|
  {
    && ScopedAfter(r, scope, defined, t, code, i)
    && Fits(r, scope + Produced(code[..i]), defined + Computed(code[..i]), After(r.aliases, code[..i], t), code[i])
  }

  ghost predicate AllFit(r: Renaming, scope: set<Value>, defined: set<Value>, t: Stacks, code: seq<Instruction>) {
    forall i: nat {:trigger FitsAt(r, scope, defined, t, code, i)} :: i < |code| ==>
      FitsAt(r, scope, defined, t, code, i)
  }

  /** Code run from the start of its scope fits it throughout. */
  lemma CodeScoped(r: Renaming, scope: set<Value>, defined: set<Value>, t: Stacks, code: seq<Instruction>)
    requires Scoped(r, scope, defined, t)
    requires Proper(r, scope, defined, code) && LoadsAliased(r.aliases, r.undefined, t, code)
    ensures AllFit(r, scope, defined, t, code)
    ensures Scoped(r, scope + Produced(code), defined + Computed(code), After(r.aliases, code, t))
  {
    hide Scoped, Fits, Proper, LoadsAliased, Produced, Computed, After;
    forall i: nat | i < |code| ensures FitsAt(r, scope, defined, t, code, i) {
      PrefixScoped(r, scope, defined, t, code, i);
    }
    PrefixScoped(r, scope, defined, t, code, |code|);
    assert code[..|code|] == code;
  }

  /** The states after the first `i` instructions of the code. */
  ghost predicate AgreeAfter<V, W>(sem: Semantics<V, W>, r: Renaming, scope: set<Value>, t: Stacks,
      code: seq<Instruction>, out: set<string>, i: nat, py: State<V, W>, ssa: State<V, W>)
    requires i <= |code|
  {
    var here := code[..i];
    Agree(sem, r, scope + Produced(here), After(r.aliases, here, t), LiveBefore(code[i..], out), DoAll(sem, here, py),
      DoAll(sem, Kept(r.aliases, here), ssa))
  }

  /** Running the first instructions of some code and what is kept of them agree. */
  lemma {:induction false} PrefixAgrees<V, W>(sem: Semantics<V, W>, r: Renaming, scope: set<Value>, defined: set<Value>,
      t: Stacks, code: seq<Instruction>, out: set<string>, i: nat, py: State<V, W>, ssa: State<V, W>)
    requires i <= |code|
    requires Agree(sem, r, scope, t, LiveBefore(code, out), py, ssa)
    requires AllFit(r, scope, defined, t, code)
    ensures AgreeAfter(sem, r, scope, t, code, out, i, py, ssa)
  {
    if i == 0 {
      assert code[0..] == code;
    } else {
      PrefixAgrees(sem, r, scope, defined, t, code, out, i - 1, py, ssa);
      assert FitsAt(r, scope, defined, t, code, i - 1);
      NextAgrees(sem, r, scope, defined, t, code, out, i - 1, py, ssa);
    }
  }

  lemma NextAgrees<V, W>(sem: Semantics<V, W>, r: Renaming, scope: set<Value>, defined: set<Value>, t: Stacks,
      code: seq<Instruction>, out: set<string>, i: nat, py: State<V, W>, ssa: State<V, W>)
    requires i < |code| && AgreeAfter(sem, r, scope, t, code, out, i, py, ssa) && FitsAt(r, scope, defined, t, code, i)
    ensures AgreeAfter(sem, r, scope, t, code, out, i + 1, py, ssa)
  {
    hide Agree, Fits, Scoped, Kept, Produced, Computed, Do, Stored, KeptOf;
    PrefixStep(code, i);
    var here := code[..i];
    assert code[i..][1..] == code[i + 1..];
    DoKept(sem, r.aliases, code, i, ssa);
    InstructionAgrees(sem, r, scope + Produced(here), defined + Computed(here), After(r.aliases, here, t),
      LiveBefore(code[i + 1..], out), code[i],
                      DoAll(sem, here, py), DoAll(sem, Kept(r.aliases, here), ssa));
    assert scope + Produced(here) + ProducedBy(code[i]) == scope + Produced(code[..i + 1]);
  }

  lemma DoKept<V, W>(sem: Semantics<V, W>, aliases: map<Value, Value>, code: seq<Instruction>, i: nat, s: State<V, W>)
    requires i < |code|
    ensures DoAll(sem, Kept(aliases, code[..i + 1]), s) == DoAll(sem, KeptOf(aliases, code[i]),
      DoAll(sem, Kept(aliases, code[..i]), s))
  {
    assert code[..i + 1][..i] == code[..i];
    var rest := Kept(aliases, code[..i]);
    if code[i].Operation? {
      assert (rest + KeptOf(aliases, code[i]))[..|rest|] == rest;
      assert KeptOf(aliases, code[i])[..0] == [];
    } else {
      assert rest + [] == rest;
    }
  }

  // ---- blocks and predecessors ----

  ghost predicate DistinctIds(blocks: seq<Block>) {
    forall j, k :: 0 <= j < k < |blocks| ==> blocks[j].id != blocks[k].id
  }

  lemma {:induction false} FindAt(blocks: seq<Block>, k: nat)
    requires k < |blocks| && DistinctIds(blocks)
    ensures Find(blocks, blocks[k].id) == Some(blocks[k])
    decreases |blocks|
  {
    if k > 0 {
      assert blocks[0].id != blocks[k].id;
      forall i, j | 0 <= i < j < |blocks[1..]| ensures blocks[1..][i].id != blocks[1..][j].id {
        assert blocks[i + 1].id != blocks[j + 1].id;
      }
      FindAt(blocks[1..], k - 1);
    }
  }

  lemma {:induction false} FindWhere(blocks: seq<Block>, id: BlockId) returns (k: nat)
    requires Find(blocks, id).Some?
    ensures k < |blocks| && blocks[k] == Find(blocks, id).value && blocks[k].id == id
    decreases |blocks|
  {
    if blocks[0].id == id {
      k := 0;
    } else {
      k := FindWhere(blocks[1..], id);
      k := k + 1;
    }
  }

  lemma {:induction false} FindAppend(blocks: seq<Block>, last: Block, id: BlockId)
    ensures Find(blocks + [last], id) == if Find(blocks, id).Some? then Find(blocks, id) else if last.id == id
      then Some(last) else None
    decreases |blocks|
  {
    if blocks != [] {
      assert (blocks + [last])[1..] == blocks[1..] + [last];
      FindAppend(blocks[1..], last, id);
    } else {
      assert blocks + [last] == [last] && [last][1..] == [];
    }
  }

  lemma FoundAt(blocks: seq<Block>, k: nat)
    requires k < |blocks|
    ensures Find(blocks, blocks[k].id).Some?
    decreases |blocks|
  {
    if k > 0 {
      FoundAt(blocks[1..], k - 1);
    }
  }

  lemma NewId(blocks: seq<Block>, k: nat)
    requires DistinctIds(blocks) && k < |blocks|
    ensures Find(blocks[..k], blocks[k].id) == None
  {
    if Find(blocks[..k], blocks[k].id).Some? {
      var j := FindWhere(blocks[..k], blocks[k].id);
    }
  }

  /** `id`, once for each edge to `b` among the successors. */
  function Times(id: BlockId, successors: seq<BlockId>, b: BlockId): (r: seq<BlockId>)
    ensures forall p :: p in r <==> p == id && b in successors
  {
    if successors == [] then []
    else (if successors[0] == b then [id] else []) + Times(id, successors[1..], b)
  }

  /** The predecessors of `b` among the blocks kept, in order. */
  function PredecessorsIn(blocks: seq<Block>, keep: set<BlockId>, b: BlockId): seq<BlockId> {
    if blocks == [] then []
    else
      var last := blocks[|blocks| - 1];
      PredecessorsIn(blocks[..|blocks| - 1], keep, b) + (if last.id in keep then Times(last.id, Successors(last), b)
        else [])
  }

  lemma {:induction false} InPredecessors(blocks: seq<Block>, keep: set<BlockId>, b: BlockId, p: BlockId)
    ensures p in PredecessorsIn(blocks, keep, b)
            <==> exists k :: 0 <= k < |blocks| && blocks[k].id == p && p in keep && b in Successors(blocks[k])
  {
    hide Successors;
    if blocks != [] {
      var rest, last := blocks[..|blocks| - 1], blocks[|blocks| - 1];
      InPredecessors(rest, keep, b, p);
      if k :| 0 <= k < |rest| && rest[k].id == p && p in keep && b in Successors(rest[k]) {
        assert blocks[k] == rest[k];
      }
      if k :| 0 <= k < |blocks| && blocks[k].id == p && p in keep && b in Successors(blocks[k]) {
        if k < |rest| { assert blocks[k] == rest[k]; }
      }
    }
  }

  function Ids(blocks: seq<Block>): seq<BlockId> {
    seq(|blocks|, i requires 0 <= i < |blocks| => blocks[i].id)
  }

  /** The blocks kept, in order. */
  function KeptIds(blocks: seq<Block>, keep: set<BlockId>): seq<BlockId> {
    if blocks == [] then []
    else
      var last := blocks[|blocks| - 1].id;
      KeptIds(blocks[..|blocks| - 1], keep) + (if last in keep then [last] else [])
  }

  function Sources(incoming: seq<(Value, BlockId)>): seq<BlockId> {
    seq(|incoming|, i requires 0 <= i < |incoming| => incoming[i].1)
  }

  // ---- the source ----

  /** The edges of the function. */
  function SuccessorTable(blocks: seq<Block>): (r: Table)
    ensures forall id :: id in r <==> Find(blocks, id).Some?
    ensures forall id :: id in r ==> r[id] == Successors(Find(blocks, id).value)
  {
    if blocks == [] then map[]
    else SuccessorTable(blocks[1..])[blocks[0].id := Successors(blocks[0])]
  }

  /** Where a value is made by the source: the instruction at a position of a block. */
  predicate Makes(b: Block, i: nat, v: Value) {
    i < |b.instructions| && v in ProducedBy(b.instructions[i])
  }

  /** A value is made once, and parameters are not made. */
  ghost predicate SingleDefinitions(src: Source) {
    && (forall b: BlockId, c: BlockId, i: nat, j: nat, v: Value ::
          b in src.blocks && c in src.blocks && Makes(src.blocks[b], i, v) && Makes(src.blocks[c], j, v) ==>
            b == c && i == j)
    && (forall b: BlockId, i: nat, v: Value :: b in src.blocks && Makes(src.blocks[b], i, v) ==>
      v !in src.code.parameters)
  }

  /** What an instruction reads, locals aside. */
  function ReadsOf(i: Instruction): seq<Value> {
    match i
    case StoreLocal(_, v) => [v]
    case Operation(_, _, vs) => vs
    case _ => []
  }

  /** `v` is made on every path to position `i` of block `b`. */
  ghost predicate MadeBefore(src: Source, b: BlockId, i: nat, v: Value)
    requires b in src.blocks
  {
    || v in src.code.parameters
    || (exists j: nat :: j < i && Makes(src.blocks[b], j, v))
    || (exists c, j: nat :: c in src.blocks && Makes(src.blocks[c], j, v)
                            && StrictlyDominates(SuccessorTable(src.code.blocks), src.code.entry, c, b))
  }

  /** Values are made before they are read, and only operations, loads and stores appear. */
  ghost predicate UsesDefinedIn(src: Source, b: BlockId)
    requires b in src.blocks
  {
    var code := src.blocks[b].instructions;
    && (forall i :: 0 <= i < |code| ==> !code[i].Phi? && !code[i].Undefined?)
    && (forall i, v :: 0 <= i < |code| && v in ReadsOf(code[i]) ==> MadeBefore(src, b, i, v))
    && (forall v :: v in Reads(src.blocks[b].terminator) ==> MadeBefore(src, b, |code|, v))
  }

  ghost predicate UsesDefined(src: Source) {
    forall b {:trigger UsesDefinedIn(src, b)} :: b in src.blocks ==> UsesDefinedIn(src, b)
  }

  /** The body of a loop is entered from its header only, by taking the next item. */
  ghost predicate LoopsEntered(src: Source) {
    && (forall h {:trigger HeaderOk(src, h)} :: h in src.blocks && src.blocks[h].terminator.ForNext? ==>
      HeaderOk(src, h))
    && (forall s {:trigger BodyOk(src, s)} {:trigger src.loopOf[s]} :: s in src.loopOf ==> BodyOk(src, s))
  }

  ghost predicate HeaderOk(src: Source, h: BlockId)
    requires h in src.blocks && src.blocks[h].terminator.ForNext?
  {
    var t := src.blocks[h].terminator;
    && t.result == None && t.body != t.exit && t.body !in src.blocks[h].exceptionTargets
    && t.body in src.loopOf && src.loopOf[t.body] == (t.name, h)
  }

  ghost predicate BodyOk(src: Source, s: BlockId)
    requires s in src.loopOf
  {
    var h := src.loopOf[s].1;
    && h in src.blocks && src.blocks[h].terminator.ForNext? && src.blocks[h].terminator.body == s
    && src.blocks[h].terminator.name == src.loopOf[s].0
    && forall p :: p in src.blocks && s in Successors(src.blocks[p]) ==> p == h
  }

  /** The reachable blocks, in a graph whose entry has no predecessor, with its dominator tree. */
  ghost predicate BlocksAndTree(src: Source) {
    && src.tree.Of(SuccessorTable(src.code.blocks)) && src.tree.root == src.code.entry
    && src.blocks.Keys == src.tree.idom.Keys
    && DistinctIds(src.code.blocks)
    && (forall b {:trigger BlockOk(src, b)} :: b in src.blocks ==> BlockOk(src, b))
  }

  ghost predicate BlockOk(src: Source, b: BlockId)
    requires b in src.blocks
  {
    && Find(src.code.blocks, b) == Some(src.blocks[b]) && src.blocks[b].id == b
    && src.code.entry !in Successors(src.blocks[b])
  }

  /** What the lowering guarantees of its output. */
  ghost predicate Lowered(src: Source) {
    && BlocksAndTree(src)
    && SingleDefinitions(src)
    && UsesDefined(src)
    && LoopsEntered(src)
  }

  // ---- liveness ----

  ghost function LiveOut(src: Source, b: BlockId): set<string>
    requires b in src.blocks && src.live.Keys == src.blocks.Keys
  {
    set s, x | s in Successors(src.blocks[b]) && s in src.live && x in src.live[s] :: x
  }

  function LoopName(src: Source, b: BlockId): set<string> {
    if b in src.loopOf then {src.loopOf[b].0} else {}
  }

  /** What a block reads before storing it, or passes on, is live where the block starts. */
  ghost predicate LiveFlowsAt(src: Source, b: BlockId)
    requires b in src.blocks && src.live.Keys == src.blocks.Keys
  {
    LiveBefore(src.blocks[b].instructions, LiveOut(src, b)) - LoopName(src, b) <= src.live[b]
  }

  ghost predicate LiveFlows(src: Source) {
    && src.live.Keys == src.blocks.Keys
    && forall b {:trigger LiveFlowsAt(src, b)} :: b in src.blocks ==> LiveFlowsAt(src, b)
  }

  // ---- what may be referred to where ----

  ghost predicate TreeOf(src: Source) {
    && IsTree(src.tree.root, src.tree.depth, src.tree.idom)
    && src.blocks.Keys == src.tree.idom.Keys
  }

  ghost function Above(src: Source, b: BlockId): set<BlockId>
    requires TreeOf(src) && b in src.blocks
  {
    Anc(src.tree.root, src.tree.depth, src.tree.idom, b)
  }

  ghost function Parent(src: Source, b: BlockId): (p: BlockId)
    requires TreeOf(src) && b in src.blocks && b != src.tree.root
    ensures p in src.blocks && src.tree.depth[p] < src.tree.depth[b]
    ensures src.tree.idom[b] == Some(p)
    ensures Above(src, b) == {b} + Above(src, p)
  {
    assert HasParent(src.tree.depth, src.tree.idom, b);
    src.tree.idom[b].value
  }

  /** The source's values made before block `b`, on every path to it. */
  ghost function ScopeIn(src: Source, b: BlockId): set<Value>
    requires TreeOf(src) && b in src.blocks
    decreases src.tree.depth[b], 0
  {
    if b == src.tree.root then set v | v in src.code.parameters else ScopeOut(src, Parent(src, b))
  }

  ghost function ScopeOut(src: Source, b: BlockId): set<Value>
    requires TreeOf(src) && b in src.blocks
    decreases src.tree.depth[b], 1
  {
    ScopeIn(src, b) + Produced(src.blocks[b].instructions)
  }

  function PhiValues(r: Renaming, b: BlockId): set<Value> {
    if b in r.phis then r.phis[b].Values else {}
  }

  function LoopValue(src: Source, r: Renaming, b: BlockId): set<Value> {
    if b in src.loopOf && src.loopOf[b].1 in r.loops then {r.loops[src.loopOf[b].1]} else {}
  }

  /** The converted form's values defined before block `b`. */
  ghost function DefinedIn(src: Source, r: Renaming, b: BlockId): set<Value>
    requires TreeOf(src) && b in src.blocks
    decreases src.tree.depth[b], 0
  {
    if b == src.tree.root then (set v | v in src.code.parameters) + r.undefined.Values
    else DefinedOut(src, r, Parent(src, b))
  }

  ghost function DefinedOnEntry(src: Source, r: Renaming, b: BlockId): set<Value>
    requires TreeOf(src) && b in src.blocks
    decreases src.tree.depth[b], 1
  {
    DefinedIn(src, r, b) + PhiValues(r, b) + LoopValue(src, r, b)
  }

  ghost function DefinedOut(src: Source, r: Renaming, b: BlockId): set<Value>
    requires TreeOf(src) && b in src.blocks
    decreases src.tree.depth[b], 2
  {
    DefinedOnEntry(src, r, b) + Computed(src.blocks[b].instructions)
  }

  // ---- the renaming ----

  ghost function TopsIn(src: Source, tops: map<BlockId, Stacks>, b: BlockId): Stacks
    requires TreeOf(src) && b in src.blocks
  {
    if b == src.tree.root then map[]
    else if Parent(src, b) in tops then tops[Parent(src, b)] else map[]
  }

  /** The stack tops once the loop variable and the phis of the block are pushed. */
  ghost function TopsOnEntry(src: Source, r: Renaming, b: BlockId): Stacks
    requires TreeOf(src) && b in src.blocks
  {
    var t := TopsIn(src, r.tops, b);
    var t' := if b in src.loopOf && src.loopOf[b].1 in r.loops then t[src.loopOf[b].0 := r.loops[src.loopOf[b].1]]
      else t;
    if b in r.phis then t' + r.phis[b] else t'
  }

  /** Block `m` assigns local `x`. */
  ghost predicate Assigns(src: Source, m: BlockId, x: string)
    requires m in src.blocks
  {
    || (exists i ::
          0 <= i < |src.blocks[m].instructions| && src.blocks[m].instructions[i].StoreLocal? &&
          src.blocks[m].instructions[i].name == x)
    || x in LoopName(src, m)
  }

  ghost function Assigners(src: Source, x: string): set<BlockId> {
    set m | m in src.blocks && Assigns(src, m, x)
  }

  /** Phis stand exactly where definitions of a live local meet. */
  ghost predicate PhisPlaced(src: Source, r: Renaming)
    requires src.live.Keys == src.blocks.Keys
  {
    forall b, x {:trigger InIteratedFrontier(src.tree.frontier, Assigners(src, x), b)} :: b in src.blocks ==>
      ((b in r.phis && x in r.phis[b]) <==> x in src.live[b] && InIteratedFrontier(src.tree.frontier, Assigners(src, x),
        b))
  }

  datatype Site = PhiSite(block: BlockId, name: string) | LoopSite(header: BlockId) | UndefinedSite(name: string)

  /** Every value the renaming made is made for one purpose, and is none of the source's. */
  ghost predicate Fresh(src: Source, r: Renaming, base: Value, site: map<Value, Site>) {
    && (forall b, x {:trigger r.phis[b][x]} :: b in r.phis && x in r.phis[b] ==>
      r.phis[b][x] in site && site[r.phis[b][x]] == PhiSite(b, x))
    && (forall h {:trigger r.loops[h]} :: h in r.loops ==> r.loops[h] in site && site[r.loops[h]] == LoopSite(h))
    && (forall x {:trigger r.undefined[x]} :: x in r.undefined ==>
      r.undefined[x] in site && site[r.undefined[x]] == UndefinedSite(x))
    && (forall v :: v in site ==> v >= base)
    && (forall v :: v in src.code.parameters ==> v < base)
    && (forall b: BlockId, i: nat, v: Value :: b in src.blocks && Makes(src.blocks[b], i, v) ==> v < base)
  }

  /** The block was renamed: its loads stand for the stack tops met on the way. */
  ghost predicate BlockRenamed(src: Source, r: Renaming, b: BlockId)
    requires TreeOf(src) && b in src.blocks
  {
    var code := src.blocks[b].instructions;
    && b in r.tops
    && r.tops[b] == After(r.aliases, code, TopsOnEntry(src, r, b))
    && LoadsAliased(r.aliases, r.undefined, TopsOnEntry(src, r, b), code)
    && (src.blocks[b].terminator.ForNext? ==> b in r.loops)
  }

  ghost predicate AllRenamed(src: Source, r: Renaming)
    requires TreeOf(src)
  {
    && (forall b {:trigger BlockRenamed(src, r, b)} :: b in src.blocks ==> BlockRenamed(src, r, b))
    && (forall v :: v in r.aliases ==> exists b :: b in src.blocks && v in Loaded(src.blocks[b].instructions))
    && (forall b :: b in r.phis ==> b in src.blocks)
  }
}
