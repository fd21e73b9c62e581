/** The conversion to SSA form keeps the meaning of every run. */
module SSAMeaning {
  import opened Graphs
  import opened Options
  import opened Trees
  import opened Dominators
  import opened DominatorTrees
  import opened IR
  import opened SSAForm

  // ---- scopes along the tree ----

  ghost predicate Ready(src: Source, r: Renaming, base: Value, site: map<Value, Site>) {
    && Lowered(src) && TreeOf(src)
    && LiveFlows(src)
    && AllRenamed(src, r)
    && PhisPlaced(src, r)
    && Fresh(src, r, base, site)
  }

  lemma {:induction false} ScopeGrows(src: Source, a: BlockId, b: BlockId)
    requires TreeOf(src) && b in src.blocks && a in Above(src, b)
    ensures a in src.blocks && ScopeOut(src, a) <= ScopeOut(src, b)
    decreases src.tree.depth[b]
  {
    if a != b {
      assert b != src.tree.root;
      ScopeGrows(src, a, Parent(src, b));
    }
  }

  /** Block `c` is where the converted form defines `v`. */
  ghost predicate Home(src: Source, base: Value, site: map<Value, Site>, v: Value, c: BlockId) {
    c in src.blocks
    && if v in site then
         v >= base &&
         match site[v]
         case PhiSite(b, _) => b == c
         case LoopSite(h) => c in src.loopOf && src.loopOf[c].1 == h
         case UndefinedSite(_) => false
       else v < base && exists i: nat :: Makes(src.blocks[c], i, v)
  }

  lemma OneHome(src: Source, base: Value, site: map<Value, Site>, v: Value, c: BlockId, d: BlockId)
    requires Lowered(src) && Home(src, base, site, v, c) && Home(src, base, site, v, d)
    ensures c == d
  {
  }

  lemma DefinesHome(src: Source, r: Renaming, base: Value, site: map<Value, Site>, b: BlockId, v: Value)
    requires Fresh(src, r, base, site) && b in src.blocks
    requires v in PhiValues(r, b) + LoopValue(src, r, b) + Computed(src.blocks[b].instructions)
    ensures Home(src, base, site, v, b)
  {
    if v in Computed(src.blocks[b].instructions) {
      var code := src.blocks[b].instructions;
      var i :| 0 <= i < |code| && code[i].Operation? && code[i].outcome.Some? && code[i].outcome.value == v;
      assert Makes(src.blocks[b], i, v);
    }
  }

  /** A value already defined where `b` starts is a parameter, stands for an undefined local,
      or has its home strictly above. */
  lemma {:induction false} DefinedAbove(src: Source, r: Renaming, base: Value, site: map<Value, Site>, b: BlockId,
      v: Value) returns (c: BlockId)
    requires TreeOf(src) && Fresh(src, r, base, site) && b in src.blocks && v in DefinedIn(src, r, b)
    requires v !in src.code.parameters && v !in r.undefined.Values
    ensures c in Above(src, b) && c != b && Home(src, base, site, v, c)
    ensures v in PhiValues(r, c) + LoopValue(src, r, c) + Computed(src.blocks[c].instructions)
    decreases src.tree.depth[b]
  {
    assert b != src.tree.root;
    var p := Parent(src, b);
    RootAbove(src.tree.root, src.tree.depth, src.tree.idom, p);
    if v in DefinedIn(src, r, p) {
      c := DefinedAbove(src, r, base, site, p, v);
      AncBasics(src.tree.root, src.tree.depth, src.tree.idom, p, c);
    } else {
      c := p;
      assert v in DefinedOut(src, r, p);
      assert v in DefinedOnEntry(src, r, p) + Computed(src.blocks[p].instructions);
      DefinesHome(src, r, base, site, p, v);
    }
  }

  /** What has its home in `b` was not defined before it. */
  lemma NewHere(src: Source, r: Renaming, base: Value, site: map<Value, Site>, b: BlockId, v: Value)
    requires Lowered(src) && TreeOf(src) && Fresh(src, r, base, site) && Home(src, base, site, v, b)
    ensures v !in DefinedIn(src, r, b)
  {
    assert v !in r.undefined.Values;
    assert v !in src.code.parameters;
    if v in DefinedIn(src, r, b) {
      var c := DefinedAbove(src, r, base, site, b, v);
      OneHome(src, base, site, v, b, c);
    }
  }

  // ---- every block finds what it reads ----

  lemma {:induction false} ParametersInScope(src: Source, b: BlockId)
    requires TreeOf(src) && b in src.blocks
    ensures forall v :: v in src.code.parameters ==> v in ScopeIn(src, b)
    decreases src.tree.depth[b]
  {
    if b != src.tree.root {
      ParametersInScope(src, Parent(src, b));
    }
  }

  lemma StrictlyAbove(src: Source, c: BlockId, b: BlockId)
    requires BlocksAndTree(src) && TreeOf(src) && b in src.blocks && c in src.blocks
    requires StrictlyDominates(SuccessorTable(src.code.blocks), src.code.entry, c, b)
    ensures b != src.tree.root && c in Above(src, Parent(src, b))
  {
    assert Graphs.Dominates(SuccessorTable(src.code.blocks), src.tree.root, c, b);
  }

  lemma ProducedPrefix(code: seq<Instruction>, i: nat, j: nat, v: Value)
    requires j < i <= |code| && v in ProducedBy(code[j])
    ensures v in Produced(code[..i])
  {
    assert code[..i][j] == code[j];
  }

  lemma MadeAbove(src: Source, b: BlockId, c: BlockId, j: nat, v: Value)
    requires TreeOf(src) && b in src.blocks && c in src.blocks && Makes(src.blocks[c], j, v)
    requires b != src.tree.root && c in Above(src, Parent(src, b))
    ensures v in ScopeIn(src, b)
  {
    var code := src.blocks[c].instructions;
    ProducedPrefix(code, |code|, j, v);
    assert code[..|code|] == code;
    ScopeGrows(src, c, Parent(src, b));
  }

  lemma MadeInScope(src: Source, b: BlockId, i: nat, v: Value)
    requires BlocksAndTree(src) && TreeOf(src) && b in src.blocks && i <= |src.blocks[b].instructions|
    requires MadeBefore(src, b, i, v)
    ensures v in ScopeIn(src, b) + Produced(src.blocks[b].instructions[..i])
  {
    if v in src.code.parameters {
      ParametersInScope(src, b);
    } else if j: nat :| j < i && Makes(src.blocks[b], j, v) {
      ProducedPrefix(src.blocks[b].instructions, i, j, v);
    } else {
      var c, j: nat :| c in src.blocks && Makes(src.blocks[c], j, v)
                       && StrictlyDominates(SuccessorTable(src.code.blocks), src.code.entry, c, b);
      StrictlyAbove(src, c, b);
      MadeAbove(src, b, c, j, v);
    }
  }

  lemma NotAliased(src: Source, r: Renaming, b: BlockId, i: nat, v: Value)
    requires SingleDefinitions(src) && TreeOf(src) && AllRenamed(src, r)
    requires v in src.code.parameters || (b in src.blocks && Makes(src.blocks[b], i, v)
      && src.blocks[b].instructions[i].Operation?)
    ensures v !in r.aliases
  {
    if v in r.aliases {
      var c :| c in src.blocks && v in Loaded(src.blocks[c].instructions);
      var j :| 0 <= j < |src.blocks[c].instructions| && src.blocks[c].instructions[j].LoadLocal?
        && src.blocks[c].instructions[j].result == v;
      assert Makes(src.blocks[c], j, v);
    }
  }

  lemma OperationIsNew(src: Source, r: Renaming, base: Value, site: map<Value, Site>, b: BlockId, i: nat)
    requires Lowered(src) && TreeOf(src) && AllRenamed(src, r) && Fresh(src, r, base, site)
    requires b in src.blocks && i < |src.blocks[b].instructions|
    requires src.blocks[b].instructions[i].Operation? && src.blocks[b].instructions[i].outcome.Some?
    ensures var v := src.blocks[b].instructions[i].outcome.value;
      v !in DefinedOnEntry(src, r, b) + Computed(src.blocks[b].instructions[..i]) && v !in r.aliases
  {
    hide BlocksAndTree, UsesDefined, LoopsEntered, AllRenamed;
    var code := src.blocks[b].instructions;
    var v := code[i].outcome.value;
    assert Makes(src.blocks[b], i, v);
    assert v < base;
    assert v !in site;
    assert Home(src, base, site, v, b);
    NewHere(src, r, base, site, b, v);
    NotAliased(src, r, b, i, v);
    forall j | 0 <= j < i && code[..i][j].Operation? && code[..i][j].outcome.Some?
      ensures code[..i][j].outcome.value != v {
      assert Makes(src.blocks[b], j, code[j].outcome.value);
    }
  }

  lemma BlockProper(src: Source, r: Renaming, base: Value, site: map<Value, Site>, b: BlockId)
    requires Lowered(src) && TreeOf(src) && AllRenamed(src, r) && Fresh(src, r, base, site)
    requires b in src.blocks
    ensures Proper(r, ScopeIn(src, b), DefinedOnEntry(src, r, b), src.blocks[b].instructions)
  {
    var code := src.blocks[b].instructions;
    assert UsesDefinedIn(src, b);
    forall i | 0 <= i < |code|
      ensures match code[i]
              case LoadLocal(v, _) => true
              case StoreLocal(_, v) => v in ScopeIn(src, b) + Produced(code[..i])
              case Operation(o, _, vs) =>
                && (forall v :: v in vs ==> v in ScopeIn(src, b) + Produced(code[..i]))
                && (o.Some? ==> o.value !in DefinedOnEntry(src, r, b) + Computed(code[..i]) && o.value !in r.aliases)
              case _ => false
    {
      forall v | v in ReadsOf(code[i]) ensures v in ScopeIn(src, b) + Produced(code[..i]) {
        MadeInScope(src, b, i, v);
      }
      match code[i] {
        case StoreLocal(_, v) => assert v in ReadsOf(code[i]);
        case Operation(o, _, vs) =>
          if o.Some? {
            OperationIsNew(src, r, base, site, b, i);
          }
        case _ =>
      }
    }
  }

  lemma ScopedAtRoot(src: Source, r: Renaming, b: BlockId)
    requires SingleDefinitions(src) && TreeOf(src) && AllRenamed(src, r) && b in src.blocks && b == src.tree.root
    ensures Scoped(r, ScopeIn(src, b), DefinedOnEntry(src, r, b), TopsOnEntry(src, r, b))
  {
    hide SingleDefinitions, AllRenamed;
    forall v | v in ScopeIn(src, b) ensures Resolve(r.aliases, v) in DefinedOnEntry(src, r, b) {
      NotAliased(src, r, b, 0, v);
    }
    assert TopsIn(src, r.tops, b) == map[];
  }

  lemma ScopedBelow(src: Source, r: Renaming, b: BlockId)
    requires TreeOf(src) && b in src.blocks && b != src.tree.root
    requires var p := Parent(src, b); p in r.tops && Scoped(r, ScopeOut(src, p), DefinedOut(src, r, p), r.tops[p])
    ensures Scoped(r, ScopeIn(src, b), DefinedOnEntry(src, r, b), TopsOnEntry(src, r, b))
  {
    var p := Parent(src, b);
    assert TopsIn(src, r.tops, b) == r.tops[p];
    assert DefinedIn(src, r, b) == DefinedOut(src, r, p);
  }

  lemma {:induction false} ScopedOnEntry(src: Source, r: Renaming, base: Value, site: map<Value, Site>, b: BlockId)
    requires Lowered(src) && TreeOf(src) && AllRenamed(src, r) && Fresh(src, r, base, site)
    requires b in src.blocks
    ensures Scoped(r, ScopeIn(src, b), DefinedOnEntry(src, r, b), TopsOnEntry(src, r, b))
    decreases src.tree.depth[b], 0
  {
    if b == src.tree.root {
      ScopedAtRoot(src, r, b);
    } else {
      ScopedOut(src, r, base, site, Parent(src, b));
      ScopedBelow(src, r, b);
    }
  }

  lemma {:induction false} ScopedOut(src: Source, r: Renaming, base: Value, site: map<Value, Site>, b: BlockId)
    requires Lowered(src) && TreeOf(src) && AllRenamed(src, r) && Fresh(src, r, base, site)
    requires b in src.blocks
    ensures b in r.tops && Scoped(r, ScopeOut(src, b), DefinedOut(src, r, b), r.tops[b])
    ensures AllFit(r, ScopeIn(src, b), DefinedOnEntry(src, r, b), TopsOnEntry(src, r, b), src.blocks[b].instructions)
    decreases src.tree.depth[b], 1
  {
    hide Lowered, Fresh, Scoped, AllFit, Proper, LoadsAliased, Produced, Computed, After, DefinedOnEntry, TopsOnEntry;
    ScopedOnEntry(src, r, base, site, b);
    BlockProper(src, r, base, site, b);
    assert BlockRenamed(src, r, b);
    CodeScoped(r, ScopeIn(src, b), DefinedOnEntry(src, r, b), TopsOnEntry(src, r, b), src.blocks[b].instructions);
  }

  // ---- edges ----

  /** Block `m` changes what the stacks hold for `x`. */
  ghost predicate Pushes(src: Source, r: Renaming, m: BlockId, x: string)
    requires m in src.blocks
  {
    Assigns(src, m, x) || (m in r.phis && x in r.phis[m])
  }

  lemma {:induction false} StoresAssign(aliases: map<Value, Value>, code: seq<Instruction>, t: Stacks, x: string)
    requires forall i :: 0 <= i < |code| && code[i].StoreLocal? ==> code[i].name != x
    ensures (x in After(aliases, code, t) <==> x in t) && (x in t ==> After(aliases, code, t)[x] == t[x])
  {
    if code != [] {
      StoresAssign(aliases, code[..|code| - 1], t, x);
    }
  }

  /** A block that does not push `x` passes on what its parent left. */
  lemma PassesThrough(src: Source, r: Renaming, b: BlockId, x: string)
    requires TreeOf(src) && AllRenamed(src, r) && b in src.blocks && b != src.tree.root && !Pushes(src, r, b, x)
    ensures b in r.tops && Parent(src, b) in r.tops
    ensures Top(r.undefined, r.tops[b], x) == Top(r.undefined, r.tops[Parent(src, b)], x)
  {
    assert BlockRenamed(src, r, b) && BlockRenamed(src, r, Parent(src, b));
    StoresAssign(r.aliases, src.blocks[b].instructions, TopsOnEntry(src, r, b), x);
  }

  /** If nothing between `top` and `b` pushes `x`, both leave the same value of it. */
  lemma {:induction false} SameTop(src: Source, r: Renaming, top: BlockId, b: BlockId, x: string)
    requires TreeOf(src) && AllRenamed(src, r) && b in src.blocks && top in Above(src, b) && top in src.blocks
    requires forall m :: m in Above(src, b) && m !in Above(src, top) && m in src.blocks ==> !Pushes(src, r, m, x)
    ensures b in r.tops && top in r.tops
    ensures Top(r.undefined, r.tops[b], x) == Top(r.undefined, r.tops[top], x)
    decreases src.tree.depth[b]
  {
    assert BlockRenamed(src, r, b) && BlockRenamed(src, r, top);
    if b != top {
      assert b != src.tree.root;
      var p := Parent(src, b);
      RootAbove(src.tree.root, src.tree.depth, src.tree.idom, b);
      AncBasics(src.tree.root, src.tree.depth, src.tree.idom, p, top);
      assert b !in Above(src, top) by {
        NotBelow(src.tree.root, src.tree.depth, src.tree.idom, b, top);
      }
      SameTop(src, r, top, p, x);
      PassesThrough(src, r, b, x);
    }
  }

  /** Where a live local gets no phi, an edge brings the value the target's parent left. */
  lemma NoPhiSameTop(src: Source, r: Renaming, b: BlockId, s: BlockId, x: string)
    requires BlocksAndTree(src) && TreeOf(src) && AllRenamed(src, r) && src.live.Keys == src.blocks.Keys
      && PhisPlaced(src, r)
    requires b in src.blocks && s in src.blocks && s in Successors(src.blocks[b]) && s != src.tree.root
    requires x in src.live[s] && !(s in r.phis && x in r.phis[s])
    ensures b in r.tops && Parent(src, s) in r.tops
    ensures Top(r.undefined, r.tops[b], x) == Top(r.undefined, r.tops[Parent(src, s)], x)
  {
    var succ := SuccessorTable(src.code.blocks);
    assert BlockOk(src, b);
    EdgeInTree(src.tree, succ, b, s);
    var top := Parent(src, s);
    forall m | m in Above(src, b) && m !in Above(src, top) && m in src.blocks ensures !Pushes(src, r, m, x) {
      if Assigns(src, m, x) {
        ChainGrows(src.tree.frontier, Assigners(src, x), m, s);
      } else if m in r.phis && x in r.phis[m] {
        ChainGrows(src.tree.frontier, Assigners(src, x), m, s);
      }
    }
    SameTop(src, r, top, b, x);
  }

  /** A loop body is entered from its header only, so it hangs below it and holds no phi. */
  lemma BodyBelowHeader(src: Source, s: BlockId)
    requires Lowered(src) && TreeOf(src) && s in src.loopOf && s in src.blocks
    ensures s != src.tree.root && Parent(src, s) == src.loopOf[s].1
    ensures forall m :: m in src.tree.frontier ==> s !in src.tree.frontier[m]
  {
    hide DominatorTree.Of, SingleDefinitions, UsesDefined, Find, TreeOf, DistinctIds;
    var succ := SuccessorTable(src.code.blocks);
    var h := src.loopOf[s].1;
    assert BodyOk(src, s);
    assert BlockOk(src, h);
    assert s in Targets(src.blocks[h].terminator);
    assert s != src.tree.root;
    forall p | p in src.tree.idom && Edge(succ, p, s) ensures p == h {
      assert BlockOk(src, p);
    }
    SoleEntry(src.tree, succ, h, s);
    forall m | m in src.tree.frontier ensures s !in src.tree.frontier[m] {
      BodyInNoFrontier(src, succ, h, s, m);
    }
  }

  lemma AboveHeaderIsAboveBody(tree: DominatorTree, succ: Table, h: BlockId, s: BlockId, m: BlockId)
    requires tree.Of(succ) && s in tree.idom && h in tree.idom && tree.idom[s] == Some(h) && s != tree.root
    requires Graphs.Dominates(succ, tree.root, m, h)
    ensures StrictlyDominates(succ, tree.root, m, s)
  {
    assert HasParent(tree.depth, tree.idom, s);
    assert m in Anc(tree.root, tree.depth, tree.idom, h);
    AncBasics(tree.root, tree.depth, tree.idom, h, m);
    assert m in Anc(tree.root, tree.depth, tree.idom, s);
    assert Graphs.Dominates(succ, tree.root, m, s) <==> m in Anc(tree.root, tree.depth, tree.idom, s);
  }

  lemma BodyInNoFrontier(src: Source, succ: Table, h: BlockId, s: BlockId, m: BlockId)
    requires src.tree.Of(succ) && m in src.tree.frontier && s in src.tree.idom && h in src.tree.idom
    requires src.tree.idom[s] == Some(h) && s != src.tree.root
    requires forall p :: p in src.tree.idom && Edge(succ, p, s) ==> p == h
    ensures s !in src.tree.frontier[m]
  {
    assert s in src.tree.frontier[m] <==> InFrontier(succ, src.tree.root, m, s);
    if InFrontier(succ, src.tree.root, m, s) {
      var p :| Edge(succ, p, s) && Reaches(succ, src.tree.root, p) && Graphs.Dominates(succ, src.tree.root, m, p);
      AboveHeaderIsAboveBody(src.tree, succ, h, s, m);
    }
  }

  // ---- the converted blocks ----

  function RenamedTerminator(r: Renaming, b: Block): Terminator {
    var t := ResolveTerminator(r.aliases, b.terminator);
    if t.ForNext? && b.id in r.loops then t.(result := Some(r.loops[b.id])) else t
  }

  /** `code` creates each undefined value once, in the entry block. */
  ghost predicate CreatesUndefined(src: Source, r: Renaming, b: BlockId, code: seq<Instruction>) {
    && (forall k :: 0 <= k < |code| ==>
      code[k].Undefined? && code[k].name in r.undefined && code[k].result == r.undefined[code[k].name])
    && (if b == src.code.entry then forall x :: x in r.undefined ==>
      Undefined(r.undefined[x], x) in code else code == [])
    && (forall j, k :: 0 <= j < k < |code| ==> code[j] != code[k])
  }

  /** The operand for a predecessor is what its stacks held at its end. */
  ghost predicate ListsOne(src: Source, r: Renaming, s: BlockId, x: string, one: (Value, BlockId)) {
    one.1 in r.tops && one.1 in src.blocks && s in Successors(src.blocks[one.1]) && Top(r.undefined, r.tops[one.1], x)
      == Some(one.0)
  }

  /** A phi lists each predecessor once for each edge, with its operand. */
  ghost predicate ListsPredecessors(src: Source, r: Renaming, b: BlockId, x: string, incoming: seq<(Value, BlockId)>) {
    && Sources(incoming) == PredecessorsIn(src.code.blocks, src.blocks.Keys, b)
    && (forall j :: 0 <= j < |incoming| ==> ListsOne(src, r, b, x, incoming[j]))
    && forall p :: p in src.blocks && b in Successors(src.blocks[p]) ==>
      From(incoming, p).Some? && p in r.tops && Top(r.undefined, r.tops[p], x) == From(incoming, p)
  }

  ghost predicate IsPhiOf(src: Source, r: Renaming, b: BlockId, i: Instruction) {
    && i.Phi? && b in r.phis && i.name in r.phis[b] && i.result == r.phis[b][i.name]
    && ListsPredecessors(src, r, b, i.name, i.incoming)
  }

  ghost predicate HasPhis(src: Source, r: Renaming, b: BlockId, code: seq<Instruction>) {
    && (forall k :: 0 <= k < |code| ==> IsPhiOf(src, r, b, code[k]))
    && (b in r.phis ==> forall x :: x in r.phis[b] ==> exists k :: 0 <= k < |code| && code[k].Phi? && code[k].name == x)
    && (forall j, k :: 0 <= j < k < |code| && code[j].Phi? && code[k].Phi? ==> code[j].name != code[k].name)
  }

  ghost predicate Parts(src: Source, r: Renaming, b: BlockId, code: seq<Instruction>, undefined: seq<Instruction>,
      phis: seq<Instruction>)
    requires b in src.blocks
  {
    && code == undefined + phis + Kept(r.aliases, src.blocks[b].instructions)
    && CreatesUndefined(src, r, b, undefined)
    && HasPhis(src, r, b, phis)
  }

  ghost predicate IsConvertedBlock(src: Source, r: Renaming, b: BlockId, c: Block)
    requires b in src.blocks
  {
    && c.id == b && c.exceptionTargets == src.blocks[b].exceptionTargets
    && c.terminator == RenamedTerminator(r, src.blocks[b])
    && exists undefined, phis :: Parts(src, r, b, c.instructions, undefined, phis)
  }

  /** `out` is the function the renaming makes of the source. */
  ghost predicate IsConverted(src: Source, r: Renaming, out: Function) {
    && out.parameters == src.code.parameters && out.entry == src.code.entry
    && DistinctIds(out.blocks) && Ids(out.blocks) == KeptIds(src.code.blocks, src.blocks.Keys)
    && (forall b :: Find(out.blocks, b).Some? <==> b in src.blocks)
    && (forall b :: b in src.blocks && Find(out.blocks, b).Some? ==>
      IsConvertedBlock(src, r, b, Find(out.blocks, b).value))
  }

  // ---- reading phis, creating undefined values ----

  lemma DoAllJoin<V, W>(sem: Semantics<V, W>, a: seq<Instruction>, b: seq<Instruction>, s: State<V, W>)
    ensures DoAll(sem, a + b, s) == DoAll(sem, b, DoAll(sem, a, s))
  {
    if b == [] {
      assert a + b == a;
    } else {
      assert (a + b)[..|a + b| - 1] == a + b[..|b| - 1];
      DoAllJoin(sem, a, b[..|b| - 1], s);
    }
  }

  lemma DoPhis<V, W>(sem: Semantics<V, W>, code: seq<Instruction>, s: State<V, W>)
    requires forall k :: 0 <= k < |code| ==> code[k].Phi?
    ensures DoAll(sem, code, s) == s
  {
  }

  lemma DoUndefined<V, W>(sem: Semantics<V, W>, src: Source, r: Renaming, code: seq<Instruction>, s: State<V, W>)
    requires forall k :: 0 <= k < |code| ==>
      code[k].Undefined? && code[k].name in r.undefined && code[k].result == r.undefined[code[k].name]
    requires forall x, y :: x in r.undefined && y in r.undefined && r.undefined[x] == r.undefined[y] ==> x == y
    ensures var s' := DoAll(sem, code, s);
      && s' == s.(env := s'.env)
      && (forall v :: v !in r.undefined.Values ==> Get(sem, s'.env, v) == Get(sem, s.env, v))
      && (forall x :: x in r.undefined && Undefined(r.undefined[x], x) in code ==>
        Get(sem, s'.env, r.undefined[x]) == sem.undefined(x))
  {
    if code != [] {
      var rest, last := code[..|code| - 1], code[|code| - 1];
      DoUndefined(sem, src, r, rest, s);
      assert r.undefined[last.name] in r.undefined.Values;
      assert code == rest + [last];
    }
  }

  /** The phi of `b` for `x` holds what `p` left for `x`. */
  ghost predicate HasRead<V, W>(sem: Semantics<V, W>, r: Renaming, b: BlockId, p: BlockId, x: string,
      before: map<Value, V>, env: map<Value, V>)
    requires b in r.phis && x in r.phis[b] && p in r.tops
  {
    var u := Top(r.undefined, r.tops[p], x);
    u.Some? && Get(sem, env, r.phis[b][x]) == Get(sem, before, u.value)
  }

  ghost predicate HasPhi(code: seq<Instruction>, x: string) {
    exists k :: 0 <= k < |code| && code[k].Phi? && code[k].name == x
  }

  /** Entering from `p` gives each phi what `p` left for its local, and changes nothing else. */
  lemma {:induction false} PhisRead<V, W>(sem: Semantics<V, W>, src: Source, r: Renaming, b: BlockId, p: BlockId,
      code: seq<Instruction>, before: map<Value, V>, env: map<Value, V>)
    requires p in src.blocks && b in Successors(src.blocks[p]) && p in r.tops && b in r.phis
    requires forall k :: 0 <= k < |code| && code[k].Phi? ==> IsPhiOf(src, r, b, code[k])
    requires forall x, y :: x in r.phis[b] && y in r.phis[b] && r.phis[b][x] == r.phis[b][y] ==> x == y
    ensures var env' := ReadPhis(sem, code, p, before, env);
      && (forall v :: v !in r.phis[b].Values ==> Get(sem, env', v) == Get(sem, env, v))
      && (forall x :: x in r.phis[b] && (HasPhi(code, x) || HasRead(sem, r, b, p, x, before, env)) ==>
        HasRead(sem, r, b, p, x, before, env'))
    decreases |code|
  {
    if code != [] {
      var i := code[0];
      var v := if i.Phi? then From(i.incoming, p) else None;
      var env1 := if v.Some? then env[i.result := Get(sem, before, v.value)] else env;
      assert i.Phi? ==> IsPhiOf(src, r, b, i);
      PhisRead(sem, src, r, b, p, code[1..], before, env1);
      forall x | x in r.phis[b] && HasPhi(code, x) ensures HasPhi(code[1..], x) || (i.Phi? && i.name == x) {
        var k :| 0 <= k < |code| && code[k].Phi? && code[k].name == x;
        if k > 0 { assert code[1..][k - 1] == code[k]; }
      }
    }
  }

  lemma NoPhisRead<V, W>(sem: Semantics<V, W>, code: seq<Instruction>, p: BlockId, before: map<Value, V>,
      env: map<Value, V>)
    requires forall k :: 0 <= k < |code| ==> !code[k].Phi?
    ensures ReadPhis(sem, code, p, before, env) == env
    decreases |code|
  {
    if code != [] {
      NoPhisRead(sem, code[1..], p, before, env);
    }
  }

  // ---- one step of both runs ----

  /** What is known of one block. */
  lemma BlockFacts(src: Source, r: Renaming, base: Value, site: map<Value, Site>, b: BlockId)
    requires Ready(src, r, base, site) && b in src.blocks
    ensures TreeOf(src) && BlockOk(src, b) && BlockRenamed(src, r, b) && UsesDefinedIn(src, b)
    ensures src.live.Keys == src.blocks.Keys && LiveFlowsAt(src, b)
    ensures src.blocks[b].terminator.ForNext? ==>
      HeaderOk(src, b) && src.blocks[b].terminator.body in src.loopOf && BodyOk(src, src.blocks[b].terminator.body)
  {
    hide DominatorTree.Of, BlockOk, BlockRenamed, UsesDefinedIn, LiveFlowsAt;
    assert BlockOk(src, b) && BlockRenamed(src, r, b) && UsesDefinedIn(src, b) && LiveFlowsAt(src, b);
    if src.blocks[b].terminator.ForNext? {
      assert HeaderOk(src, b) && BodyOk(src, src.blocks[b].terminator.body);
    }
  }

  lemma ConvertedFacts(src: Source, r: Renaming, out: Function, b: BlockId)
    requires IsConverted(src, r, out) && b in src.blocks
    ensures Find(out.blocks, b).Some? && IsConvertedBlock(src, r, b, Find(out.blocks, b).value)
  {
  }

  /** What holds when both runs are at the end of block `b`. */
  ghost predicate AgreeAt<V, W>(sem: Semantics<V, W>, src: Source, r: Renaming, b: BlockId, py: State<V, W>,
      ssa: State<V, W>) {
    && TreeOf(src) && src.live.Keys == src.blocks.Keys && b in src.blocks && b in r.tops
    && Agree(sem, r, ScopeOut(src, b), r.tops[b], LiveOut(src, b), py, ssa)
  }

  /** Once a block is entered, both forms of it are run to its end. */
  lemma BlockAgrees<V, W>(sem: Semantics<V, W>, src: Source, r: Renaming, b: BlockId, py: State<V, W>, ssa: State<V, W>)
    requires TreeOf(src) && src.live.Keys == src.blocks.Keys && b in src.blocks && BlockRenamed(src, r, b)
    requires AllFit(r, ScopeIn(src, b), DefinedOnEntry(src, r, b), TopsOnEntry(src, r, b), src.blocks[b].instructions)
    requires Agree(sem, r, ScopeIn(src, b), TopsOnEntry(src, r, b),
      LiveBefore(src.blocks[b].instructions, LiveOut(src, b)), py, ssa)
    ensures AgreeAt(sem, src, r, b, DoAll(sem, src.blocks[b].instructions, py),
      DoAll(sem, Kept(r.aliases, src.blocks[b].instructions), ssa))
  {
    var code := src.blocks[b].instructions;
    PrefixAgrees(sem, r, ScopeIn(src, b), DefinedOnEntry(src, r, b), TopsOnEntry(src, r, b), code, LiveOut(src, b),
      |code|, py, ssa);
    assert code[..|code|] == code && code[|code|..] == [];
  }

  /** The values the target may refer to are not its phis. */
  lemma EntryKeeps(src: Source, r: Renaming, base: Value, site: map<Value, Site>, s: BlockId)
    requires Lowered(src) && TreeOf(src) && Fresh(src, r, base, site) && s in src.blocks
    ensures DefinedIn(src, r, s) !! PhiValues(r, s)
  {
    forall v | v in PhiValues(r, s) ensures v !in DefinedIn(src, r, s) {
      DefinesHome(src, r, base, site, s, v);
      NewHere(src, r, base, site, s, v);
    }
  }

  /** What may be referred to where an edge arrives. */
  lemma EntrySets(src: Source, r: Renaming, base: Value, site: map<Value, Site>, b: BlockId, s: BlockId)
    requires Ready(src, r, base, site) && b in src.blocks && s in src.blocks && s in Successors(src.blocks[b])
    ensures s != src.tree.root && ScopeIn(src, s) <= ScopeOut(src, b)
    ensures Scoped(r, ScopeIn(src, s), DefinedIn(src, r, s), TopsIn(src, r.tops, s))
    ensures DefinedIn(src, r, s) !! PhiValues(r, s)
  {
    assert BlockOk(src, b);
    EdgeInTree(src.tree, SuccessorTable(src.code.blocks), b, s);
    var top := Parent(src, s);
    ScopeGrows(src, top, b);
    ScopedOut(src, r, base, site, top);
    EntryKeeps(src, r, base, site, s);
  }

  /** What the edge from `b` to `s` hands on: the values of `b`'s end, the locals live in `s`,
      and the item when the edge enters a loop body. */
  ghost predicate HandsOn<V, W>(sem: Semantics<V, W>, src: Source, r: Renaming, b: BlockId, s: BlockId, py: State<V, W>,
      ssa: State<V, W>)
    requires TreeOf(src) && b in src.blocks && b in r.tops && s in src.blocks && src.live.Keys == src.blocks.Keys
  {
    && py.world == ssa.world && py.trace == ssa.trace
    && (forall v :: v in ScopeOut(src, b) ==> Get(sem, py.env, v) == Get(sem, ssa.env, Resolve(r.aliases, v)))
    && (forall x :: x in src.live[s] && x !in LoopName(src, s) ==>
      Local(sem, py.locals, x) == TopValue(sem, r.undefined, r.tops[b], ssa.env, x))
    && (s in src.loopOf ==> src.loopOf[s].1 in r.loops
                            && Local(sem, py.locals, src.loopOf[s].0) == Get(sem, ssa.env, r.loops[src.loopOf[s].1]))
  }

  lemma ScopeHandedOn<V, W>(sem: Semantics<V, W>, src: Source, r: Renaming, b: BlockId, s: BlockId, py: State<V, W>,
      ssa: State<V, W>, env: map<Value, V>)
    requires TreeOf(src) && b in src.blocks && b in r.tops && s in src.blocks && src.live.Keys == src.blocks.Keys
    requires ScopeIn(src, s) <= ScopeOut(src, b)
    requires Scoped(r, ScopeIn(src, s), DefinedIn(src, r, s), TopsIn(src, r.tops, s))
      && DefinedIn(src, r, s) !! PhiValues(r, s)
    requires HandsOn(sem, src, r, b, s, py, ssa)
    requires forall v :: v !in PhiValues(r, s) ==> Get(sem, env, v) == Get(sem, ssa.env, v)
    ensures forall v :: v in ScopeIn(src, s) ==> Get(sem, py.env, v) == Get(sem, env, Resolve(r.aliases, v))
  {
  }

  /** A live local that gets no phi keeps its value. */
  lemma LocalKept<V, W>(sem: Semantics<V, W>, src: Source, r: Renaming, b: BlockId, s: BlockId, py: State<V, W>,
      ssa: State<V, W>, env: map<Value, V>, x: string)
    requires TreeOf(src) && b in src.blocks && b in r.tops && s in src.blocks && s != src.tree.root
      && src.live.Keys == src.blocks.Keys
    requires Scoped(r, ScopeIn(src, s), DefinedIn(src, r, s), TopsIn(src, r.tops, s))
      && DefinedIn(src, r, s) !! PhiValues(r, s)
    requires HandsOn(sem, src, r, b, s, py, ssa)
    requires forall v :: v !in PhiValues(r, s) ==> Get(sem, env, v) == Get(sem, ssa.env, v)
    requires x in src.live[s] && x !in LoopName(src, s) && !(s in r.phis && x in r.phis[s])
    requires Parent(src, s) in r.tops && Top(r.undefined, r.tops[b], x) == Top(r.undefined, r.tops[Parent(src, s)], x)
    ensures Local(sem, py.locals, x) == TopValue(sem, r.undefined, TopsOnEntry(src, r, s), env, x)
  {
    if x !in TopsIn(src, r.tops, s) && x in r.undefined {
      assert r.undefined[x] in r.undefined.Values;
    }
  }

  /** The loop variable holds the item. */
  lemma ItemHandedOn<V, W>(sem: Semantics<V, W>, src: Source, r: Renaming, base: Value, site: map<Value, Site>,
      b: BlockId, s: BlockId, py: State<V, W>, ssa: State<V, W>, env: map<Value, V>)
    requires TreeOf(src) && b in src.blocks && b in r.tops && s in src.blocks && src.live.Keys == src.blocks.Keys
    requires Fresh(src, r, base, site) && HandsOn(sem, src, r, b, s, py, ssa)
    requires forall v :: v !in PhiValues(r, s) ==> Get(sem, env, v) == Get(sem, ssa.env, v)
    requires s in src.loopOf && !(s in r.phis && src.loopOf[s].0 in r.phis[s])
    ensures Local(sem, py.locals, src.loopOf[s].0) == TopValue(sem, r.undefined, TopsOnEntry(src, r, s), env,
      src.loopOf[s].0)
  {
  }

  /** A phi holds its local's value. */
  lemma PhiHandedOn<V, W>(sem: Semantics<V, W>, src: Source, r: Renaming, b: BlockId, s: BlockId, py: State<V, W>,
      ssa: State<V, W>, env: map<Value, V>, x: string)
    requires TreeOf(src) && b in src.blocks && b in r.tops && s in src.blocks && src.live.Keys == src.blocks.Keys
    requires HandsOn(sem, src, r, b, s, py, ssa) && x in src.live[s] && x !in LoopName(src, s)
    requires s in r.phis && x in r.phis[s] && HasRead(sem, r, s, b, x, ssa.env, env)
    ensures Local(sem, py.locals, x) == TopValue(sem, r.undefined, TopsOnEntry(src, r, s), env, x)
  {
  }

  /** Phis stand for locals live there, and never in a loop body for its variable. */
  lemma PhiPlace(src: Source, r: Renaming, s: BlockId, x: string)
    requires Lowered(src) && TreeOf(src) && src.live.Keys == src.blocks.Keys && PhisPlaced(src, r)
    requires s in src.blocks && s in r.phis && x in r.phis[s]
    ensures x in src.live[s] && x !in LoopName(src, s)
  {
    assert InIteratedFrontier(src.tree.frontier, Assigners(src, x), s);
    var c :| FrontierChain(src.tree.frontier, Assigners(src, x), c) && |c| > 1 && c[|c| - 1] == s;
    assert c[|c| - 2 + 1] in src.tree.frontier[c[|c| - 2]];
    if s in src.loopOf {
      BodyBelowHeader(src, s);
    }
  }

  lemma PhisOfConverted(src: Source, r: Renaming, s: BlockId, code: seq<Instruction>)
    requires s in src.blocks && exists u, ps :: Parts(src, r, s, code, u, ps)
    ensures forall k :: 0 <= k < |code| && code[k].Phi? ==> IsPhiOf(src, r, s, code[k])
    ensures s in r.phis ==> forall x :: x in r.phis[s] ==> HasPhi(code, x)
  {
    hide ListsPredecessors;
    var u: seq<Instruction>, ps: seq<Instruction> :| Parts(src, r, s, code, u, ps);
    var kept := Kept(r.aliases, src.blocks[s].instructions);
    forall k | 0 <= k < |kept| ensures kept[k].Operation? {
      KeptIsOperations(r.aliases, src.blocks[s].instructions, k);
    }
    PhisAmong(src, r, s, u, ps, kept);
  }

  lemma PhisAmong(src: Source, r: Renaming, s: BlockId, u: seq<Instruction>, ps: seq<Instruction>,
      kept: seq<Instruction>)
    requires forall k :: 0 <= k < |u| ==> u[k].Undefined?
    requires HasPhis(src, r, s, ps)
    requires forall k :: 0 <= k < |kept| ==> kept[k].Operation?
    ensures forall k :: 0 <= k < |u + ps + kept| && (u + ps + kept)[k].Phi? ==> IsPhiOf(src, r, s, (u + ps + kept)[k])
    ensures s in r.phis ==> forall x :: x in r.phis[s] ==> HasPhi(u + ps + kept, x)
  {
    hide ListsPredecessors;
    var code := u + ps + kept;
    if s in r.phis {
      forall x | x in r.phis[s] ensures HasPhi(code, x) {
        var k :| 0 <= k < |ps| && ps[k].Phi? && ps[k].name == x;
        assert code[|u| + k] == ps[k];
      }
    }
  }

  lemma MadeApart(src: Source, r: Renaming, base: Value, site: map<Value, Site>, s: BlockId)
    requires Fresh(src, r, base, site)
    ensures forall x, y :: x in r.undefined && y in r.undefined && r.undefined[x] == r.undefined[y] ==> x == y
    ensures s in r.phis ==> forall x, y :: x in r.phis[s] && y in r.phis[s] && r.phis[s][x] == r.phis[s][y] ==> x == y
  {
  }

  /** Reading the phis of a converted block. */
  lemma ConvertedPhisRead<V, W>(sem: Semantics<V, W>, src: Source, r: Renaming, base: Value, site: map<Value, Site>,
      b: BlockId, s: BlockId, code: seq<Instruction>, before: map<Value, V>)
    requires Fresh(src, r, base, site) && s in src.blocks && b in src.blocks && s in Successors(src.blocks[b])
      && b in r.tops
    requires exists u, ps :: Parts(src, r, s, code, u, ps)
    ensures var env := ReadPhis(sem, code, b, before, before);
      && (forall v :: v !in PhiValues(r, s) ==> Get(sem, env, v) == Get(sem, before, v))
      && (s in r.phis ==> forall x :: x in r.phis[s] ==> HasRead(sem, r, s, b, x, before, env))
  {
    PhisOfConverted(src, r, s, code);
    if s in r.phis {
      MadeApart(src, r, base, site, s);
      PhisRead(sem, src, r, s, b, code, before, before);
    } else {
      NoPhisRead(sem, code, b, before, before);
    }
  }

  lemma KeptIsOperations(aliases: map<Value, Value>, code: seq<Instruction>, k: nat)
    requires k < |Kept(aliases, code)|
    ensures Kept(aliases, code)[k].Operation?
  {
    if k < |Kept(aliases, code[..|code| - 1])| {
      KeptIsOperations(aliases, code[..|code| - 1], k);
    }
  }

  /** Past its phis, a converted block that is not the entry runs what is kept. */
  lemma ConvertedRuns<V, W>(sem: Semantics<V, W>, src: Source, r: Renaming, s: BlockId, code: seq<Instruction>,
      state: State<V, W>)
    requires s in src.blocks && s != src.code.entry
    requires exists u, ps :: Parts(src, r, s, code, u, ps)
    ensures DoAll(sem, code, state) == DoAll(sem, Kept(r.aliases, src.blocks[s].instructions), state)
  {
    hide ListsPredecessors;
    var u: seq<Instruction>, ps: seq<Instruction> :| Parts(src, r, s, code, u, ps);
    var kept := Kept(r.aliases, src.blocks[s].instructions);
    assert code == ps + kept;
    DoAllJoin(sem, ps, kept, state);
    DoPhis(sem, ps, state);
  }

  /** Both runs, arriving over an edge with the same values, agree at the end of its target. */
  lemma ArrivesAgreeing<V, W>(sem: Semantics<V, W>, src: Source, r: Renaming, base: Value, site: map<Value, Site>,
      b: BlockId, s: BlockId, py: State<V, W>, ssa: State<V, W>, env: map<Value, V>)
    requires Ready(src, r, base, site) && b in src.blocks && b in r.tops && s in src.blocks
      && s in Successors(src.blocks[b])
    requires HandsOn(sem, src, r, b, s, py, ssa)
    requires forall v :: v !in PhiValues(r, s) ==> Get(sem, env, v) == Get(sem, ssa.env, v)
    requires s in r.phis ==> forall x :: x in r.phis[s] ==> HasRead(sem, r, s, b, x, ssa.env, env)
    ensures Agree(sem, r, ScopeIn(src, s), TopsOnEntry(src, r, s),
      LiveBefore(src.blocks[s].instructions, LiveOut(src, s)), py, ssa.(env := env))
  {
    hide BlocksAndTree, SingleDefinitions, UsesDefined, LoopsEntered, LiveFlows, AllRenamed, PhisPlaced, Fresh, BlockOk,
      BlockRenamed, UsesDefinedIn, HeaderOk, BodyOk, HandsOn, HasRead, Scoped, LiveBefore, LiveOut, Local, TopValue,
      TopsOnEntry, Successors;
    BlockFacts(src, r, base, site, s);
    EntrySets(src, r, base, site, b, s);
    ScopeHandedOn(sem, src, r, b, s, py, ssa, env);
    forall x | x in LiveBefore(src.blocks[s].instructions, LiveOut(src, s))
      ensures Local(sem, py.locals, x) == TopValue(sem, r.undefined, TopsOnEntry(src, r, s), env, x)
    {
      assert LiveFlowsAt(src, s);
      LocalHandedOn(sem, src, r, base, site, b, s, py, ssa, env, x);
    }
    HandedOutside(sem, src, r, b, s, py, ssa);
  }

  lemma HandedOutside<V, W>(sem: Semantics<V, W>, src: Source, r: Renaming, b: BlockId, s: BlockId, py: State<V, W>,
      ssa: State<V, W>)
    requires TreeOf(src) && b in src.blocks && b in r.tops && s in src.blocks && src.live.Keys == src.blocks.Keys
    requires HandsOn(sem, src, r, b, s, py, ssa)
    ensures py.world == ssa.world && py.trace == ssa.trace
  {
  }

  /** A local live where the edge arrives has its value there. */
  lemma LocalHandedOn<V, W>(sem: Semantics<V, W>, src: Source, r: Renaming, base: Value, site: map<Value, Site>,
      b: BlockId, s: BlockId, py: State<V, W>, ssa: State<V, W>, env: map<Value, V>, x: string)
    requires Ready(src, r, base, site) && b in src.blocks && b in r.tops && s in src.blocks
      && s in Successors(src.blocks[b])
    requires HandsOn(sem, src, r, b, s, py, ssa)
    requires forall v :: v !in PhiValues(r, s) ==> Get(sem, env, v) == Get(sem, ssa.env, v)
    requires s in r.phis ==> forall x :: x in r.phis[s] ==> HasRead(sem, r, s, b, x, ssa.env, env)
    requires x in src.live[s] || x in LoopName(src, s)
    ensures Local(sem, py.locals, x) == TopValue(sem, r.undefined, TopsOnEntry(src, r, s), env, x)
  {
    hide BlocksAndTree, SingleDefinitions, UsesDefined, LoopsEntered, LiveFlows, AllRenamed, PhisPlaced, Fresh, BlockOk,
      BlockRenamed, UsesDefinedIn, LiveFlowsAt, HeaderOk, BodyOk, HandsOn, HasRead, Scoped, Local, TopValue,
      TopsOnEntry, Successors;
    BlockFacts(src, r, base, site, s);
    EntrySets(src, r, base, site, b, s);
    if s in r.phis && x in r.phis[s] {
      PhiPlace(src, r, s, x);
      PhiHandedOn(sem, src, r, b, s, py, ssa, env, x);
    } else if x in LoopName(src, s) {
      ItemHandedOn(sem, src, r, base, site, b, s, py, ssa, env);
    } else {
      NoPhiSameTop(src, r, b, s, x);
      LocalKept(sem, src, r, b, s, py, ssa, env, x);
    }
  }

  ghost predicate AgreeConfigs<V, W>(sem: Semantics<V, W>, src: Source, r: Renaming, c: Config<V, W>, d: Config<V, W>) {
    match (c, d)
    case (At(b, s), At(b', s')) => b == b' && AgreeAt(sem, src, r, b, s, s')
    case (Over(s), Over(s')) => s.world == s'.world && s.trace == s'.trace
    case (Stuck, Stuck) => true
    case _ => false
  }

  lemma EnterAgrees<V, W>(sem: Semantics<V, W>, src: Source, r: Renaming, base: Value, site: map<Value, Site>,
      out: Function, b: BlockId, s: BlockId, py: State<V, W>, ssa: State<V, W>)
    requires Ready(src, r, base, site) && IsConverted(src, r, out)
    requires b in src.blocks && b in r.tops && s in src.blocks && s in Successors(src.blocks[b])
    requires HandsOn(sem, src, r, b, s, py, ssa)
    ensures AgreeConfigs(sem, src, r, Enter(sem, src.code, b, s, py), Enter(sem, out, b, s, ssa))
  {
    hide BlocksAndTree, SingleDefinitions, UsesDefined, LoopsEntered, LiveFlows, AllRenamed, PhisPlaced, Fresh,
      IsConverted, HandsOn, HasRead, AllFit, Agree, AgreeAt;
    BlockFacts(src, r, base, site, s);
    BlockFacts(src, r, base, site, b);
    ConvertedFacts(src, r, out, s);
    var source, converted := src.blocks[s], Find(out.blocks, s).value;
    NoPhisRead(sem, source.instructions, b, py.env, py.env);
    ConvertedPhisRead(sem, src, r, base, site, b, s, converted.instructions, ssa.env);
    var env := ReadPhis(sem, converted.instructions, b, ssa.env, ssa.env);
    ArrivesAgreeing(sem, src, r, base, site, b, s, py, ssa, env);
    ScopedOut(src, r, base, site, s);
    BlockAgrees(sem, src, r, s, py, ssa.(env := env));
    ConvertedRuns(sem, src, r, s, converted.instructions, ssa.(env := env));
    assert py.(env := py.env) == py;
  }

  // ---- whole runs ----

  /** An edge that leaves the states as they are at the end of `b`. */
  lemma PlainEdge<V, W>(sem: Semantics<V, W>, src: Source, r: Renaming, base: Value, site: map<Value, Site>,
      out: Function, b: BlockId, s: BlockId, py: State<V, W>, ssa: State<V, W>)
    requires Ready(src, r, base, site) && IsConverted(src, r, out)
    requires AgreeAt(sem, src, r, b, py, ssa) && s in Successors(src.blocks[b]) && s !in src.loopOf
    ensures AgreeConfigs(sem, src, r, Enter(sem, src.code, b, s, py), Enter(sem, out, b, s, ssa))
  {
    hide BlocksAndTree, SingleDefinitions, UsesDefined, LoopsEntered, LiveFlows, AllRenamed, PhisPlaced, Fresh,
      IsConverted, Enter, AgreeConfigs, BlockOk, BlockRenamed, UsesDefinedIn, LiveFlowsAt, HeaderOk, BodyOk;
    SuccessorReachable(src, b, s);
    forall x | x in src.live[s] ensures x in LiveOut(src, b) {
    }
    EnterAgrees(sem, src, r, base, site, out, b, s, py, ssa);
  }

  lemma SuccessorReachable(src: Source, b: BlockId, s: BlockId)
    requires Lowered(src) && TreeOf(src) && b in src.blocks && s in Successors(src.blocks[b])
    ensures s in src.blocks
  {
    assert BlockOk(src, b);
    EdgeInTree(src.tree, SuccessorTable(src.code.blocks), b, s);
  }

  /** A block that is not a header for `s` leads to no loop body `s`. */
  lemma NoBody(src: Source, b: BlockId, s: BlockId)
    requires LoopsEntered(src) && b in src.blocks && s in Successors(src.blocks[b])
    requires src.blocks[b].terminator.ForNext? ==> s != src.blocks[b].terminator.body
    ensures s !in src.loopOf
  {
    assert s in src.loopOf ==> BodyOk(src, s);
  }

  /** Taking the next item enters the body with the item in the loop variable. */
  lemma ItemEdge<V, W>(sem: Semantics<V, W>, src: Source, r: Renaming, base: Value, site: map<Value, Site>,
      out: Function, b: BlockId, py: State<V, W>, ssa: State<V, W>, item: V)
    requires Ready(src, r, base, site) && IsConverted(src, r, out)
    requires AgreeAt(sem, src, r, b, py, ssa) && src.blocks[b].terminator.ForNext? && b in r.loops
    ensures var t := src.blocks[b].terminator;
      AgreeConfigs(sem, src, r, Enter(sem, src.code, b, t.body, py.(locals := py.locals[t.name := item])),
                   Enter(sem, out, b, t.body, ssa.(env := ssa.env[r.loops[b] := item])))
  {
    hide BlocksAndTree, SingleDefinitions, UsesDefined, LoopsEntered, LiveFlows, AllRenamed, PhisPlaced, Fresh,
      IsConverted, Enter, AgreeConfigs, Agree, BlockOk, BlockRenamed, UsesDefinedIn, LiveFlowsAt, HandsOn;
    var t := src.blocks[b].terminator;
    BlockFacts(src, r, base, site, b);
    assert t.body in Successors(src.blocks[b]);
    SuccessorReachable(src, b, t.body);
    ItemIsNew(src, r, base, site, b);
    ScopedOut(src, r, base, site, b);
    ItemHandsOn(sem, src, r, b, t.body, py, ssa, item);
    EnterAgrees(sem, src, r, base, site, out, b, t.body, py.(locals := py.locals[t.name := item]),
      ssa.(env := ssa.env[r.loops[b] := item]));
  }

  lemma ItemHandsOn<V, W>(sem: Semantics<V, W>, src: Source, r: Renaming, b: BlockId, s: BlockId, py: State<V, W>,
      ssa: State<V, W>, item: V)
    requires AgreeAt(sem, src, r, b, py, ssa) && b in r.loops && s in src.blocks && s in Successors(src.blocks[b])
    requires Scoped(r, ScopeOut(src, b), DefinedOut(src, r, b), r.tops[b]) && r.loops[b] !in DefinedOut(src, r, b)
    requires s in src.loopOf && src.loopOf[s].1 == b
    ensures HandsOn(sem, src, r, b, s, py.(locals := py.locals[src.loopOf[s].0 := item]),
      ssa.(env := ssa.env[r.loops[b] := item]))
  {
    hide ScopeOut, DefinedOut;
    var py', ssa' := py.(locals := py.locals[src.loopOf[s].0 := item]), ssa.(env := ssa.env[r.loops[b] := item]);
    forall x | x in src.live[s] && x !in LoopName(src, s)
      ensures Local(sem, py'.locals, x) == TopValue(sem, r.undefined, r.tops[b], ssa'.env, x) {
      assert x in LiveOut(src, b);
      if x !in r.tops[b] && x in r.undefined {
        assert r.undefined[x] in r.undefined.Values;
      }
    }
  }

  /** What a loop header makes for its body is not defined before. */
  lemma ItemIsNew(src: Source, r: Renaming, base: Value, site: map<Value, Site>, h: BlockId)
    requires Ready(src, r, base, site) && h in src.blocks && src.blocks[h].terminator.ForNext? && h in r.loops
    ensures r.loops[h] !in DefinedOut(src, r, h)
  {
    hide BlocksAndTree, SingleDefinitions, UsesDefined, LiveFlows, AllRenamed, PhisPlaced;
    ItemHome(src, r, base, site, h);
    var s := src.blocks[h].terminator.body;
    hide Lowered, Fresh, Home, DefinedOut;
    BodyBelowHeader(src, s);
    NewHere(src, r, base, site, s, r.loops[h]);
    assert DefinedIn(src, r, s) == DefinedOut(src, r, h);
  }

  /** The item of a loop has its home in the body of the loop. */
  lemma ItemHome(src: Source, r: Renaming, base: Value, site: map<Value, Site>, h: BlockId)
    requires Lowered(src) && TreeOf(src) && Fresh(src, r, base, site)
    requires h in src.blocks && src.blocks[h].terminator.ForNext? && h in r.loops
    ensures var s := src.blocks[h].terminator.body;
      && s in src.blocks && s in src.loopOf && src.loopOf[s].1 == h && Home(src, base, site, r.loops[h], s)
  {
    hide BlocksAndTree, SingleDefinitions, UsesDefined;
    HeaderBody(src, h);
    hide Lowered, TreeOf;
  }

  lemma HeaderBody(src: Source, h: BlockId)
    requires Lowered(src) && TreeOf(src) && h in src.blocks && src.blocks[h].terminator.ForNext?
    ensures var s := src.blocks[h].terminator.body; s in src.blocks && s in src.loopOf && src.loopOf[s].1 == h
  {
    hide BlocksAndTree, SingleDefinitions, UsesDefined;
    assert HeaderOk(src, h);
    var s := src.blocks[h].terminator.body;
    assert BodyOk(src, s);
    hide LoopsEntered, Successors, TreeOf;
    SuccessorReachable(src, h, s);
  }

  lemma ReadsAgree<V, W>(sem: Semantics<V, W>, src: Source, r: Renaming, b: BlockId, py: State<V, W>, ssa: State<V, W>)
    requires Lowered(src) && AgreeAt(sem, src, r, b, py, ssa)
    ensures py.world == ssa.world && py.trace == ssa.trace
    ensures forall v :: v in Reads(src.blocks[b].terminator) ==>
      Get(sem, py.env, v) == Get(sem, ssa.env, Resolve(r.aliases, v))
  {
    hide SingleDefinitions, LoopsEntered, BlocksAndTree, TreeOf, MadeBefore, Produced, ScopeIn;
    var code := src.blocks[b].instructions;
    assert code[..|code|] == code;
    assert UsesDefinedIn(src, b);
    forall v | v in Reads(src.blocks[b].terminator) ensures v in ScopeOut(src, b) {
      MadeInScope(src, b, |code|, v);
    }
  }

  /** Logging and a change of the world keep the states in agreement. */
  lemma LoggedAgrees<V, W>(sem: Semantics<V, W>, src: Source, r: Renaming, b: BlockId, py: State<V, W>,
      ssa: State<V, W>, w: W, event: Event<V>)
    requires AgreeAt(sem, src, r, b, py, ssa)
    ensures AgreeAt(sem, src, r, b, py.(world := w, trace := py.trace + [event]),
      ssa.(world := w, trace := ssa.trace + [event]))
  {
  }

  /** Leaving along an edge that depends on the values read only. */
  lemma LeavePlain<V, W>(sem: Semantics<V, W>, src: Source, r: Renaming, base: Value, site: map<Value, Site>,
      out: Function, b: BlockId, s: BlockId, py: State<V, W>, ssa: State<V, W>, w: W, event: Event<V>)
    requires Ready(src, r, base, site) && IsConverted(src, r, out)
    requires AgreeAt(sem, src, r, b, py, ssa) && s in Successors(src.blocks[b]) && s !in src.loopOf
    ensures AgreeConfigs(sem, src, r, Enter(sem, src.code, b, s, py.(world := w, trace := py.trace + [event])),
                         Enter(sem, out, b, s, ssa.(world := w, trace := ssa.trace + [event])))
  {
    hide Ready, IsConverted, AgreeAt, AgreeConfigs, Enter;
    LoggedAgrees(sem, src, r, b, py, ssa, w, event);
    PlainEdge(sem, src, r, base, site, out, b, s, py.(world := w, trace := py.trace + [event]),
      ssa.(world := w, trace := ssa.trace + [event]));
  }

  /** Leaving a loop header, with an item or without. */
  lemma LeaveLoop<V, W>(sem: Semantics<V, W>, src: Source, r: Renaming, base: Value, site: map<Value, Site>,
      out: Function, b: BlockId, py: State<V, W>, ssa: State<V, W>)
    requires Ready(src, r, base, site) && IsConverted(src, r, out)
    requires AgreeAt(sem, src, r, b, py, ssa) && Find(out.blocks, b).Some? && src.blocks[b].terminator.ForNext?
    ensures AgreeConfigs(sem, src, r, Leave(sem, src.code, src.blocks[b], py),
      Leave(sem, out, Find(out.blocks, b).value, ssa))
  {
    hide BlocksAndTree, SingleDefinitions, UsesDefined, LoopsEntered, LiveFlows, AllRenamed, PhisPlaced, Fresh,
      IsConverted, Enter, Agree, UsesDefinedIn, LiveFlowsAt, BodyOk;
    BlockFacts(src, r, base, site, b);
    ConvertedFacts(src, r, out, b);
    ReadsAgree(sem, src, r, b, py, ssa);
    var t := src.blocks[b].terminator;
    assert t.iterated in Reads(t);
    var x := Get(sem, py.env, t.iterated);
    var (item, w) := sem.next(x, py.world);
    if item.None? {
      NoBody(src, b, t.exit);
      LeavePlain(sem, src, r, base, site, out, b, t.exit, py, ssa, w, Left([x]));
    } else {
      LoggedAgrees(sem, src, r, b, py, ssa, w, Left([x]));
      ItemEdge(sem, src, r, base, site, out, b, py.(world := w, trace := py.trace + [Left([x])]),
        ssa.(world := w, trace := ssa.trace + [Left([x])]), item.value);
    }
  }

  lemma LeaveBranch<V, W>(sem: Semantics<V, W>, src: Source, r: Renaming, base: Value, site: map<Value, Site>,
      out: Function, b: BlockId, py: State<V, W>, ssa: State<V, W>)
    requires Ready(src, r, base, site) && IsConverted(src, r, out)
    requires AgreeAt(sem, src, r, b, py, ssa) && Find(out.blocks, b).Some? && src.blocks[b].terminator.Branch?
    ensures AgreeConfigs(sem, src, r, Leave(sem, src.code, src.blocks[b], py),
      Leave(sem, out, Find(out.blocks, b).value, ssa))
  {
    hide BlocksAndTree, SingleDefinitions, UsesDefined, LoopsEntered, LiveFlows, AllRenamed, PhisPlaced, Fresh,
      IsConverted, Enter, Agree, UsesDefinedIn, LiveFlowsAt, BodyOk;
    BlockFacts(src, r, base, site, b);
    ConvertedFacts(src, r, out, b);
    ReadsAgree(sem, src, r, b, py, ssa);
    var t := src.blocks[b].terminator;
    var x := Get(sem, py.env, t.condition);
    assert t.condition in Reads(t);
    var s := if sem.truth(x) then t.thenBlock else t.elseBlock;
    NoBody(src, b, s);
    LeavePlain(sem, src, r, base, site, out, b, s, py, ssa, py.world, Left([x]));
  }

  lemma LeaveEnd<V, W>(sem: Semantics<V, W>, src: Source, r: Renaming, base: Value, site: map<Value, Site>,
      out: Function, b: BlockId, py: State<V, W>, ssa: State<V, W>)
    requires Ready(src, r, base, site) && IsConverted(src, r, out)
    requires AgreeAt(sem, src, r, b, py, ssa) && Find(out.blocks, b).Some?
      && (src.blocks[b].terminator.Return? || src.blocks[b].terminator.Raise?)
    ensures AgreeConfigs(sem, src, r, Leave(sem, src.code, src.blocks[b], py),
      Leave(sem, out, Find(out.blocks, b).value, ssa))
  {
    hide BlocksAndTree, SingleDefinitions, UsesDefined, LoopsEntered, LiveFlows, AllRenamed, PhisPlaced, Fresh,
      IsConverted, Enter, Agree, UsesDefinedIn, LiveFlowsAt, BodyOk;
    BlockFacts(src, r, base, site, b);
    ConvertedFacts(src, r, out, b);
    ReadsAgree(sem, src, r, b, py, ssa);
    hide Find, AgreeAt, BlockOk, HeaderOk, Ready, TreeOf, Parts, GetAll, Get;
    SameReads(sem, py.env, ssa.env, r.aliases, Reads(src.blocks[b].terminator));
  }

  lemma LeaveJump<V, W>(sem: Semantics<V, W>, src: Source, r: Renaming, base: Value, site: map<Value, Site>,
      out: Function, b: BlockId, py: State<V, W>, ssa: State<V, W>)
    requires Ready(src, r, base, site) && IsConverted(src, r, out)
    requires AgreeAt(sem, src, r, b, py, ssa) && Find(out.blocks, b).Some? && src.blocks[b].terminator.Jump?
    ensures AgreeConfigs(sem, src, r, Leave(sem, src.code, src.blocks[b], py),
      Leave(sem, out, Find(out.blocks, b).value, ssa))
  {
    hide BlocksAndTree, SingleDefinitions, UsesDefined, LoopsEntered, LiveFlows, AllRenamed, PhisPlaced, Fresh,
      IsConverted, Enter, Agree, UsesDefinedIn, LiveFlowsAt, BodyOk;
    BlockFacts(src, r, base, site, b);
    ConvertedFacts(src, r, out, b);
    ReadsAgree(sem, src, r, b, py, ssa);
    NoBody(src, b, src.blocks[b].terminator.target);
    LeavePlain(sem, src, r, base, site, out, b, src.blocks[b].terminator.target, py, ssa, py.world, Left([]));
  }

  lemma LeaveAgrees<V, W>(sem: Semantics<V, W>, src: Source, r: Renaming, base: Value, site: map<Value, Site>,
      out: Function, b: BlockId, py: State<V, W>, ssa: State<V, W>)
    requires Ready(src, r, base, site) && IsConverted(src, r, out)
    requires AgreeAt(sem, src, r, b, py, ssa) && Find(out.blocks, b).Some?
    ensures AgreeConfigs(sem, src, r, Leave(sem, src.code, src.blocks[b], py),
      Leave(sem, out, Find(out.blocks, b).value, ssa))
  {
    hide Ready, IsConverted, AgreeConfigs, Leave, Find;
    match src.blocks[b].terminator {
      case Return(_) => LeaveEnd(sem, src, r, base, site, out, b, py, ssa);
      case Raise(_) => LeaveEnd(sem, src, r, base, site, out, b, py, ssa);
      case Jump(_) => LeaveJump(sem, src, r, base, site, out, b, py, ssa);
      case Branch(_, _, _) => LeaveBranch(sem, src, r, base, site, out, b, py, ssa);
      case ForNext(_, _, _, _, _) => LeaveLoop(sem, src, r, base, site, out, b, py, ssa);
    }
  }

  lemma MoveAgrees<V, W>(sem: Semantics<V, W>, src: Source, r: Renaming, base: Value, site: map<Value, Site>,
      out: Function, c: Config<V, W>, d: Config<V, W>, choice: Choice)
    requires Ready(src, r, base, site) && IsConverted(src, r, out)
    requires AgreeConfigs(sem, src, r, c, d)
    ensures AgreeConfigs(sem, src, r, Move(sem, src.code, c, choice), Move(sem, out, d, choice))
  {
    hide BlocksAndTree, SingleDefinitions, UsesDefined, LoopsEntered, LiveFlows, AllRenamed, PhisPlaced, Fresh,
      IsConverted, Enter, Leave, Agree, BlockRenamed, UsesDefinedIn, LiveFlowsAt, HeaderOk, BodyOk;
    if c.At? {
      var b := c.block;
      BlockFacts(src, r, base, site, b);
      ConvertedFacts(src, r, out, b);
      if choice.Follow? {
        LeaveAgrees(sem, src, r, base, site, out, b, c.state, d.state);
      } else if choice.handler in src.blocks[b].exceptionTargets {
        HandlerEdge(src, b, choice.handler);
        PlainEdge(sem, src, r, base, site, out, b, choice.handler, c.state, d.state);
      }
    }
  }

  /** A handler is a successor, and not the body of a loop. */
  lemma HandlerEdge(src: Source, b: BlockId, handler: BlockId)
    requires Lowered(src) && b in src.blocks && handler in src.blocks[b].exceptionTargets
    ensures handler in Successors(src.blocks[b]) && handler !in src.loopOf
  {
    if src.blocks[b].terminator.ForNext? {
      assert HeaderOk(src, b);
    }
    NoBody(src, b, handler);
  }

  /** What stands before the renamed code of a block leaves everything but the values of absent
      locals. */
  lemma HeadDoes<V, W>(sem: Semantics<V, W>, src: Source, r: Renaming, base: Value, site: map<Value, Site>,
      u: seq<Instruction>, ps: seq<Instruction>, s: State<V, W>)
    requires Fresh(src, r, base, site) && src.code.entry in src.blocks
    requires CreatesUndefined(src, r, src.code.entry, u) && HasPhis(src, r, src.code.entry, ps)
    ensures var s' := DoAll(sem, u + ps, s);
      && s' == s.(env := s'.env)
      && (forall v :: v !in r.undefined.Values ==> Get(sem, s'.env, v) == Get(sem, s.env, v))
      && (forall x :: x in r.undefined ==> Get(sem, s'.env, r.undefined[x]) == sem.undefined(x))
  {
    hide Fresh;
    MadeApart(src, r, base, site, src.code.entry);
    DoUndefined(sem, src, r, u, s);
    DoPhis(sem, ps, DoAll(sem, u, s));
    DoAllJoin(sem, u, ps, s);
  }

  lemma EntryRuns<V, W>(sem: Semantics<V, W>, src: Source, r: Renaming, base: Value, site: map<Value, Site>,
      code: seq<Instruction>, u: seq<Instruction>, ps: seq<Instruction>, arguments: map<Value, V>, w: W)
    requires Ready(src, r, base, site) && src.code.entry in src.blocks && Parts(src, r, src.code.entry, code, u, ps)
    ensures var s0 := State(arguments, map[], w, []);
      AgreeAt(sem, src, r, src.code.entry, DoAll(sem, src.blocks[src.code.entry].instructions, s0),
        DoAll(sem, code, s0))
  {
    var e := src.code.entry;
    var s0 := State(arguments, map[], w, []);
    assert BlockRenamed(src, r, e);
    hide CreatesUndefined, HasPhis, BlockRenamed, AgreeAt, AllFit, Agree, LiveFlows, PhisPlaced, BlocksAndTree,
      SingleDefinitions, UsesDefined, LoopsEntered, Fresh;
    HeadDoes(sem, src, r, base, site, u, ps, s0);
    var s1 := DoAll(sem, u + ps, s0);
    DoAllJoin(sem, u + ps, Kept(r.aliases, src.blocks[e].instructions), s0);
    EntryAgrees(sem, src, r, base, site, arguments, w, s1);
    ScopedOut(src, r, base, site, e);
    BlockAgrees(sem, src, r, e, s0, s1);
  }

  lemma StartAgrees<V, W>(sem: Semantics<V, W>, src: Source, r: Renaming, base: Value, site: map<Value, Site>,
      out: Function, arguments: map<Value, V>, w: W)
    requires Ready(src, r, base, site) && IsConverted(src, r, out)
    ensures AgreeConfigs(sem, src, r, Start(sem, src.code, arguments, w), Start(sem, out, arguments, w))
  {
    var e := src.code.entry;
    StartsAt(sem, src, out, r, base, site, arguments, w);
    var converted := Find(out.blocks, e).value;
    hide Ready, IsConverted, BlocksAndTree, AgreeAt, Start, Find;
    var u: seq<Instruction>, ps: seq<Instruction> :| Parts(src, r, e, converted.instructions, u, ps);
    hide Parts;
    EntryRuns(sem, src, r, base, site, converted.instructions, u, ps, arguments, w);
  }

  lemma StartsAt<V, W>(sem: Semantics<V, W>, src: Source, out: Function, r: Renaming, base: Value,
      site: map<Value, Site>, arguments: map<Value, V>, w: W)
    requires Ready(src, r, base, site) && IsConverted(src, r, out)
    ensures var e := src.code.entry;
      && e in src.blocks && Find(out.blocks, e).Some? && IsConvertedBlock(src, r, e, Find(out.blocks, e).value)
      && Start(sem, src.code, arguments, w) == At(e,
        DoAll(sem, src.blocks[e].instructions, State(arguments, map[], w, [])))
      && Start(sem, out, arguments, w) == At(e, DoAll(sem, Find(out.blocks, e).value.instructions,
        State(arguments, map[], w, [])))
  {
    hide SingleDefinitions, UsesDefined, LoopsEntered, AllRenamed, PhisPlaced, LiveFlows, Fresh, IsConvertedBlock;
    assert src.code.entry in src.tree.idom;
    assert BlockOk(src, src.code.entry);
  }

  lemma BodyIsNotEntry(src: Source, s: BlockId)
    requires Lowered(src) && s in src.loopOf
    ensures s != src.code.entry
  {
    hide DominatorTree.Of, SingleDefinitions, UsesDefined, SuccessorTable, Find;
    assert BodyOk(src, s);
    assert BlockOk(src, src.loopOf[s].1);
    assert s in Targets(src.blocks[src.loopOf[s].1].terminator);
  }

  lemma PhiIsNotEntry(src: Source, r: Renaming, s: BlockId, x: string)
    requires Lowered(src) && src.live.Keys == src.blocks.Keys && PhisPlaced(src, r)
    requires s in src.blocks && s in r.phis && x in r.phis[s]
    ensures s != src.code.entry
  {
    assert InIteratedFrontier(src.tree.frontier, Assigners(src, x), s);
    var c :| FrontierChain(src.tree.frontier, Assigners(src, x), c) && |c| > 1 && c[|c| - 1] == s;
    assert c[|c| - 2 + 1] in src.tree.frontier[c[|c| - 2]];
    assert InFrontier(SuccessorTable(src.code.blocks), src.tree.root, c[|c| - 2], s);
  }

  /** The entry holds no phi and is no loop body. */
  lemma EntryIsPlain(src: Source, r: Renaming)
    requires Lowered(src) && src.live.Keys == src.blocks.Keys && PhisPlaced(src, r)
    requires src.code.entry in src.blocks
    ensures src.code.entry !in src.loopOf
    ensures src.code.entry in r.phis ==> r.phis[src.code.entry] == map[]
  {
    var e := src.code.entry;
    if e in src.loopOf {
      BodyIsNotEntry(src, e);
    }
    if e in r.phis && r.phis[e] != map[] {
      var x :| x in r.phis[e];
      PhiIsNotEntry(src, r, e, x);
    }
  }

  lemma EntryAgrees<V, W>(sem: Semantics<V, W>, src: Source, r: Renaming, base: Value, site: map<Value, Site>,
      arguments: map<Value, V>, w: W, s1: State<V, W>)
    requires Ready(src, r, base, site) && src.code.entry in src.blocks && s1.locals == map[] && s1.world == w
      && s1.trace == []
    requires forall v :: v !in r.undefined.Values ==> Get(sem, s1.env, v) == Get(sem, arguments, v)
    requires forall x :: x in r.undefined ==> Get(sem, s1.env, r.undefined[x]) == sem.undefined(x)
    ensures var e := src.code.entry;
      Agree(sem, r, ScopeIn(src, e), TopsOnEntry(src, r, e), LiveBefore(src.blocks[e].instructions, LiveOut(src, e)),
            State(arguments, map[], w, []), s1)
  {
    hide DominatorTree.Of, UsesDefined, LoopsEntered, PhisPlaced, LiveBefore, LiveOut;
    var e := src.code.entry;
    EntryIsPlain(src, r);
    assert TopsOnEntry(src, r, e) == map[];
    forall v | v in ScopeIn(src, e) ensures Get(sem, arguments, v) == Get(sem, s1.env, Resolve(r.aliases, v)) {
      NotAliased(src, r, e, 0, v);
      assert v < base;
    }
  }

  /** Whatever choices a run makes, it does the same in both forms. */
  lemma {:induction false} RunsAgree<V, W>(sem: Semantics<V, W>, src: Source, r: Renaming, base: Value,
      site: map<Value, Site>, out: Function, arguments: map<Value, V>, w: W, choices: seq<Choice>)
    requires Ready(src, r, base, site) && IsConverted(src, r, out)
    ensures AgreeConfigs(sem, src, r, Run(sem, src.code, arguments, w, choices), Run(sem, out, arguments, w, choices))
    ensures SameOutside(Run(sem, src.code, arguments, w, choices), Run(sem, out, arguments, w, choices))
  {
    if choices == [] {
      StartAgrees(sem, src, r, base, site, out, arguments, w);
    } else {
      var before := choices[..|choices| - 1];
      RunsAgree(sem, src, r, base, site, out, arguments, w, before);
      MoveAgrees(sem, src, r, base, site, out, Run(sem, src.code, arguments, w, before),
        Run(sem, out, arguments, w, before), choices[|choices| - 1]);
    }
  }
}
