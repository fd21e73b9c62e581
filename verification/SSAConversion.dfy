/** The conversion to SSA form as a whole: what it asks of the lowered function, what it
    returns, and that every run does the same in both. */
module SSAConversion {
  import opened Options
  import opened DominatorTrees
  import opened IR
  import opened SSAForm
  import opened SSAMeaning
  import opened Liveness
  import opened SSAConstruction
  import opened SSAProperties
  import SSAResult
  import opened Renumbering

  /** The reachable blocks. */
  function Reachable(code: Function, tree: DominatorTree): map<BlockId, Block> {
    map b | b in tree.idom && Find(code.blocks, b).Some? :: Find(code.blocks, b).value
  }

  /** The function without what the conversion computes of it. */
  function Bare(code: Function, tree: DominatorTree): Source {
    Source(code, Reachable(code, tree), tree, map[], map[])
  }

  ghost predicate LoopHeader(blocks: map<BlockId, Block>, h: BlockId) {
    h in blocks && blocks[h].terminator.ForNext?
  }

  /** The body of a loop is entered from its header only, not by an exception, and is not
      also its exit. */
  ghost predicate BodyIsOwn(blocks: map<BlockId, Block>, h: BlockId)
    requires LoopHeader(blocks, h)
  {
    var t := blocks[h].terminator;
    && t.result == None && t.body != t.exit && t.body !in blocks[h].exceptionTargets
    && forall p :: p in blocks && t.body in Successors(blocks[p]) ==> p == h
  }

  /** What the lowering gives the conversion: the dominator tree of the graph, an entry without
      predecessors, values made once and before they are read on every path, and loop bodies
      entered from their headers only. */
  ghost predicate Convertible(code: Function, tree: DominatorTree) {
    && Distinct(code.parameters)
    && BlocksAndTree(Bare(code, tree)) && SingleDefinitions(Bare(code, tree)) && UsesDefined(Bare(code, tree))
    && forall h {:trigger LoopHeader(Reachable(code, tree), h)} :: LoopHeader(Reachable(code, tree), h) ==>
      BodyIsOwn(Reachable(code, tree), h)
  }

  type LoopVariables = map<BlockId, (string, BlockId)>

  ghost predicate Heads(blocks: map<BlockId, Block>, h: BlockId, s: BlockId, variable: (string, BlockId)) {
    LoopHeader(blocks, h) && blocks[h].terminator.body == s && variable == (blocks[h].terminator.name, h)
  }

  /** The variable and header of each loop body. */
  method CollectLoops(blocks: map<BlockId, Block>) returns (loopOf: LoopVariables)
    ensures forall s :: s in loopOf ==> Heads(blocks, loopOf[s].1, s, loopOf[s])
    ensures forall h :: LoopHeader(blocks, h) ==> blocks[h].terminator.body in loopOf
  {
    loopOf := map[];
    var rest := blocks.Keys;
    while rest != {}
      invariant rest <= blocks.Keys
      invariant forall s :: s in loopOf ==> Heads(blocks, loopOf[s].1, s, loopOf[s])
      invariant forall h :: LoopHeader(blocks, h) && h !in rest ==> blocks[h].terminator.body in loopOf
    {
      var b :| b in rest;
      rest := rest - {b};
      var t := blocks[b].terminator;
      if t.ForNext? {
        loopOf := loopOf[t.body := (t.name, b)];
      }
    }
  }

  /** The source is what the conversion read of the function. */
  ghost predicate SourceOf(code: Function, tree: DominatorTree, src: Source) {
    && src.code == code && src.tree == tree && src.blocks == Reachable(code, tree)
    && (forall s :: s in src.loopOf ==> Heads(src.blocks, src.loopOf[s].1, s, src.loopOf[s]))
    && (forall h :: LoopHeader(src.blocks, h) ==> src.blocks[h].terminator.body in src.loopOf)
  }

  lemma SourceIsLowered(code: Function, tree: DominatorTree, src: Source)
    requires Convertible(code, tree) && SourceOf(code, tree, src)
    ensures Lowered(src) && TreeOf(src) && BlocksClosed(src)
  {
    SameSource(code, tree, src);
    LoopsAreEntered(code, tree, src);
    forall b, s | b in src.blocks && s in Successors(src.blocks[b]) ensures s in src.blocks {
      SuccessorReachable(src, b, s);
    }
  }

  lemma SameSource(code: Function, tree: DominatorTree, src: Source)
    requires Convertible(code, tree) && SourceOf(code, tree, src)
    ensures BlocksAndTree(src) && SingleDefinitions(src) && UsesDefined(src) && TreeOf(src)
  {
    var bare := Bare(code, tree);
    forall b | b in src.blocks ensures BlockOk(src, b) && UsesDefinedIn(src, b) {
      assert BlockOk(bare, b) && UsesDefinedIn(bare, b);
      SameUses(bare, src, b);
    }
  }

  lemma SameUses(bare: Source, src: Source, b: BlockId)
    requires bare.code == src.code && bare.blocks == src.blocks && b in src.blocks && UsesDefinedIn(bare, b)
    ensures UsesDefinedIn(src, b)
  {
    var code := src.blocks[b].instructions;
    forall i, v | 0 <= i < |code| && v in ReadsOf(code[i]) ensures MadeBefore(src, b, i, v) {
      assert MadeBefore(bare, b, i, v);
    }
    forall v | v in Reads(src.blocks[b].terminator) ensures MadeBefore(src, b, |code|, v) {
      assert MadeBefore(bare, b, |code|, v);
    }
  }

  lemma LoopsAreEntered(code: Function, tree: DominatorTree, src: Source)
    requires Convertible(code, tree) && SourceOf(code, tree, src)
    ensures LoopsEntered(src)
  {
    hide BlocksAndTree, SingleDefinitions, UsesDefined, Successors;
    forall h | h in src.blocks && src.blocks[h].terminator.ForNext? ensures HeaderOk(src, h) {
      assert LoopHeader(src.blocks, h);
      assert BodyIsOwn(src.blocks, h);
      var s := src.blocks[h].terminator.body;
      assert Heads(src.blocks, src.loopOf[s].1, s, src.loopOf[s]);
      BodyFollows(src, src.loopOf[s].1);
      BodyFollows(src, h);
    }
    forall s | s in src.loopOf ensures BodyOk(src, s) {
      assert Heads(src.blocks, src.loopOf[s].1, s, src.loopOf[s]);
      assert BodyIsOwn(src.blocks, src.loopOf[s].1);
    }
  }

  lemma BodyFollows(src: Source, h: BlockId)
    requires LoopHeader(src.blocks, h)
    ensures src.blocks[h].terminator.body in Successors(src.blocks[h])
  {
    assert Targets(src.blocks[h].terminator)[0] == src.blocks[h].terminator.body;
  }

  /** Everything the conversion decided on the way from `code` to `out`. */
  ghost predicate ConvertsBy(code: Function, tree: DominatorTree, out: Function, src: Source, r: Renaming, base: Value,
      site: map<Value, Site>, named: Function, m: Numbering) {
    && SourceOf(code, tree, src)
    && Ready(src, r, base, site)
    && IsConverted(src, r, named)
    && Numbers(m, Definitions(named))
    && out == Renamed(m, named)
  }

  /** `out` is the SSA form of `code`. */
  ghost predicate Converts(code: Function, tree: DominatorTree, out: Function) {
    exists src, r, base, site, named, m :: ConvertsBy(code, tree, out, src, r, base, site, named, m)
  }

  method ToSSA(code: Function, tree: DominatorTree) returns (out: Function)
    requires Convertible(code, tree)
    ensures Converts(code, tree, out)
    ensures IsSSA(out) && Connected(out)
    ensures Definitions(out) == seq(|Definitions(out)|, i => i)
    ensures Ids(out.blocks) == KeptIds(code.blocks, tree.idom.Keys) && out.entry == code.entry
  {
    hide BlocksAndTree, SingleDefinitions, UsesDefined, Lowered, TreeOf, Ready, IsConverted, IsSSA, Connected,
      Definitions, Follows, Read, Converts, ConvertsBy, Ids, KeptIds, Numbers;
    var blocks := Reachable(code, tree);
    var loopOf := CollectLoops(blocks);
    var src := Source(code, blocks, tree, loopOf, map[]);
    SourceIsLowered(code, tree, src);
    var live := LiveIn(src);
    src := src.(live := live);
    LiveSource(code, tree, src);
    var renamer := new Renamer(src);
    var named := renamer.Build();
    SSAResult.ResultIsSSA(src, renamer.r, renamer.base, renamer.site, named);
    DistinctDefinitions(named);
    out := Renumber(named);
    ghost var m :| Numbers(m, Definitions(named)) && out == Renamed(m, named);
    Conversion(code, tree, out, src, renamer.r, renamer.base, renamer.site, named, m);
    NumberedWell(code, tree, out, src, renamer.r, renamer.base, renamer.site, named, m);
  }

  lemma Conversion(code: Function, tree: DominatorTree, out: Function, src: Source, r: Renaming, base: Value,
      site: map<Value, Site>, named: Function, m: Numbering)
    requires SourceOf(code, tree, src) && Ready(src, r, base, site) && IsConverted(src, r, named)
    requires Numbers(m, Definitions(named)) && out == Renamed(m, named)
    ensures ConvertsBy(code, tree, out, src, r, base, site, named, m)
    ensures Converts(code, tree, out)
  {
    assert ConvertsBy(code, tree, out, src, r, base, site, named, m);
  }

  lemma NumberedWell(code: Function, tree: DominatorTree, out: Function, src: Source, r: Renaming, base: Value,
      site: map<Value, Site>, named: Function, m: Numbering)
    requires Convertible(code, tree) && ConvertsBy(code, tree, out, src, r, base, site, named, m)
    ensures Converts(code, tree, out) && IsSSA(out) && Connected(out)
    ensures Definitions(out) == seq(|Definitions(out)|, i => i)
    ensures Ids(out.blocks) == KeptIds(code.blocks, tree.idom.Keys) && out.entry == code.entry
  {
    hide BlocksAndTree, SingleDefinitions, UsesDefined, Ready, IsConverted, IsSSA, Connected, Definitions, Ids,
      KeptIds, Numbers;
    SSAResult.ResultIsSSA(src, r, base, site, named);
    SSAResult.ResultIsConnected(src, r, base, site, named);
    DistinctDefinitions(named);
    RenamedIsSSA(m, named);
    RenamedIsConnected(m, named);
    Dense(m, named);
    SameIds(m, named.blocks);
    IdsKept(code, tree, src, r, named);
  }

  lemma DistinctDefinitions(f: Function)
    requires IsSSA(f)
    ensures Distinct(Definitions(f))
  {
  }

  lemma IdsKept(code: Function, tree: DominatorTree, src: Source, r: Renaming, named: Function)
    requires SourceOf(code, tree, src) && Convertible(code, tree) && IsConverted(src, r, named)
    ensures Ids(named.blocks) == KeptIds(code.blocks, tree.idom.Keys) && named.entry == code.entry
    ensures DistinctIds(named.blocks) && named.parameters == code.parameters
  {
    hide SingleDefinitions, UsesDefined, IsConvertedBlock;
  }

  /** Liveness is the same whatever was taken to be live before. */
  lemma LiveSource(code: Function, tree: DominatorTree, src: Source)
    requires SourceOf(code, tree, src) && Convertible(code, tree)
    requires var before := src.(live := map[]);
      src.live.Keys == src.blocks.Keys && forall b, x :: b in src.live ==>
        (x in src.live[b] <==> Follows(before, src.live, b, x))
    ensures Lowered(src) && TreeOf(src) && LiveFlows(src)
  {
    SourceIsLowered(code, tree, src);
    SameFollows(src);
    LivenessFlows(src);
  }

  lemma SameFollows(src: Source)
    requires var before := src.(live := map[]);
      src.live.Keys == src.blocks.Keys && forall b, x :: b in src.live ==>
        (x in src.live[b] <==> Follows(before, src.live, b, x))
    ensures forall b, x :: b in src.live ==> (x in src.live[b] <==> Follows(src, src.live, b, x))
  {
    var before := src.(live := map[]);
    forall b, x | b in src.live ensures Follows(before, src.live, b, x) <==> Follows(src, src.live, b, x) {
      assert Uses(before, b) == Uses(src, b) && Defs(before, b) == Defs(src, b);
    }
  }

  // ---- runs ----

  lemma {:induction false} BindMoved<V, W>(sem: Semantics<V, W>, m: Numbering, parameters: seq<Value>,
      arguments: seq<V>)
    requires Injective(m) && |arguments| == |parameters| && forall v :: v in parameters ==> v in m
    ensures EnvMoved(sem, m, Bind(parameters, arguments), Bind(ResolveAll(m, parameters), arguments))
  {
    if parameters != [] {
      var last := |parameters| - 1;
      BindMoved(sem, m, parameters[..last], arguments[..last]);
      assert ResolveAll(m, parameters)[..last] == ResolveAll(m, parameters[..last]);
      SetMoved(sem, m, Bind(parameters[..last], arguments[..last]),
        Bind(ResolveAll(m, parameters[..last]), arguments[..last]), parameters[last], arguments[last]);
    }
  }

  /** Called with the same arguments, in the same world, and making the same choices, a
      function and its SSA form do the same, step by step. */
  lemma ConversionKeepsMeaning<V, W>(sem: Semantics<V, W>, code: Function, tree: DominatorTree, out: Function,
      arguments: seq<V>, w: W, choices: seq<Choice>)
    requires Convertible(code, tree) && Converts(code, tree, out) && |arguments| == |code.parameters|
    ensures |out.parameters| == |code.parameters|
    ensures SameOutside(Run(sem, code, Bind(code.parameters, arguments), w, choices),
      Run(sem, out, Bind(out.parameters, arguments), w, choices))
  {
    hide BlocksAndTree, SingleDefinitions, UsesDefined, Ready, IsConverted, IsSSA, Definitions, Run, Numbers, Injective,
      Total, EnvMoved, SourceOf;
    var src, r, base, site, named, m :| ConvertsBy(code, tree, out, src, r, base, site, named, m);
    CodeOf(code, tree, src);
    RunsAgree(sem, src, r, base, site, named, Bind(code.parameters, arguments), w, choices);
    SSAResult.ResultIsSSA(src, r, base, site, named);
    IdsKept(code, tree, src, r, named);
    NumberingIsTotal(m, named);
    NumbersInjective(m, Definitions(named));
    ParametersNumbered(m, named);
    BindMoved(sem, m, named.parameters, arguments);
    RunsMoved(sem, m, named, Bind(named.parameters, arguments), Bind(out.parameters, arguments), w, choices);
    SameThroughout(sem, m, Run(sem, code, Bind(code.parameters, arguments), w, choices),
      Run(sem, named, Bind(named.parameters, arguments), w, choices),
                   Run(sem, out, Bind(out.parameters, arguments), w, choices));
  }

  lemma CodeOf(code: Function, tree: DominatorTree, src: Source)
    requires SourceOf(code, tree, src)
    ensures src.code == code
  {
  }

  lemma ParametersNumbered(m: Numbering, f: Function)
    requires Total(m, f)
    ensures forall v :: v in f.parameters ==> v in m
  {
  }

  lemma SameThroughout<V, W>(sem: Semantics<V, W>, m: Numbering, a: Config<V, W>, b: Config<V, W>, c: Config<V, W>)
    requires SameOutside(a, b) && ConfigMoved(sem, m, b, c)
    ensures SameOutside(a, c)
  {
  }

  // ---- handlers ----

  /** The blocks of the result are those of the source. */
  lemma BlockOfSource(
    code: Function, tree: DominatorTree, out: Function, src: Source, r: Renaming, base: Value, site: map<Value, Site>,
    named: Function, m: Numbering, b: BlockId)
    requires ConvertsBy(code, tree, out, src, r, base, site, named, m)
    ensures Find(out.blocks, b).Some? <==> b in src.blocks
    ensures b in src.blocks ==>
      && Find(code.blocks, b) == Some(src.blocks[b])
      && Find(named.blocks, b).Some? && IsConvertedBlock(src, r, b, Find(named.blocks, b).value)
      && Find(out.blocks, b) == Some(RenamedBlock(m, Find(named.blocks, b).value))
  {
    hide Ready, Numbers, Definitions, IsConvertedBlock, RenamedBlock;
    FindRenamed(m, named.blocks, b);
  }

  /** A block of the result has the exception targets of the block it comes from, and branches where
      that does. */
  lemma ComesFrom(
    code: Function, tree: DominatorTree, out: Function, src: Source, r: Renaming, base: Value, site: map<Value, Site>,
    named: Function, m: Numbering, b: BlockId)
    requires ConvertsBy(code, tree, out, src, r, base, site, named, m) && Find(out.blocks, b).Some?
    ensures Find(code.blocks, b).Some?
    ensures var from, to := Find(code.blocks, b).value, Find(out.blocks, b).value;
      && to.exceptionTargets == from.exceptionTargets && (to.terminator.Branch? ==> from.terminator.Branch?)
      && (to.terminator.Branch? ==>
            to.terminator.thenBlock == from.terminator.thenBlock && to.terminator.elseBlock
              == from.terminator.elseBlock)
  {
    BlockOfSource(code, tree, out, src, r, base, site, named, m, b);
    SameShape(m, r, src.blocks[b]);
    hide ConvertsBy, Find, RenamedCode, RenumberedTerminator, RenamedTerminator, Parts;
  }

  lemma SameShape(m: Numbering, r: Renaming, b: Block)
    ensures var t := RenumberedTerminator(m, RenamedTerminator(r, b));
      t.Branch? ==>
        b.terminator.Branch? && t.thenBlock == b.terminator.thenBlock && t.elseBlock == b.terminator.elseBlock
  {
  }

  lemma StillThere(
    code: Function, tree: DominatorTree, out: Function, src: Source, r: Renaming, base: Value, site: map<Value, Site>,
    named: Function, m: Numbering, b: BlockId, t: BlockId)
    requires Convertible(code, tree) && ConvertsBy(code, tree, out, src, r, base, site, named, m)
    requires Find(out.blocks, b).Some? && Find(code.blocks, b).Some? && t in Successors(Find(code.blocks, b).value)
    ensures Find(out.blocks, t).Some?
  {
    BlockOfSource(code, tree, out, src, r, base, site, named, m, b);
    BlockOfSource(code, tree, out, src, r, base, site, named, m, t);
    assert SourceOf(code, tree, src);
    hide ConvertsBy, Find, Convertible, SourceOf, Lowered, TreeOf, IsConvertedBlock, Successors;
    SourceIsLowered(code, tree, src);
    SuccessorReachable(src, b, t);
  }

  /** The conversion keeps that both targets of a branch lead to every handler the branch leads to,
      which what is known of guards rests on. */
  lemma ConversionKeepsHandlers(code: Function, tree: DominatorTree, out: Function)
    requires Convertible(code, tree) && Converts(code, tree, out) && BranchesCarry(code)
    ensures BranchesCarry(out)
  {
    hide Convertible, ConvertsBy;
    var src, r, base, site, named, m :| ConvertsBy(code, tree, out, src, r, base, site, named, m);
    forall d | Find(out.blocks, d).Some? && Find(out.blocks, d).value.terminator.Branch? ensures BranchCarries(out, d) {
      ComesFrom(code, tree, out, src, r, base, site, named, m, d);
      assert BranchCarries(code, d);
      var t := Find(code.blocks, d).value.terminator;
      assert Targets(t)[0] == t.thenBlock && Targets(t)[1] == t.elseBlock;
      StillThere(code, tree, out, src, r, base, site, named, m, d, t.thenBlock);
      StillThere(code, tree, out, src, r, base, site, named, m, d, t.elseBlock);
      ComesFrom(code, tree, out, src, r, base, site, named, m, t.thenBlock);
      ComesFrom(code, tree, out, src, r, base, site, named, m, t.elseBlock);
    }
  }
}
