/** What the conversion produces is in SSA form. */
module SSAResult {
  import opened Graphs
  import opened Options
  import opened Trees
  import opened DominatorTrees
  import opened IR
  import opened SSAForm
  import opened SSAMeaning
  import opened SSAProperties

  // ---- where a value is made ----

  /** Block `b` is where the converted form makes `v`; the item of a loop is made by its header. */
  ghost predicate PlaceOf(src: Source, base: Value, site: map<Value, Site>, v: Value, b: BlockId) {
    if v in site then
      v >= base &&
      match site[v]
      case PhiSite(c, _) => c == b
      case LoopSite(h) => h == b
      case UndefinedSite(_) => src.code.entry == b
    else v < base && b in src.blocks && exists i: nat :: Makes(src.blocks[b], i, v)
  }

  lemma OnePlace(src: Source, r: Renaming, base: Value, site: map<Value, Site>, v: Value, b: BlockId, c: BlockId)
    requires SingleDefinitions(src) && Fresh(src, r, base, site) && PlaceOf(src, base, site, v, b)
      && PlaceOf(src, base, site, v, c)
    ensures b == c && v !in src.code.parameters
  {
  }

  /** Each kept instruction comes from one of the source, after what is kept before it. */
  lemma {:induction false} KeptFrom(aliases: map<Value, Value>, code: seq<Instruction>, k: nat) returns (j: nat)
    requires k < |Kept(aliases, code)|
    ensures j < |code| && code[j].Operation? && Kept(aliases, code)[k] == Operation(code[j].outcome, code[j].op,
      ResolveAll(aliases, code[j].operands))
    ensures Kept(aliases, code[..j]) == Kept(aliases, code)[..k]
  {
    var rest := code[..|code| - 1];
    if k < |Kept(aliases, rest)| {
      j := KeptFrom(aliases, rest, k);
      assert rest[..j] == code[..j];
    } else {
      j := |code| - 1;
    }
  }

  lemma {:induction false} KeptComputes(aliases: map<Value, Value>, code: seq<Instruction>, v: Value)
    requires v in Computed(code)
    ensures v in Results(Kept(aliases, code))
  {
    var j :| 0 <= j < |code| && code[j].Operation? && code[j].outcome.Some? && code[j].outcome.value == v;
    var rest := code[..|code| - 1];
    var all := Kept(aliases, code);
    InResults(all, v);
    InResults(Kept(aliases, rest), v);
    if j < |rest| {
      assert rest[j] == code[j];
      KeptComputes(aliases, rest, v);
      var i :| 0 <= i < |Kept(aliases, rest)| && Result(Kept(aliases, rest)[i]) == Some(v);
      assert Result(all[i]) == Some(v);
    } else {
      assert Result(all[|all| - 1]) == Some(v);
    }
  }

  /** The parts of a converted block. */
  ghost predicate Shape(src: Source, r: Renaming, b: BlockId, c: Block, u: seq<Instruction>, ps: seq<Instruction>)
    requires b in src.blocks
  {
    Parts(src, r, b, c.instructions, u, ps) && c.terminator == RenamedTerminator(r, src.blocks[b])
      && c.exceptionTargets == src.blocks[b].exceptionTargets && c.id == b
  }

  lemma ShapeOf(src: Source, r: Renaming, b: BlockId, c: Block) returns (u: seq<Instruction>, ps: seq<Instruction>)
    requires b in src.blocks && IsConvertedBlock(src, r, b, c)
    ensures Shape(src, r, b, c, u, ps)
  {
    hide Parts;
    u, ps :| Parts(src, r, b, c.instructions, u, ps);
  }

  /** What stands at a position of a converted block. */
  lemma AtPosition(src: Source, r: Renaming, base: Value, site: map<Value, Site>, b: BlockId, c: Block,
      u: seq<Instruction>, ps: seq<Instruction>, i: nat)
    requires b in src.blocks && Shape(src, r, b, c, u, ps) && i < |c.instructions| && Fresh(src, r, base, site)
    ensures var code := c.instructions;
      && (i < |u| ==>
        code[i] == u[i] && code[i].Undefined? && b == src.code.entry && code[i].result in site
        && site[code[i].result] == UndefinedSite(code[i].name))
      && (|u| <= i < |u| + |ps| ==>
        code[i] == ps[i - |u|] && code[i].Phi? && code[i].result in site
        && site[code[i].result] == PhiSite(b, code[i].name))
      && (|u| + |ps| <= i ==> i - |u| - |ps| < |Kept(r.aliases, src.blocks[b].instructions)|
                              && code[i] == Kept(r.aliases, src.blocks[b].instructions)[i - |u| - |ps|]
                                && code[i].Operation?)
  {
    hide ListsPredecessors, Makes;
    if |u| <= i < |u| + |ps| {
      assert IsPhiOf(src, r, b, ps[i - |u|]);
    } else if |u| + |ps| <= i {
      KeptIsOperations(r.aliases, src.blocks[b].instructions, i - |u| - |ps|);
    }
  }

  lemma KeptMade(src: Source, r: Renaming, base: Value, site: map<Value, Site>, b: BlockId, k: nat) returns (j: nat)
    requires b in src.blocks && Fresh(src, r, base, site) && k < |Kept(r.aliases, src.blocks[b].instructions)|
    ensures j < |src.blocks[b].instructions| && src.blocks[b].instructions[j].Operation?
    ensures Kept(r.aliases, src.blocks[b].instructions)[k] == Operation(src.blocks[b].instructions[j].outcome,
      src.blocks[b].instructions[j].op, ResolveAll(r.aliases, src.blocks[b].instructions[j].operands))
    ensures Kept(r.aliases, src.blocks[b].instructions[..j]) == Kept(r.aliases, src.blocks[b].instructions)[..k]
    ensures var o := src.blocks[b].instructions[j].outcome; o.Some? ==>
      Makes(src.blocks[b], j, o.value) && o.value !in site && o.value < base
  {
    j := KeptFrom(r.aliases, src.blocks[b].instructions, k);
    var o := src.blocks[b].instructions[j].outcome;
    if o.Some? {
      assert Makes(src.blocks[b], j, o.value);
    }
  }

  /** What a converted block defines is made in that block. */
  lemma DefinesInPlace(src: Source, r: Renaming, base: Value, site: map<Value, Site>, b: BlockId, c: Block, v: Value)
    requires b in src.blocks && BlockOk(src, b) && IsConvertedBlock(src, r, b, c) && Fresh(src, r, base, site)
      && v in Defines(c)
    requires src.blocks[b].terminator.ForNext? ==> src.blocks[b].terminator.result == None
    ensures PlaceOf(src, base, site, v, b)
  {
    hide Parts, Makes, Fresh, Find, Successors;
    var u, ps := ShapeOf(src, r, b, c);
    InResults(c.instructions, v);
    if v in Results(c.instructions) {
      var i :| 0 <= i < |c.instructions| && Result(c.instructions[i]) == Some(v);
      PositionInPlace(src, r, base, site, b, c, u, ps, i);
    } else {
      ItemSite(src, r, base, site, b);
    }
  }

  lemma ItemSite(src: Source, r: Renaming, base: Value, site: map<Value, Site>, h: BlockId)
    requires Fresh(src, r, base, site)
    ensures h in r.loops ==> r.loops[h] in site && site[r.loops[h]] == LoopSite(h) && r.loops[h] >= base
  {
    hide Makes;
  }

  lemma PositionInPlace(src: Source, r: Renaming, base: Value, site: map<Value, Site>, b: BlockId, c: Block,
      u: seq<Instruction>, ps: seq<Instruction>, i: nat)
    requires b in src.blocks && Shape(src, r, b, c, u, ps) && i < |c.instructions| && Fresh(src, r, base, site)
    ensures Result(c.instructions[i]).Some? ==> PlaceOf(src, base, site, Result(c.instructions[i]).value, b)
    ensures Result(c.instructions[i]).Some? && Result(c.instructions[i]).value in site ==>
      !site[Result(c.instructions[i]).value].LoopSite?
  {
    hide Parts, Makes;
    AtPosition(src, r, base, site, b, c, u, ps, i);
    if |u| + |ps| <= i {
      var j := KeptMade(src, r, base, site, b, i - |u| - |ps|);
    }
  }

  /** Two positions of a converted block make different values. */
  lemma PositionsDiffer(src: Source, r: Renaming, base: Value, site: map<Value, Site>, b: BlockId, c: Block,
      u: seq<Instruction>, ps: seq<Instruction>, i: nat, j: nat)
    requires SingleDefinitions(src) && b in src.blocks && Shape(src, r, b, c, u, ps) && i < j < |c.instructions|
      && Fresh(src, r, base, site)
    requires Result(c.instructions[i]).Some?
    ensures Result(c.instructions[i]) != Result(c.instructions[j])
  {
    hide IsPhiOf, Makes, Fresh;
    AtPosition(src, r, base, site, b, c, u, ps, i);
    AtPosition(src, r, base, site, b, c, u, ps, j);
    if |u| + |ps| <= j {
      var n := KeptMade(src, r, base, site, b, j - |u| - |ps|);
      if |u| + |ps| <= i {
        var m := KeptMade(src, r, base, site, b, i - |u| - |ps|);
        assert |Kept(r.aliases, src.blocks[b].instructions[..m])| != |Kept(r.aliases, src.blocks[b].instructions[..n])|;
      }
    } else if j < |u| {
      SameUndefined(src, r, base, site, b, u, i, j);
    } else if |u| <= i {
      assert ps[i - |u|].name != ps[j - |u|].name;
    }
  }

  lemma SameUndefined(src: Source, r: Renaming, base: Value, site: map<Value, Site>, b: BlockId, u: seq<Instruction>,
      i: nat, j: nat)
    requires CreatesUndefined(src, r, b, u) && Fresh(src, r, base, site) && i < j < |u|
    ensures u[i].Undefined? && u[j].Undefined? && u[i].result != u[j].result
  {
    assert u[i] != u[j];
  }

  lemma BlockDistinct(src: Source, r: Renaming, base: Value, site: map<Value, Site>, b: BlockId, c: Block)
    requires SingleDefinitions(src) && b in src.blocks && BlockOk(src, b) && IsConvertedBlock(src, r, b, c)
      && Fresh(src, r, base, site)
    requires src.blocks[b].terminator.ForNext? ==> src.blocks[b].terminator.result == None
    ensures Distinct(Defines(c))
  {
    hide Parts, Makes, Fresh, Find, Successors, SingleDefinitions;
    var u, ps := ShapeOf(src, r, b, c);
    forall i, j | 0 <= i < j < |c.instructions| && Result(c.instructions[i]).Some?
      ensures Result(c.instructions[i]) != Result(c.instructions[j]) {
      PositionsDiffer(src, r, base, site, b, c, u, ps, i, j);
    }
    ResultsDistinct(c.instructions);
    if ResultOf(c.terminator).Some? {
      var v := ResultOf(c.terminator).value;
      ItemSite(src, r, base, site, b);
      InResults(c.instructions, v);
      if i :| 0 <= i < |c.instructions| && Result(c.instructions[i]) == Some(v) {
        PositionInPlace(src, r, base, site, b, c, u, ps, i);
      }
      AppendDistinct(Results(c.instructions), [v]);
    }
  }

  /** The facts of the `k`-th converted block. */
  lemma ConvertedAt(src: Source, r: Renaming, base: Value, site: map<Value, Site>, out: Function, k: nat)
    requires Ready(src, r, base, site) && IsConverted(src, r, out) && k < |out.blocks|
    ensures var b := out.blocks[k].id; b in src.blocks && BlockOk(src, b) && IsConvertedBlock(src, r, b, out.blocks[k])
    ensures var b := out.blocks[k].id; src.blocks[b].terminator.ForNext? ==> src.blocks[b].terminator.result == None
  {
    hide BlocksAndTree, SingleDefinitions, UsesDefined, LoopsEntered, LiveFlows, AllRenamed, PhisPlaced, Fresh,
      IsConvertedBlock;
    FindAt(out.blocks, k);
    BlockFacts(src, r, base, site, out.blocks[k].id);
  }

  lemma DefinitionsDistinct(src: Source, r: Renaming, base: Value, site: map<Value, Site>, out: Function)
    requires Ready(src, r, base, site) && IsConverted(src, r, out) && Distinct(src.code.parameters)
    ensures Distinct(Definitions(out))
  {
    hide BlocksAndTree, UsesDefined, LoopsEntered, LiveFlows, AllRenamed, PhisPlaced, Fresh, IsConvertedBlock, Defines,
      BlockOk, SingleDefinitions, PlaceOf;
    forall k | 0 <= k < |out.blocks| ensures Distinct(Defines(out.blocks[k])) {
      ConvertedAt(src, r, base, site, out, k);
      BlockDistinct(src, r, base, site, out.blocks[k].id, out.blocks[k]);
    }
    forall j, k, v | 0 <= j < k < |out.blocks| && v in Defines(out.blocks[k]) ensures v !in Defines(out.blocks[j]) {
      if v in Defines(out.blocks[j]) {
        ConvertedAt(src, r, base, site, out, j);
        ConvertedAt(src, r, base, site, out, k);
        DefinesInPlace(src, r, base, site, out.blocks[j].id, out.blocks[j], v);
        DefinesInPlace(src, r, base, site, out.blocks[k].id, out.blocks[k], v);
        OnePlace(src, r, base, site, v, out.blocks[j].id, out.blocks[k].id);
      }
    }
    AllDistinct(out.blocks);
    forall v | v in AllDefined(out.blocks) ensures v !in out.parameters {
      InAllDefined(out.blocks, v);
      var k :| 0 <= k < |out.blocks| && v in Defines(out.blocks[k]);
      ConvertedAt(src, r, base, site, out, k);
      DefinesInPlace(src, r, base, site, out.blocks[k].id, out.blocks[k], v);
      OnePlace(src, r, base, site, v, out.blocks[k].id, out.blocks[k].id);
    }
    AppendDistinct(out.parameters, AllDefined(out.blocks));
  }

  // ---- the graph of the converted function ----

  lemma SameSuccessors(src: Source, r: Renaming, b: BlockId, c: Block)
    requires b in src.blocks && IsConvertedBlock(src, r, b, c)
    ensures Successors(c) == Successors(src.blocks[b])
  {
    hide Parts, NewTargets;
  }

  lemma EdgesKept(src: Source, r: Renaming, base: Value, site: map<Value, Site>, out: Function, a: BlockId, s: BlockId)
    requires Ready(src, r, base, site) && IsConverted(src, r, out) && Edge(SuccessorTable(out.blocks), a, s)
    ensures Edge(SuccessorTable(src.code.blocks), a, s)
  {
    hide BlocksAndTree, UsesDefined, LoopsEntered, LiveFlows, AllRenamed, PhisPlaced, Fresh, IsConvertedBlock,
      SingleDefinitions, Successors;
    BlockFacts(src, r, base, site, a);
    SameSuccessors(src, r, a, Find(out.blocks, a).value);
  }

  /** The converted function has no walk the source has not, so dominance carries over. */
  lemma DominanceKept(src: Source, r: Renaming, base: Value, site: map<Value, Site>, out: Function, c: BlockId,
      b: BlockId)
    requires Ready(src, r, base, site) && IsConverted(src, r, out)
    requires StrictlyDominates(SuccessorTable(src.code.blocks), src.code.entry, c, b)
    ensures StrictlyDominates(SuccessorTable(out.blocks), out.entry, c, b)
  {
    hide Ready, IsConverted, SuccessorTable;
    SameEntry(src, r, base, site, out);
    forall p | WalkTo(SuccessorTable(out.blocks), p, out.entry, b) ensures c in p {
      forall i | 0 <= i < |p| - 1 ensures Edge(SuccessorTable(src.code.blocks), p[i], p[i + 1]) {
        EdgesKept(src, r, base, site, out, p[i], p[i + 1]);
      }
      assert WalkTo(SuccessorTable(src.code.blocks), p, src.code.entry, b);
    }
  }

  lemma SameEntry(src: Source, r: Renaming, base: Value, site: map<Value, Site>, out: Function)
    requires Ready(src, r, base, site) && IsConverted(src, r, out)
    ensures out.entry == src.code.entry && src.code.entry in SuccessorTable(src.code.blocks)
      && out.parameters == src.code.parameters
  {
    hide LiveFlows, AllRenamed, PhisPlaced, Fresh, IsConvertedBlock, SingleDefinitions, UsesDefined, LoopsEntered, Find;
  }

  lemma {:induction false} SamePredecessors(blocks: seq<Block>, keep: set<BlockId>, outs: seq<Block>,
      keep': set<BlockId>, b: BlockId)
    requires Ids(outs) == KeptIds(blocks, keep)
    requires forall m :: 0 <= m < |outs| ==> outs[m].id in keep'
    requires forall k, m :: 0 <= k < |blocks| && 0 <= m < |outs| && blocks[k].id == outs[m].id ==>
      Successors(blocks[k]) == Successors(outs[m])
    ensures PredecessorsIn(outs, keep', b) == PredecessorsIn(blocks, keep, b)
  {
    hide Successors;
    if blocks != [] {
      var rest, last := blocks[..|blocks| - 1], blocks[|blocks| - 1];
      if last.id in keep {
        assert |Ids(outs)| == |outs| > 0;
        var outs' := outs[..|outs| - 1];
        assert Ids(outs') == Ids(outs)[..|outs| - 1];
        SamePredecessors(rest, keep, outs', keep', b);
        assert Ids(outs)[|outs| - 1] == last.id;
      } else {
        SamePredecessors(rest, keep, outs, keep', b);
      }
    } else {
      assert |Ids(outs)| == |outs|;
    }
  }

  lemma PredecessorsKept(src: Source, r: Renaming, base: Value, site: map<Value, Site>, out: Function, b: BlockId)
    requires Ready(src, r, base, site) && IsConverted(src, r, out)
    ensures PredecessorsIn(out.blocks, (set p | p in Ids(out.blocks)), b) == PredecessorsIn(src.code.blocks,
      src.blocks.Keys, b)
  {
    hide UsesDefined, LoopsEntered, LiveFlows, AllRenamed, PhisPlaced, Fresh, IsConvertedBlock, SingleDefinitions,
      Successors, SuccessorTable, DominatorTree.Of;
    forall m | 0 <= m < |out.blocks| ensures out.blocks[m].id in Ids(out.blocks) {
      assert Ids(out.blocks)[m] == out.blocks[m].id;
    }
    forall k, m | 0 <= k < |src.code.blocks| && 0 <= m < |out.blocks| && src.code.blocks[k].id == out.blocks[m].id
      ensures Successors(src.code.blocks[k]) == Successors(out.blocks[m])
    {
      ConvertedAt(src, r, base, site, out, m);
      SameSuccessors(src, r, out.blocks[m].id, out.blocks[m]);
      FindAt(src.code.blocks, k);
      assert BlockOk(src, out.blocks[m].id);
    }
    SamePredecessors(src.code.blocks, src.blocks.Keys, out.blocks, (set p | p in Ids(out.blocks)), b);
  }

  // ---- definitions come before uses ----

  /** A value the renaming counts as defined within `c` is defined there by the converted form. */
  lemma DefinedThere(src: Source, r: Renaming, base: Value, site: map<Value, Site>, out: Function, c: BlockId, v: Value)
    requires Ready(src, r, base, site) && IsConverted(src, r, out) && c in src.blocks
    requires v in PhiValues(r, c) + LoopValue(src, r, c) + Computed(src.blocks[c].instructions)
    ensures DefinedWithin(out, c, v)
    ensures v in LoopValue(src, r, c) ==> ItemOf(out, c, v)
  {
    hide BlocksAndTree, UsesDefined, LiveFlows, AllRenamed, PhisPlaced, Fresh, SingleDefinitions, BlockOk, Successors,
      IsConvertedBlock, Parts;
    var d := Find(out.blocks, c).value;
    if v in LoopValue(src, r, c) {
      ItemThere(src, r, base, site, out, c);
    } else {
      var u, ps := ShapeOf(src, r, c, d);
      PhiOrComputed(src, r, c, d, u, ps, v);
    }
  }

  lemma ItemThere(src: Source, r: Renaming, base: Value, site: map<Value, Site>, out: Function, c: BlockId)
    requires Ready(src, r, base, site) && IsConverted(src, r, out) && c in src.blocks
    requires c in src.loopOf && src.loopOf[c].1 in r.loops
    ensures ItemOf(out, c, r.loops[src.loopOf[c].1])
  {
    hide BlocksAndTree, UsesDefined, LiveFlows, AllRenamed, PhisPlaced, Fresh, SingleDefinitions, BlockOk, Successors,
      Parts;
    var h := src.loopOf[c].1;
    assert BodyOk(src, c);
    BlockFacts(src, r, base, site, h);
    IdIs(src, h);
    assert IsConvertedBlock(src, r, h, Find(out.blocks, h).value);
  }

  lemma IdIs(src: Source, b: BlockId)
    requires b in src.blocks && BlockOk(src, b)
    ensures src.blocks[b].id == b
  {
  }

  lemma PhiOrComputed(src: Source, r: Renaming, c: BlockId, d: Block, u: seq<Instruction>, ps: seq<Instruction>,
      v: Value)
    requires c in src.blocks && Shape(src, r, c, d, u, ps)
      && v in PhiValues(r, c) + Computed(src.blocks[c].instructions)
    ensures |u| + |ps| <= |d.instructions| && v in Results(d.instructions)
    ensures v in PhiValues(r, c) ==> v in Results(d.instructions[..|u| + |ps|])
  {
    hide ListsPredecessors;
    var kept := Kept(r.aliases, src.blocks[c].instructions);
    var code := d.instructions;
    InResults(code, v);
    if v in PhiValues(r, c) {
      var x :| x in r.phis[c] && r.phis[c][x] == v;
      var k :| 0 <= k < |ps| && ps[k].Phi? && ps[k].name == x;
      assert IsPhiOf(src, r, c, ps[k]);
      assert Result(code[|u| + k]) == Some(v);
      InResults(code[..|u| + |ps|], v);
      assert Result(code[..|u| + |ps|][|u| + k]) == Some(v);
    } else {
      KeptComputes(r.aliases, src.blocks[c].instructions, v);
      InResults(kept, v);
      var k :| 0 <= k < |kept| && Result(kept[k]) == Some(v);
      assert code[|u| + |ps| + k] == kept[k];
    }
  }

  lemma UndefinedThere(src: Source, r: Renaming, d: Block, u: seq<Instruction>, ps: seq<Instruction>, v: Value)
    requires src.code.entry in src.blocks && Shape(src, r, src.code.entry, d, u, ps) && v in r.undefined.Values
    ensures |u| + |ps| <= |d.instructions| && v in Results(d.instructions) && v in Results(d.instructions[..|u| + |ps|])
  {
    hide ListsPredecessors;
    var x :| x in r.undefined && r.undefined[x] == v;
    var k :| 0 <= k < |u| && u[k] == Undefined(v, x);
    InResults(d.instructions, v);
    InResults(d.instructions[..|u| + |ps|], v);
    assert Result(d.instructions[k]) == Some(v);
    assert Result(d.instructions[..|u| + |ps|][k]) == Some(v);
  }

  /** What is defined when a block starts is available past its phis. */
  lemma EntryAvailable(src: Source, r: Renaming, base: Value, site: map<Value, Site>, out: Function, b: BlockId,
      u: seq<Instruction>, ps: seq<Instruction>, v: Value)
    requires Ready(src, r, base, site) && IsConverted(src, r, out) && b in src.blocks && Find(out.blocks, b).Some?
    requires Shape(src, r, b, Find(out.blocks, b).value, u, ps) && v in DefinedOnEntry(src, r, b)
    ensures Available(out, b, |u| + |ps|, v)
  {
    hide BlocksAndTree, UsesDefined, LoopsEntered, LiveFlows, AllRenamed, PhisPlaced, Fresh, SingleDefinitions,
      Successors, IsConvertedBlock, ItemOf, Parts, SuccessorTable, Results, SSAProperties.DefinedAbove;
    var d := Find(out.blocks, b).value;
    SameEntry(src, r, base, site, out);
    if v in PhiValues(r, b) {
      PhiOrComputed(src, r, b, d, u, ps, v);
    } else if v in LoopValue(src, r, b) {
      DefinedThere(src, r, base, site, out, b, v);
    } else if v !in src.code.parameters {
      AboveAvailable(src, r, base, site, out, b, u, ps, v);
    }
  }

  lemma AboveAvailable(src: Source, r: Renaming, base: Value, site: map<Value, Site>, out: Function, b: BlockId,
      u: seq<Instruction>, ps: seq<Instruction>, v: Value)
    requires Ready(src, r, base, site) && IsConverted(src, r, out) && b in src.blocks && Find(out.blocks, b).Some?
    requires Shape(src, r, b, Find(out.blocks, b).value, u, ps) && v in DefinedIn(src, r, b)
      && v !in src.code.parameters
    ensures Available(out, b, |u| + |ps|, v)
  {
    hide BlocksAndTree, UsesDefined, LoopsEntered, LiveFlows, AllRenamed, PhisPlaced, Fresh, SingleDefinitions,
      Successors, IsConverted, ItemOf, SuccessorTable, Results, DefinedWithin;
    if v in r.undefined.Values {
      EntryIsRoot(src);
      if b == src.code.entry {
        UndefinedThere(src, r, Find(out.blocks, b).value, u, ps, v);
      } else {
        EntryBlock(src, r, out, v);
        StrictlyBelow(src, src.code.entry, b);
        DominanceKept(src, r, base, site, out, src.code.entry, b);
        assert SSAProperties.DefinedAbove(out, src.code.entry, b, v);
      }
    } else {
      var c := SSAMeaning.DefinedAbove(src, r, base, site, b, v);
      AncBasics(src.tree.root, src.tree.depth, src.tree.idom, b, c);
      StrictlyBelow(src, c, b);
      DominanceKept(src, r, base, site, out, c, b);
      DefinedThere(src, r, base, site, out, c, v);
      assert SSAProperties.DefinedAbove(out, c, b, v);
    }
  }

  lemma EntryIsRoot(src: Source)
    requires Lowered(src) && TreeOf(src)
    ensures src.tree.root == src.code.entry && src.code.entry in src.blocks
    ensures forall b :: b in src.blocks ==> src.code.entry in Above(src, b)
  {
    hide SingleDefinitions, UsesDefined, LoopsEntered, DominatorTree.Of, SuccessorTable;
    forall b | b in src.blocks ensures src.code.entry in Above(src, b) {
      RootAbove(src.tree.root, src.tree.depth, src.tree.idom, b);
    }
  }

  lemma StrictlyBelow(src: Source, c: BlockId, b: BlockId)
    requires Lowered(src) && TreeOf(src) && b in src.blocks && c in Above(src, b) && c != b
    ensures StrictlyDominates(SuccessorTable(src.code.blocks), src.code.entry, c, b)
  {
    hide SingleDefinitions, UsesDefined, LoopsEntered, SuccessorTable;
    assert Graphs.Dominates(SuccessorTable(src.code.blocks), src.tree.root, c, b) <==>
      c in Anc(src.tree.root, src.tree.depth, src.tree.idom, b);
  }

  lemma EntryBlock(src: Source, r: Renaming, out: Function, v: Value)
    requires src.code.entry in src.blocks && IsConverted(src, r, out) && v in r.undefined.Values
    ensures DefinedWithin(out, src.code.entry, v)
  {
    hide Parts, Results, ItemOf;
    var u, ps := ShapeOf(src, r, src.code.entry, Find(out.blocks, src.code.entry).value);
    UndefinedThere(src, r, Find(out.blocks, src.code.entry).value, u, ps, v);
  }

  /** What is defined after the first instructions of the source is available after what is
      kept of them. */
  lemma PrefixAvailable(src: Source, r: Renaming, base: Value, site: map<Value, Site>, out: Function, b: BlockId,
      u: seq<Instruction>, ps: seq<Instruction>, j: nat, v: Value)
    requires Ready(src, r, base, site) && IsConverted(src, r, out) && b in src.blocks && Find(out.blocks, b).Some?
    requires Shape(src, r, b, Find(out.blocks, b).value, u, ps) && j <= |src.blocks[b].instructions|
    requires v in DefinedOnEntry(src, r, b) + Computed(src.blocks[b].instructions[..j])
    requires Kept(r.aliases, src.blocks[b].instructions[..j]) <= Kept(r.aliases, src.blocks[b].instructions)
    ensures Available(out, b, |u| + |ps| + |Kept(r.aliases, src.blocks[b].instructions[..j])|, v)
  {
    hide Ready, IsConverted, ItemOf, CreatesUndefined, HasPhis, SSAProperties.DefinedAbove, DefinedOnEntry, Available,
      Kept, Computed;
    var here := Kept(r.aliases, src.blocks[b].instructions[..j]);
    if v in Computed(src.blocks[b].instructions[..j]) {
      KeptComputes(r.aliases, src.blocks[b].instructions[..j], v);
      HereAvailable(src, r, out, b, u, ps, here, v);
    } else {
      EntryAvailable(src, r, base, site, out, b, u, ps, v);
      LaterAvailable(out, b, |u| + |ps|, |u| + |ps| + |here|, v);
    }
  }

  lemma HereAvailable(src: Source, r: Renaming, out: Function, b: BlockId, u: seq<Instruction>, ps: seq<Instruction>,
      here: seq<Instruction>, v: Value)
    requires b in src.blocks && Find(out.blocks, b).Some? && Shape(src, r, b, Find(out.blocks, b).value, u, ps)
    requires here <= Kept(r.aliases, src.blocks[b].instructions) && v in Results(here)
    ensures Available(out, b, |u| + |ps| + |here|, v)
  {
    hide ItemOf, CreatesUndefined, HasPhis, SSAProperties.DefinedAbove, Kept, Result, Results, Find, RenamedTerminator;
    var code := Find(out.blocks, b).value.instructions[..|u| + |ps| + |here|];
    InResults(here, v);
    var k :| 0 <= k < |here| && Result(here[k]) == Some(v);
    InResults(code, v);
    assert code[|u| + |ps| + k] == here[k];
  }

  lemma EndAvailable(src: Source, r: Renaming, base: Value, site: map<Value, Site>, out: Function, b: BlockId, v: Value)
    requires Ready(src, r, base, site) && IsConverted(src, r, out) && b in src.blocks && v in DefinedOut(src, r, b)
    ensures AvailableAtEnd(out, b, v)
  {
    hide BlocksAndTree, UsesDefined, LoopsEntered, LiveFlows, AllRenamed, PhisPlaced, Fresh, SingleDefinitions,
      CreatesUndefined, HasPhis, Available, Find, DefinedOnEntry, Computed;
    ConvertedFacts(src, r, out, b);
    var d := Find(out.blocks, b).value;
    var u, ps := ShapeOf(src, r, b, d);
    var code := src.blocks[b].instructions;
    assert code[..|code|] == code;
    PrefixAvailable(src, r, base, site, out, b, u, ps, |code|, v);
  }

  /** The operands of a kept instruction. */
  lemma KeptUses(src: Source, r: Renaming, base: Value, site: map<Value, Site>, out: Function, b: BlockId,
      u: seq<Instruction>, ps: seq<Instruction>, k: nat, v: Value)
    requires Ready(src, r, base, site) && IsConverted(src, r, out) && b in src.blocks && Find(out.blocks, b).Some?
    requires Shape(src, r, b, Find(out.blocks, b).value, u, ps) && k < |Kept(r.aliases, src.blocks[b].instructions)|
    requires v in ReadsOf(Kept(r.aliases, src.blocks[b].instructions)[k])
    ensures Available(out, b, |u| + |ps| + k, v)
  {
    hide BlocksAndTree, UsesDefined, LoopsEntered, LiveFlows, AllRenamed, PhisPlaced, SingleDefinitions, IsConverted,
      Parts, Available, Makes, Find, AllFit, Kept, ResolveAll, ScopeIn, ScopeOut, DefinedOnEntry, DefinedOut,
      TopsOnEntry, Fresh, Shape, Computed, Scoped;
    var code := src.blocks[b].instructions;
    var j := KeptMade(src, r, base, site, b, k);
    ScopedOut(src, r, base, site, b);
    OperandsDefined(src, r, b, j, v);
    PrefixAvailable(src, r, base, site, out, b, u, ps, j, v);
  }

  lemma OperandsDefined(src: Source, r: Renaming, b: BlockId, j: nat, v: Value)
    requires TreeOf(src) && b in src.blocks && j < |src.blocks[b].instructions|
      && src.blocks[b].instructions[j].Operation?
    requires AllFit(r, ScopeIn(src, b), DefinedOnEntry(src, r, b), TopsOnEntry(src, r, b), src.blocks[b].instructions)
    requires v in ResolveAll(r.aliases, src.blocks[b].instructions[j].operands)
    ensures v in DefinedOnEntry(src, r, b) + Computed(src.blocks[b].instructions[..j])
  {
    hide DefinedOnEntry, ScopeIn, TopsOnEntry;
    var code := src.blocks[b].instructions;
    assert FitsAt(r, ScopeIn(src, b), DefinedOnEntry(src, r, b), TopsOnEntry(src, r, b), code, j);
    var i :| 0 <= i < |code[j].operands| && Resolve(r.aliases, code[j].operands[i]) == v;
    assert code[j].operands[i] in code[j].operands;
  }

  lemma TerminatorUses(src: Source, r: Renaming, base: Value, site: map<Value, Site>, out: Function, b: BlockId,
      v: Value)
    requires Ready(src, r, base, site) && IsConverted(src, r, out) && b in src.blocks && Find(out.blocks, b).Some?
    requires v in Reads(Find(out.blocks, b).value.terminator)
    ensures AvailableAtEnd(out, b, v)
  {
    hide BlocksAndTree, UsesDefined, LoopsEntered, LiveFlows, AllRenamed, PhisPlaced, Fresh, SingleDefinitions, Parts,
      AvailableAtEnd;
    ConvertedFacts(src, r, out, b);
    var w := ReadResolved(r, src.blocks[b], v);
    BlockFacts(src, r, base, site, b);
    var code := src.blocks[b].instructions;
    assert code[..|code|] == code;
    ReadMade(src, b, w);
    MadeInScope(src, b, |code|, w);
    ScopedOut(src, r, base, site, b);
    EndAvailable(src, r, base, site, out, b, v);
  }

  lemma ReadMade(src: Source, b: BlockId, w: Value)
    requires b in src.blocks && UsesDefinedIn(src, b) && w in Reads(src.blocks[b].terminator)
    ensures MadeBefore(src, b, |src.blocks[b].instructions|, w)
  {
  }

  lemma ReadResolved(r: Renaming, b: Block, v: Value) returns (w: Value)
    requires v in Reads(RenamedTerminator(r, b))
    ensures w in Reads(b.terminator) && Resolve(r.aliases, w) == v
  {
    match b.terminator {
      case Return(vs) => var i :| 0 <= i < |vs| && ResolveAll(r.aliases, vs)[i] == v; w := vs[i];
      case Raise(vs) => var i :| 0 <= i < |vs| && ResolveAll(r.aliases, vs)[i] == v; w := vs[i];
      case Branch(c, _, _) => w := c;
      case ForNext(it, _, _, _, _) => w := it;
    }
  }

  lemma PhiUses(src: Source, r: Renaming, base: Value, site: map<Value, Site>, out: Function, b: BlockId,
      i: Instruction)
    requires Ready(src, r, base, site) && IsConverted(src, r, out) && b in src.blocks && IsPhiOf(src, r, b, i)
    ensures OperandsAvailable(out, b, i.incoming)
  {
    hide BlocksAndTree, UsesDefined, LoopsEntered, LiveFlows, AllRenamed, PhisPlaced, Fresh, SingleDefinitions,
      IsConverted, AvailableAtEnd, PredecessorsIn, Successors;
    PredecessorsKept(src, r, base, site, out, b);
    forall j | 0 <= j < |i.incoming| ensures AvailableAtEnd(out, i.incoming[j].1, i.incoming[j].0) {
      assert ListsOne(src, r, b, i.name, i.incoming[j]);
      ScopedOut(src, r, base, site, i.incoming[j].1);
      EndAvailable(src, r, base, site, out, i.incoming[j].1, i.incoming[j].0);
    }
  }

  lemma BlockUses(src: Source, r: Renaming, base: Value, site: map<Value, Site>, out: Function, b: BlockId)
    requires Ready(src, r, base, site) && IsConverted(src, r, out) && Find(out.blocks, b).Some?
    ensures UsesAvailable(out, b)
  {
    hide BlocksAndTree, UsesDefined, LoopsEntered, LiveFlows, AllRenamed, PhisPlaced, SingleDefinitions,
      IsConvertedBlock, Parts, Available, OperandsAvailable, Makes, IsPhiOf, Fresh;
    ConvertedFacts(src, r, out, b);
    var d := Find(out.blocks, b).value;
    var u, ps := ShapeOf(src, r, b, d);
    forall i: nat, v | i < |d.instructions| && v in ReadsOf(d.instructions[i]) ensures Available(out, b, i, v) {
      AtPosition(src, r, base, site, b, d, u, ps, i);
      KeptUses(src, r, base, site, out, b, u, ps, i - |u| - |ps|, v);
    }
    forall v | v in Reads(d.terminator) ensures Available(out, b, |d.instructions|, v) {
      TerminatorUses(src, r, base, site, out, b, v);
    }
    forall i: nat | i < |d.instructions| && d.instructions[i].Phi?
      ensures OperandsAvailable(out, b, d.instructions[i].incoming) {
      AtPosition(src, r, base, site, b, d, u, ps, i);
      PhiAt(src, r, b, d, u, ps, i);
      PhiUses(src, r, base, site, out, b, d.instructions[i]);
    }
  }

  lemma PhiAt(src: Source, r: Renaming, b: BlockId, d: Block, u: seq<Instruction>, ps: seq<Instruction>, i: nat)
    requires b in src.blocks && Shape(src, r, b, d, u, ps) && |u| <= i < |u| + |ps|
    ensures i < |d.instructions| && IsPhiOf(src, r, b, d.instructions[i])
  {
    hide IsPhiOf;
  }

  lemma BlockNoLocals(src: Source, r: Renaming, base: Value, site: map<Value, Site>, b: BlockId, d: Block)
    requires b in src.blocks && IsConvertedBlock(src, r, b, d) && Fresh(src, r, base, site)
    ensures NoLocals(d.instructions)
  {
    hide Parts, Fresh;
    var u, ps := ShapeOf(src, r, b, d);
    forall i | 0 <= i < |d.instructions|
      ensures !d.instructions[i].LoadLocal? && !d.instructions[i].StoreLocal?
      ensures d.instructions[i].Phi? ==> i < |u| + |ps|
      ensures d.instructions[i].Operation? ==> i >= |u| + |ps|
    {
      AtPosition(src, r, base, site, b, d, u, ps, i);
    }
  }

  lemma ResultIsSSA(src: Source, r: Renaming, base: Value, site: map<Value, Site>, out: Function)
    requires Ready(src, r, base, site) && IsConverted(src, r, out) && SSAProperties.Distinct(src.code.parameters)
    ensures IsSSA(out)
  {
    hide BlocksAndTree, UsesDefined, LoopsEntered, LiveFlows, AllRenamed, PhisPlaced, SingleDefinitions, Fresh,
      IsConvertedBlock, UsesAvailable, NoLocals, SSAProperties.Distinct, BlockOk;
    DefinitionsDistinct(src, r, base, site, out);
    forall b | Find(out.blocks, b).Some? ensures UsesAvailable(out, b) {
      BlockUses(src, r, base, site, out, b);
    }
    forall k | 0 <= k < |out.blocks| ensures NoLocals(out.blocks[k].instructions) {
      ConvertedAt(src, r, base, site, out, k);
      BlockNoLocals(src, r, base, site, out.blocks[k].id, out.blocks[k]);
    }
  }

  // ---- and its graph is as the source's ----

  lemma SameEdges(src: Source, r: Renaming, base: Value, site: map<Value, Site>, out: Function, a: BlockId, s: BlockId)
    requires Ready(src, r, base, site) && IsConverted(src, r, out) && a in src.blocks
    ensures Edge(SuccessorTable(out.blocks), a, s) <==> Edge(SuccessorTable(src.code.blocks), a, s)
    ensures Edge(SuccessorTable(out.blocks), a, s) ==> s in src.blocks && s != src.code.entry
  {
    hide BlocksAndTree, UsesDefined, LoopsEntered, LiveFlows, AllRenamed, PhisPlaced, Fresh, IsConvertedBlock,
      SingleDefinitions, Successors;
    BlockFacts(src, r, base, site, a);
    ConvertedFacts(src, r, out, a);
    SameSuccessors(src, r, a, Find(out.blocks, a).value);
    if s in Successors(src.blocks[a]) {
      SuccessorReachable(src, a, s);
    }
  }

  lemma WalkKept(src: Source, r: Renaming, base: Value, site: map<Value, Site>, out: Function, p: seq<BlockId>)
    requires Ready(src, r, base, site) && IsConverted(src, r, out) && IsWalk(SuccessorTable(src.code.blocks), p)
      && p[0] in src.blocks
    ensures IsWalk(SuccessorTable(out.blocks), p) && p[|p| - 1] in src.blocks
  {
    hide Ready, IsConverted, SuccessorTable;
    InTable(src, r, out, p[0]);
    if |p| > 1 {
      var rest, last := p[..|p| - 1], p[|p| - 1];
      assert Edge(SuccessorTable(src.code.blocks), p[|p| - 2], p[|p| - 2 + 1]);
      WalkPrefix(SuccessorTable(src.code.blocks), p, |p| - 2);
      hide IsWalk, Edge;
      WalkKept(src, r, base, site, out, rest);
      SameEdges(src, r, base, site, out, p[|p| - 2], last);
      WalkExtend(SuccessorTable(out.blocks), rest, last);
      assert rest + [last] == p;
    }
  }

  lemma InTable(src: Source, r: Renaming, out: Function, b: BlockId)
    requires IsConverted(src, r, out)
    ensures b in SuccessorTable(out.blocks) <==> b in src.blocks
  {
    hide IsConvertedBlock;
  }

  lemma ReachedStill(src: Source, r: Renaming, base: Value, site: map<Value, Site>, out: Function, b: BlockId)
    requires Ready(src, r, base, site) && IsConverted(src, r, out) && b in src.blocks
    ensures Reaches(SuccessorTable(out.blocks), out.entry, b)
  {
    hide SuccessorTable, UsesDefined, LoopsEntered, LiveFlows, AllRenamed, PhisPlaced, Fresh, SingleDefinitions,
      IsConvertedBlock, BlockOk;
    EntryIsRoot(src);
    assert Reaches(SuccessorTable(src.code.blocks), src.tree.root, b);
    var p :| WalkTo(SuccessorTable(src.code.blocks), p, src.tree.root, b);
    WalkKept(src, r, base, site, out, p);
    assert WalkTo(SuccessorTable(out.blocks), p, out.entry, b);
  }

  lemma BodiesOwn(src: Source, r: Renaming, base: Value, site: map<Value, Site>, out: Function, h: BlockId)
    requires Ready(src, r, base, site) && IsConverted(src, r, out)
    requires Find(out.blocks, h).Some? && Find(out.blocks, h).value.terminator.ForNext?
    ensures OwnBody(out, h)
  {
    hide BlocksAndTree, UsesDefined, LiveFlows, AllRenamed, PhisPlaced, Fresh, SingleDefinitions, Parts, BlockOk,
      Successors, SuccessorTable, LoopsEntered, LiveFlowsAt, UsesDefinedIn, BodyOk;
    BlockFacts(src, r, base, site, h);
    ConvertedFacts(src, r, out, h);
    IdIs(src, h);
    var c := Find(out.blocks, h).value;
    assert c.terminator == RenamedTerminator(r, src.blocks[h]) && c.exceptionTargets == src.blocks[h].exceptionTargets;
    assert c.terminator.result.Some? && c.terminator.body == src.blocks[h].terminator.body;
    assert c.terminator.body != c.terminator.exit && c.terminator.body !in c.exceptionTargets;
    hide IsConverted, RenamedTerminator, HeaderOk;
    forall p | Edge(SuccessorTable(out.blocks), p, c.terminator.body) ensures p == h {
      InTable(src, r, out, p);
      OnlyHeader(src, r, base, site, out, p, h);
    }
  }

  lemma OnlyHeader(src: Source, r: Renaming, base: Value, site: map<Value, Site>, out: Function, p: BlockId, h: BlockId)
    requires Ready(src, r, base, site) && IsConverted(src, r, out) && p in src.blocks && h in src.blocks
    requires src.blocks[h].terminator.ForNext?
    requires Edge(SuccessorTable(out.blocks), p, src.blocks[h].terminator.body)
    ensures p == h
  {
    hide BlocksAndTree, UsesDefined, LiveFlows, AllRenamed, PhisPlaced, Fresh, SingleDefinitions, IsConverted, BlockOk,
      Successors, SuccessorTable, LoopsEntered, LiveFlowsAt, UsesDefinedIn, BlockRenamed;
    BlockFacts(src, r, base, site, h);
    SameEdges(src, r, base, site, out, p, src.blocks[h].terminator.body);
    SourceEdge(src, p, src.blocks[h].terminator.body);
  }

  lemma SourceEdge(src: Source, p: BlockId, s: BlockId)
    requires BlocksAndTree(src) && p in src.blocks && Edge(SuccessorTable(src.code.blocks), p, s)
    ensures s in Successors(src.blocks[p])
  {
    assert BlockOk(src, p);
  }

  lemma EntryHasNoPhi(src: Source, r: Renaming, base: Value, site: map<Value, Site>, out: Function)
    requires Ready(src, r, base, site) && IsConverted(src, r, out) && src.code.entry in src.blocks
    ensures Find(out.blocks, out.entry).Some?
    ensures forall i :: 0 <= i < |Find(out.blocks, out.entry).value.instructions| ==>
      !Find(out.blocks, out.entry).value.instructions[i].Phi?
  {
    hide BlocksAndTree, UsesDefined, LoopsEntered, LiveFlows, AllRenamed, SingleDefinitions, Parts, BlockOk, Successors,
      Fresh, InIteratedFrontier;
    ConvertedFacts(src, r, out, src.code.entry);
    BlockFacts(src, r, base, site, src.code.entry);
    EntryIsPlain(src, r);
    var d := Find(out.blocks, src.code.entry).value;
    var u, ps := ShapeOf(src, r, src.code.entry, d);
    forall i | 0 <= i < |d.instructions| ensures !d.instructions[i].Phi? {
      AtPosition(src, r, base, site, src.code.entry, d, u, ps, i);
      if |u| <= i < |u| + |ps| {
        PhiAt(src, r, src.code.entry, d, u, ps, i);
      }
    }
  }

  lemma ResultIsConnected(src: Source, r: Renaming, base: Value, site: map<Value, Site>, out: Function)
    requires Ready(src, r, base, site) && IsConverted(src, r, out)
    ensures Connected(out)
  {
    hide Ready, IsConverted, SuccessorTable, OwnBody;
    Facts(src, r, base, site, out);
    EntryHasNoPhi(src, r, base, site, out);
    var succ := SuccessorTable(out.blocks);
    forall b ensures b in succ <==> b in src.blocks {
      InTable(src, r, out, b);
    }
    forall a, b | Edge(succ, a, b) ensures b in succ && b != out.entry {
      SameEdges(src, r, base, site, out, a, b);
    }
    forall b | b in succ ensures Reaches(succ, out.entry, b) && !Edge(succ, b, out.entry) {
      ReachedStill(src, r, base, site, out, b);
    }
    forall h | Find(out.blocks, h).Some? && Find(out.blocks, h).value.terminator.ForNext? ensures OwnBody(out, h) {
      BodiesOwn(src, r, base, site, out, h);
    }
  }

  lemma Facts(src: Source, r: Renaming, base: Value, site: map<Value, Site>, out: Function)
    requires Ready(src, r, base, site) && IsConverted(src, r, out)
    ensures src.code.entry in src.blocks && out.entry == src.code.entry && DistinctIds(out.blocks)
  {
    hide UsesDefined, LoopsEntered, LiveFlows, AllRenamed, PhisPlaced, Fresh, SingleDefinitions, IsConvertedBlock,
      BlocksAndTree;
    EntryIsRoot(src);
  }
}
