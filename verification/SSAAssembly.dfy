/** Putting the converted blocks together: undefined values, then phis with one operand for each
    incoming edge, then what the renaming kept. */
module SSAAssembly {
  import opened Options
  import opened Trees
  import opened DominatorTrees
  import opened IR
  import opened SSAForm
  import opened SSAMeaning
  import opened RenamingWork

  // ---- predecessors ----

  lemma {:induction false} TimesAppend(id: BlockId, successors: seq<BlockId>, s: BlockId, b: BlockId)
    ensures Times(id, successors + [s], b) == Times(id, successors, b) + (if s == b then [id] else [])
    decreases |successors|
  {
    if successors != [] {
      assert (successors + [s])[1..] == successors[1..] + [s];
      TimesAppend(id, successors[1..], s, b);
    } else {
      assert [] + [s] == [s] && [s][1..] == [];
    }
  }

  /** The list holds exactly the blocks an edge leads from. */
  lemma PredecessorsAre(src: Source, b: BlockId, p: BlockId)
    requires BlocksAndTree(src)
    ensures p in PredecessorsIn(src.code.blocks, src.blocks.Keys, b) <==>
      p in src.blocks && b in Successors(src.blocks[p])
  {
    hide SuccessorTable, DominatorTree.Of, Successors;
    InPredecessors(src.code.blocks, src.blocks.Keys, b, p);
    if p in src.blocks {
      assert BlockOk(src, p);
      var k := FindWhere(src.code.blocks, p);
      forall j | 0 <= j < |src.code.blocks| && src.code.blocks[j].id == p ensures j == k {
        assert DistinctIds(src.code.blocks);
      }
    }
  }

  /** The predecessors of each block, collected in block order. */
  method Predecessors(src: Source) returns (predecessors: map<BlockId, seq<BlockId>>)
    requires Lowered(src) && TreeOf(src)
    ensures predecessors.Keys == src.blocks.Keys
    ensures forall b :: b in predecessors ==> predecessors[b] == PredecessorsIn(src.code.blocks, src.blocks.Keys, b)
  {
    hide Lowered, TreeOf, Successors;
    predecessors := map b | b in src.blocks :: [];
    var k := 0;
    while k < |src.code.blocks|
      invariant 0 <= k <= |src.code.blocks| && predecessors.Keys == src.blocks.Keys
      invariant forall b :: b in predecessors ==>
        predecessors[b] == PredecessorsIn(src.code.blocks[..k], src.blocks.Keys, b)
    {
      var block := src.code.blocks[k];
      assert src.code.blocks[..k + 1][..k] == src.code.blocks[..k];
      if block.id in src.blocks {
        Listed(src, k);
        forall s | s in Successors(block) ensures s in predecessors {
          SuccessorReachable(src, block.id, s);
        }
        predecessors := AddPredecessor(predecessors, block.id, Successors(block));
      }
      k := k + 1;
    }
    assert src.code.blocks[..k] == src.code.blocks;
  }

  method AddPredecessor(before: map<BlockId, seq<BlockId>>, id: BlockId, successors: seq<BlockId>)
      returns (predecessors: map<BlockId, seq<BlockId>>)
    requires forall s :: s in successors ==> s in before
    ensures predecessors.Keys == before.Keys
    ensures forall b :: b in predecessors ==> predecessors[b] == before[b] + Times(id, successors, b)
  {
    predecessors := before;
    var j := 0;
    while j < |successors|
      invariant 0 <= j <= |successors| && predecessors.Keys == before.Keys
      invariant forall b :: b in predecessors ==> predecessors[b] == before[b] + Times(id, successors[..j], b)
    {
      var s := successors[j];
      assert successors[..j + 1] == successors[..j] + [s];
      forall b ensures Times(id, successors[..j + 1], b) == Times(id, successors[..j], b) + (if s == b then [id]
        else []) {
        TimesAppend(id, successors[..j], s, b);
      }
      predecessors := predecessors[s := predecessors[s] + [id]];
      j := j + 1;
    }
    assert successors[..j] == successors;
  }

  lemma Listed(src: Source, k: nat)
    requires Lowered(src) && k < |src.code.blocks| && src.code.blocks[k].id in src.blocks
    ensures src.blocks[src.code.blocks[k].id] == src.code.blocks[k]
  {
    hide SuccessorTable, DominatorTree.Of, Successors;
    FindAt(src.code.blocks, k);
    assert BlockOk(src, src.code.blocks[k].id);
  }

  // ---- phi operands ----

  /** The operands of a phi by predecessor; a predecessor listed twice gave the same value. */
  function ByBlock(incoming: seq<(Value, BlockId)>): map<BlockId, Value> {
    if incoming == [] then map[]
    else ByBlock(incoming[..|incoming| - 1])[incoming[|incoming| - 1].1 := incoming[|incoming| - 1].0]
  }

  function Ordered(operands: map<BlockId, Value>, predecessors: seq<BlockId>): seq<(Value, BlockId)>
    requires forall p :: p in predecessors ==> p in operands
  {
    seq(|predecessors|, i requires 0 <= i < |predecessors| => (operands[predecessors[i]], predecessors[i]))
  }

  lemma {:induction false} ByBlockLists(src: Source, r: Renaming, s: BlockId, x: string,
      incoming: seq<(Value, BlockId)>)
    requires forall j :: 0 <= j < |incoming| ==> ListsOne(src, r, s, x, incoming[j])
    ensures forall p :: p in ByBlock(incoming) ==> ListsOne(src, r, s, x, (ByBlock(incoming)[p], p))
  {
    hide ListsOne;
    if incoming != [] {
      ByBlockLists(src, r, s, x, incoming[..|incoming| - 1]);
      assert ListsOne(src, r, s, x, incoming[|incoming| - 1]);
    }
  }

  lemma {:induction false} ByBlockHas(incoming: seq<(Value, BlockId)>, p: BlockId)
    ensures p in ByBlock(incoming) <==> exists j :: 0 <= j < |incoming| && incoming[j].1 == p
  {
    if incoming != [] {
      var rest := incoming[..|incoming| - 1];
      ByBlockHas(rest, p);
      if j :| 0 <= j < |rest| && rest[j].1 == p {
        assert incoming[j] == rest[j];
      }
      if j :| 0 <= j < |incoming| && incoming[j].1 == p {
        if j < |rest| { assert rest[j] == incoming[j]; }
      }
    }
  }

  lemma {:induction false} FromWhere(incoming: seq<(Value, BlockId)>, p: BlockId)
    ensures From(incoming, p).Some? ==> exists j :: 0 <= j < |incoming| && incoming[j] == (From(incoming, p).value, p)
    ensures From(incoming, p) == None ==> forall j :: 0 <= j < |incoming| ==> incoming[j].1 != p
    decreases |incoming|
  {
    if incoming != [] && incoming[0].1 != p {
      FromWhere(incoming[1..], p);
      if From(incoming, p).Some? {
        var j :| 0 <= j < |incoming[1..]| && incoming[1..][j] == (From(incoming, p).value, p);
        assert incoming[j + 1] == (From(incoming, p).value, p);
      } else {
        forall j | 0 <= j < |incoming| ensures incoming[j].1 != p {
          if j > 0 { assert incoming[1..][j - 1] == incoming[j]; }
        }
      }
    }
  }

  /** Every predecessor is among the operands, once all blocks are done. */
  lemma OperandsThere(src: Source, r: Renaming, filled: set<BlockId>, s: BlockId, phi: Instruction, p: BlockId)
    requires PhiOf(src, r, filled, s, phi) && p in filled && p in src.blocks && s in Successors(src.blocks[p])
    ensures p in ByBlock(phi.incoming)
  {
    hide Successors;
    FromWhere(phi.incoming, p);
    ByBlockHas(phi.incoming, p);
  }

  /** A phi whose operands are put in the order of the predecessors is a phi of the conversion. */
  lemma OrderedIsPhi(src: Source, r: Renaming, filled: set<BlockId>, s: BlockId, phi: Instruction,
      predecessors: seq<BlockId>)
    requires BlocksAndTree(src) && PhiOf(src, r, filled, s, phi) && src.blocks.Keys <= filled
    requires predecessors == PredecessorsIn(src.code.blocks, src.blocks.Keys, s)
    requires forall p :: p in predecessors ==> p in ByBlock(phi.incoming)
    ensures IsPhiOf(src, r, s, phi.(incoming := Ordered(ByBlock(phi.incoming), predecessors)))
  {
    hide BlocksAndTree, Successors, ByBlock;
    var operands := ByBlock(phi.incoming);
    var incoming := Ordered(operands, predecessors);
    ByBlockLists(src, r, s, phi.name, phi.incoming);
    assert Sources(incoming) == predecessors;
    forall j | 0 <= j < |incoming| ensures ListsOne(src, r, s, phi.name, incoming[j]) {
      assert predecessors[j] in predecessors;
    }
    forall p | p in src.blocks && s in Successors(src.blocks[p])
      ensures From(incoming, p).Some? && p in r.tops && Top(r.undefined, r.tops[p], phi.name) == From(incoming, p)
    {
      PredecessorsAre(src, s, p);
      var i :| 0 <= i < |predecessors| && predecessors[i] == p;
      assert incoming[i].1 == p;
      FromWhere(incoming, p);
      var j :| 0 <= j < |incoming| && incoming[j] == (From(incoming, p).value, p);
      assert ListsOne(src, r, s, phi.name, (operands[p], p));
    }
  }

  /** The phis of a block, operands in the order of its predecessors. */
  method OrderedPhis(src: Source, ghost r: Renaming, ghost filled: set<BlockId>, s: BlockId, phis: seq<Instruction>,
      predecessors: seq<BlockId>)
    returns (ordered: seq<Instruction>)
    requires BlocksAndTree(src) && (s in r.phis ==> PhisOf(src, r, filled, s, phis)) && src.blocks.Keys <= filled
    requires s !in r.phis ==> phis == []
    requires predecessors == PredecessorsIn(src.code.blocks, src.blocks.Keys, s)
    ensures HasPhis(src, r, s, ordered)
  {
    hide BlocksAndTree, PhiOf, IsPhiOf, PredecessorsIn, Ordered, Successors;
    ordered := [];
    var k := 0;
    while k < |phis|
      invariant 0 <= k <= |phis| && |ordered| == k
      invariant forall j :: 0 <= j < k ==> IsPhiOf(src, r, s, ordered[j])
      invariant forall j :: 0 <= j < k ==> phis[j].Phi? && ordered[j].Phi? && ordered[j].name == phis[j].name
    {
      var phi := phis[k];
      assert PhiOf(src, r, filled, s, phi);
      PhiIsPhi(src, r, filled, s, phi);
      forall p | p in predecessors ensures p in ByBlock(phi.incoming) {
        PredecessorsAre(src, s, p);
        OperandsThere(src, r, filled, s, phi, p);
      }
      OrderedIsPhi(src, r, filled, s, phi, predecessors);
      ordered := ordered + [phi.(incoming := Ordered(ByBlock(phi.incoming), predecessors))];
      k := k + 1;
    }
    if s in r.phis {
      forall x | x in r.phis[s] ensures exists k :: 0 <= k < |ordered| && ordered[k].Phi? && ordered[k].name == x {
        assert HasPhi(phis, x);
        var k :| 0 <= k < |phis| && phis[k].Phi? && phis[k].name == x;
        assert ordered[k].name == x;
      }
    }
  }

  lemma PhiIsPhi(src: Source, r: Renaming, filled: set<BlockId>, s: BlockId, phi: Instruction)
    requires PhiOf(src, r, filled, s, phi)
    ensures phi.Phi?
  {
  }

  // ---- blocks ----

  /** One instruction for each local without a value. */
  method UndefinedValues(undefined: map<string, Value>) returns (code: seq<Instruction>)
    ensures forall k :: 0 <= k < |code| ==>
      code[k].Undefined? && code[k].name in undefined && code[k].result == undefined[code[k].name]
    ensures forall x :: x in undefined ==> Undefined(undefined[x], x) in code
    ensures forall j, k :: 0 <= j < k < |code| ==> code[j] != code[k]
  {
    code := [];
    var rest := undefined.Keys;
    while rest != {}
      invariant rest <= undefined.Keys
      invariant forall k :: 0 <= k < |code| ==>
        code[k].Undefined? && code[k].name in undefined.Keys - rest && code[k].result == undefined[code[k].name]
      invariant forall x :: x in undefined && x !in rest ==> Undefined(undefined[x], x) in code
      invariant forall j, k :: 0 <= j < k < |code| ==> code[j] != code[k]
    {
      var x :| x in rest;
      rest := rest - {x};
      code := code + [Undefined(undefined[x], x)];
    }
  }

  lemma BlockMade(src: Source, r: Renaming, b: BlockId, made: Block, undefined: seq<Instruction>,
      phis: seq<Instruction>)
    requires b in src.blocks && CreatesUndefined(src, r, b, undefined) && HasPhis(src, r, b, phis)
    requires made == Block(b, undefined + phis + Kept(r.aliases, src.blocks[b].instructions),
      RenamedTerminator(r, src.blocks[b]), src.blocks[b].exceptionTargets)
    ensures IsConvertedBlock(src, r, b, made)
  {
    hide CreatesUndefined, HasPhis, Kept, RenamedTerminator;
    assert Parts(src, r, b, made.instructions, undefined, phis);
  }

  /** The blocks made so far are those of the code before `k` that are reachable. */
  ghost predicate MadeUpTo(src: Source, r: Renaming, k: nat, made: seq<Block>)
    requires k <= |src.code.blocks|
  {
    && (forall b {:trigger Find(made, b)} :: Find(made, b).Some? <==>
      b in src.blocks && Find(src.code.blocks[..k], b).Some?)
    && (forall b {:trigger Find(made, b)} :: b in src.blocks && Find(made, b).Some? ==>
      IsConvertedBlock(src, r, b, Find(made, b).value))
    && Ids(made) == KeptIds(src.code.blocks[..k], src.blocks.Keys)
    && DistinctIds(made)
  }

  lemma MadeOne(src: Source, r: Renaming, k: nat, made: seq<Block>, next: Block)
    requires Lowered(src) && k < |src.code.blocks| && MadeUpTo(src, r, k, made)
    requires src.code.blocks[k].id in src.blocks && IsConvertedBlock(src, r, src.code.blocks[k].id, next)
    ensures MadeUpTo(src, r, k + 1, made + [next])
  {
    hide Parts, SuccessorTable, DominatorTree.Of, Successors;
    assert src.code.blocks[..k + 1] == src.code.blocks[..k] + [src.code.blocks[k]];
    assert src.code.blocks[..k + 1][..k] == src.code.blocks[..k];
    NewId(src.code.blocks, k);
    forall j | 0 <= j < |made| ensures made[j].id != next.id {
      FoundAt(made, j);
    }
    forall b ensures Find(made + [next], b) == if Find(made, b).Some? then Find(made, b) else if next.id == b
      then Some(next) else None {
      FindAppend(made, next, b);
    }
    forall b ensures Find(src.code.blocks[..k + 1], b).Some? <==>
      Find(src.code.blocks[..k], b).Some? || src.code.blocks[k].id == b {
      FindAppend(src.code.blocks[..k], src.code.blocks[k], b);
    }
  }

  lemma SkippedOne(src: Source, r: Renaming, k: nat, made: seq<Block>)
    requires k < |src.code.blocks| && MadeUpTo(src, r, k, made) && src.code.blocks[k].id !in src.blocks
    ensures MadeUpTo(src, r, k + 1, made)
  {
    hide IsConvertedBlock;
    assert src.code.blocks[..k + 1] == src.code.blocks[..k] + [src.code.blocks[k]];
    assert src.code.blocks[..k + 1][..k] == src.code.blocks[..k];
    forall b ensures Find(src.code.blocks[..k + 1], b).Some? <==>
      Find(src.code.blocks[..k], b).Some? || src.code.blocks[k].id == b {
      FindAppend(src.code.blocks[..k], src.code.blocks[k], b);
    }
  }

  lemma AllMade(src: Source, r: Renaming, made: seq<Block>, out: Function)
    requires Lowered(src) && MadeUpTo(src, r, |src.code.blocks|, made)
    requires out == src.code.(blocks := made)
    ensures IsConverted(src, r, out)
  {
    hide IsConvertedBlock, SuccessorTable, DominatorTree.Of, Find, Successors;
    assert src.code.blocks[..|src.code.blocks|] == src.code.blocks;
    forall b | b in src.blocks ensures Find(src.code.blocks, b).Some? {
      assert BlockOk(src, b);
    }
  }

  // ---- numbers not used yet ----

  /** One more than every value the code makes. */
  method NextValue(code: Function) returns (next: Value)
    ensures forall v :: v in code.parameters ==> v < next
    ensures forall k, i: nat, v: Value :: 0 <= k < |code.blocks| && Makes(code.blocks[k], i, v) ==> v < next
  {
    next := 0;
    for k := 0 to |code.parameters|
      invariant forall j :: 0 <= j < k ==> code.parameters[j] < next
    {
      if code.parameters[k] >= next {
        next := code.parameters[k] + 1;
      }
    }
    for k := 0 to |code.blocks|
      invariant forall j :: 0 <= j < |code.parameters| ==> code.parameters[j] < next
      invariant forall j, i: nat, v: Value :: 0 <= j < k && Makes(code.blocks[j], i, v) ==> v < next
    {
      var block := code.blocks[k];
      for n := 0 to |block.instructions|
        invariant forall j :: 0 <= j < |code.parameters| ==> code.parameters[j] < next
        invariant forall j, i: nat, v: Value :: 0 <= j < k && Makes(code.blocks[j], i, v) ==> v < next
        invariant forall i: nat, v: Value :: i < n && Makes(block, i, v) ==> v < next
      {
        var result := Result(block.instructions[n]);
        if result.Some? && result.value >= next {
          next := result.value + 1;
        }
      }
    }
  }

  lemma NothingMade(src: Source, base: Value)
    requires Lowered(src) && TreeOf(src)
    requires forall v :: v in src.code.parameters ==> v < base
    requires forall k, i: nat, v: Value :: 0 <= k < |src.code.blocks| && Makes(src.code.blocks[k], i, v) ==> v < base
    ensures var r := Renaming(map[], map[], map[], map[], map[]);
      Fresh(src, r, base, map[]) && Numbered(base, map[], base) && AllDone(src, r, map[], map[], {})
        && AllPhis(src, r, {}, map[])
  {
    hide SuccessorTable, DominatorTree.Of, Successors, Find, Makes, SingleDefinitions, UsesDefined, LoopsEntered;
    forall b: BlockId, i: nat, v: Value | b in src.blocks && Makes(src.blocks[b], i, v) ensures v < base {
      assert BlockOk(src, b);
      var k := FindWhere(src.code.blocks, b);
    }
  }

  /** Once every block is done, the renaming is complete. */
  lemma RenamingComplete(src: Source, r: Renaming, instructions: map<BlockId, seq<Instruction>>,
      terminators: map<BlockId, Terminator>, filled: set<BlockId>, phis: map<BlockId, seq<Instruction>>)
    requires AllDone(src, r, instructions, terminators, {}) && AllPhis(src, r, filled, phis)
      && instructions.Keys == src.blocks.Keys
    ensures TreeOf(src) && AllRenamed(src, r)
  {
    hide BlockRenamed, PhisOf, RenamedTerminator;
    forall b | b in src.blocks ensures BlockRenamed(src, r, b) {
      assert DoneAt(src, r, instructions, terminators, b);
    }
  }

  lemma PlacedStays(src: Source, r: Renaming, r': Renaming)
    requires src.live.Keys == src.blocks.Keys && PhisPlaced(src, r) && Grew(r, r')
    ensures PhisPlaced(src, r')
  {
  }

  lemma BlockKept(src: Source, r: Renaming, instructions: map<BlockId, seq<Instruction>>,
      terminators: map<BlockId, Terminator>, b: BlockId)
    requires AllDone(src, r, instructions, terminators, {}) && b in instructions
    ensures b in src.blocks && b in terminators
    ensures instructions[b] == Kept(r.aliases, src.blocks[b].instructions)
      && terminators[b] == RenamedTerminator(r, src.blocks[b])
  {
    hide BlockRenamed, Kept, RenamedTerminator;
    assert DoneAt(src, r, instructions, terminators, b);
  }

  lemma LiveKeys(src: Source)
    requires LiveFlows(src)
    ensures src.live.Keys == src.blocks.Keys
  {
  }

  lemma NoneMade(src: Source, r: Renaming)
    ensures MadeUpTo(src, r, 0, [])
  {
  }

  lemma RootReachable(src: Source, tops: map<BlockId, Stacks>)
    requires TreeOf(src)
    ensures src.tree.root in src.blocks && TopsAre(map[], TopsIn(src, tops, src.tree.root))
  {
  }

  lemma ReadyNow(src: Source, r: Renaming, base: Value, site: map<Value, Site>)
    requires Lowered(src) && TreeOf(src) && LiveFlows(src) && AllRenamed(src, r)
    requires src.live.Keys == src.blocks.Keys && PhisPlaced(src, r) && Fresh(src, r, base, site)
    ensures Ready(src, r, base, site)
  {
    hide Lowered, TreeOf, LiveFlows, AllRenamed, PhisPlaced, Fresh;
  }

  lemma EverythingBelowRoot(src: Source)
    requires TreeOf(src)
    ensures Below(src, src.tree.root) == src.blocks.Keys
  {
    forall b | b in src.blocks ensures src.tree.root in Above(src, b) {
      RootAbove(src.tree.root, src.tree.depth, src.tree.idom, b);
    }
  }
}
