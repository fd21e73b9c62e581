/** The values of a function in SSA form renumbered densely, in the order they are defined: the
    numbering is total and injective, and the function does what it did. */
module Renumbering {
  import opened Graphs
  import opened Options
  import opened IR
  import opened SSAForm
  import opened SSAProperties

  type Numbering = map<Value, Value>

  function RenamedInstruction(m: Numbering, i: Instruction): Instruction {
    match i
    case LoadLocal(r, n) => LoadLocal(Resolve(m, r), n)
    case StoreLocal(n, v) => StoreLocal(n, Resolve(m, v))
    case Operation(r, op, vs) => Operation(if r.Some? then Some(Resolve(m, r.value)) else None, op, ResolveAll(m, vs))
    case Phi(r, n, incoming) => Phi(Resolve(m, r), n, RenamedIncoming(m, incoming))
    case Undefined(r, n) => Undefined(Resolve(m, r), n)
  }

  function RenamedIncoming(m: Numbering, incoming: seq<(Value, BlockId)>): seq<(Value, BlockId)> {
    seq(|incoming|, i requires 0 <= i < |incoming| => (Resolve(m, incoming[i].0), incoming[i].1))
  }

  function RenamedCode(m: Numbering, code: seq<Instruction>): seq<Instruction> {
    seq(|code|, i requires 0 <= i < |code| => RenamedInstruction(m, code[i]))
  }

  function RenumberedTerminator(m: Numbering, t: Terminator): Terminator {
    var t' := ResolveTerminator(m, t);
    if t'.ForNext? && t'.result.Some? then t'.(result := Some(Resolve(m, t'.result.value))) else t'
  }

  function RenamedBlock(m: Numbering, b: Block): Block {
    Block(b.id, RenamedCode(m, b.instructions), RenumberedTerminator(m, b.terminator), b.exceptionTargets)
  }

  function RenamedBlocks(m: Numbering, blocks: seq<Block>): seq<Block> {
    seq(|blocks|, i requires 0 <= i < |blocks| => RenamedBlock(m, blocks[i]))
  }

  function Renamed(m: Numbering, f: Function): Function {
    Function(ResolveAll(m, f.parameters), f.entry, RenamedBlocks(m, f.blocks))
  }

  /** Each defined value gets its position. */
  ghost predicate Numbers(m: Numbering, definitions: seq<Value>) {
    && (forall i :: 0 <= i < |definitions| ==> definitions[i] in m && m[definitions[i]] == i)
    && (forall v :: v in m ==> v in definitions)
    && |m| == |definitions|
  }

  // ---- the numbering ----

  method Numbered(m0: Numbering, ghost before: seq<Value>, v: Value) returns (m: Numbering)
    requires Numbers(m0, before) && v !in before
    ensures Numbers(m, before + [v])
  {
    m := m0[v := |m0|];
    assert m.Keys == m0.Keys + {v} && |m| == |m.Keys| && |m0| == |m0.Keys|;
  }

  method NumberAll(m0: Numbering, ghost before: seq<Value>, vs: seq<Value>) returns (m: Numbering)
    requires Numbers(m0, before) && Distinct(before + vs)
    ensures Numbers(m, before + vs)
  {
    hide Numbers, Distinct;
    m := m0;
    assert before + vs[..0] == before;
    for k := 0 to |vs|
      invariant Numbers(m, before + vs[..k])
    {
      assert vs[..k + 1] == vs[..k] + [vs[k]];
      NextDistinct(before, vs[..k], vs[k], vs);
      m := Numbered(m, before + vs[..k], vs[k]);
      assert before + vs[..k] + [vs[k]] == before + vs[..k + 1];
    }
    assert vs[..|vs|] == vs;
  }

  /** The instruction results of a block, then the item of its loop. */
  method NumberBlock(m0: Numbering, ghost before: seq<Value>, b: Block) returns (m: Numbering)
    requires Numbers(m0, before) && Distinct(before + Defines(b))
    ensures Numbers(m, before + Defines(b))
  {
    hide Numbers, Distinct, Results;
    m := m0;
    ResultsStep(b.instructions, 0);
    assert before + Results(b.instructions[..0]) == before;
    for k := 0 to |b.instructions|
      invariant Numbers(m, before + Results(b.instructions[..k]))
    {
      ResultsPrefix(b.instructions, k + 1);
      ResultsStep(b.instructions, k);
      var result := Result(b.instructions[k]);
      if result.Some? {
        NextDistinct(before, Results(b.instructions[..k]), result.value, Defines(b));
        m := Numbered(m, before + Results(b.instructions[..k]), result.value);
        assert before + Results(b.instructions[..k]) + [result.value] == before + Results(b.instructions[..k + 1]);
      } else {
        assert Results(b.instructions[..k + 1]) == Results(b.instructions[..k]);
      }
    }
    assert b.instructions[..|b.instructions|] == b.instructions;
    var result := ResultOf(b.terminator);
    if result.Some? {
      NextDistinct(before, Results(b.instructions), result.value, Defines(b));
      m := Numbered(m, before + Results(b.instructions), result.value);
      assert before + Results(b.instructions) + [result.value] == before + Defines(b);
    } else {
      assert Results(b.instructions) == Defines(b);
    }
  }

  lemma ResultsStep(code: seq<Instruction>, k: nat)
    requires k <= |code|
    ensures Results(code[..0]) == []
    ensures k < |code| ==>
      Results(code[..k + 1]) == Results(code[..k]) + (if Result(code[k]).Some? then [Result(code[k]).value] else [])
  {
    if k < |code| {
      assert code[..k + 1][..k] == code[..k];
    }
  }

  lemma {:induction false} ResultsPrefix(code: seq<Instruction>, k: nat)
    requires k <= |code|
    ensures Results(code[..k]) <= Results(code)
  {
    if k < |code| {
      var rest := code[..|code| - 1];
      assert rest[..k] == code[..k];
      ResultsPrefix(rest, k);
    } else {
      assert code[..k] == code;
    }
  }

  lemma NextDistinct(before: seq<Value>, here: seq<Value>, v: Value, all: seq<Value>)
    requires Distinct(before + all) && here + [v] <= all
    ensures v !in before + here
  {
    var n := |before| + |here|;
    assert all[|here|] == (here + [v])[|here|];
    assert (before + all)[n] == v;
    forall i | 0 <= i < n ensures (before + here)[i] != v {
      if i >= |before| {
        assert all[i - |before|] == (here + [v])[i - |before|];
      }
      assert (before + all)[i] == (before + here)[i];
    }
  }

  lemma {:induction false} AllDefinedPrefix(blocks: seq<Block>, k: nat)
    requires k <= |blocks|
    ensures AllDefined(blocks[..k]) <= AllDefined(blocks)
  {
    if k < |blocks| {
      var rest := blocks[..|blocks| - 1];
      assert rest[..k] == blocks[..k];
      AllDefinedPrefix(rest, k);
    } else {
      assert blocks[..k] == blocks;
    }
  }

  lemma PrefixDistinct(s: seq<Value>, t: seq<Value>)
    requires s <= t && Distinct(t)
    ensures Distinct(s)
  {
  }

  method Renumber(f: Function) returns (out: Function)
    requires Distinct(Definitions(f))
    ensures exists m :: Numbers(m, Definitions(f)) && out == Renamed(m, f)
  {
    hide Numbers, Distinct, Defines;
    var mapping: Numbering := map[];
    NoneNumbered();
    ParametersFirst(f);
    mapping := NumberAll(mapping, [], f.parameters);
    assert [] + f.parameters == f.parameters + AllDefined(f.blocks[..0]);
    for k := 0 to |f.blocks|
      invariant Numbers(mapping, f.parameters + AllDefined(f.blocks[..k]))
    {
      BlockNext(f, k);
      mapping := NumberBlock(mapping, f.parameters + AllDefined(f.blocks[..k]), f.blocks[k]);
    }
    assert f.blocks[..|f.blocks|] == f.blocks;
    out := Renamed(mapping, f);
  }

  lemma NoneNumbered()
    ensures Numbers(map[], [])
  {
  }

  lemma ParametersFirst(f: Function)
    requires Distinct(Definitions(f))
    ensures Distinct([] + f.parameters)
  {
    PrefixDistinct([] + f.parameters, Definitions(f));
  }

  lemma BlockNext(f: Function, k: nat)
    requires Distinct(Definitions(f)) && k < |f.blocks|
    ensures Distinct(f.parameters + AllDefined(f.blocks[..k]) + Defines(f.blocks[k]))
    ensures f.parameters + AllDefined(f.blocks[..k]) + Defines(f.blocks[k]) == f.parameters
      + AllDefined(f.blocks[..k + 1])
  {
    hide Defines;
    assert f.blocks[..k + 1][..k] == f.blocks[..k];
    AllDefinedPrefix(f.blocks, k + 1);
    PrefixDistinct(f.parameters + AllDefined(f.blocks[..k + 1]), Definitions(f));
    assert f.parameters + AllDefined(f.blocks[..k]) + Defines(f.blocks[k]) == f.parameters
      + AllDefined(f.blocks[..k + 1]);
  }

  // ---- the renumbered function defines 0, 1, 2, ... ----

  lemma ResultRenamed(m: Numbering, i: Instruction)
    ensures Result(RenamedInstruction(m, i)) == if Result(i).Some? then Some(Resolve(m, Result(i).value)) else None
  {
  }

  lemma {:induction false} ResultsRenamed(m: Numbering, code: seq<Instruction>)
    ensures Results(RenamedCode(m, code)) == ResolveAll(m, Results(code))
  {
    hide Result, RenamedInstruction, Resolve;
    if code != [] {
      var rest := code[..|code| - 1];
      ResultsRenamed(m, rest);
      ResultsStep(code, |code| - 1);
      ResultsStep(RenamedCode(m, code), |code| - 1);
      assert code[..|code| - 1 + 1] == code && RenamedCode(m, code)[..|code| - 1 + 1] == RenamedCode(m, code);
      assert RenamedCode(m, code)[..|code| - 1] == RenamedCode(m, rest);
      ResultRenamed(m, code[|code| - 1]);
    }
  }

  lemma DefinesRenamed(m: Numbering, b: Block)
    ensures Defines(RenamedBlock(m, b)) == ResolveAll(m, Defines(b))
  {
    ResultsRenamed(m, b.instructions);
  }

  lemma {:induction false} AllDefinedRenamed(m: Numbering, blocks: seq<Block>)
    ensures AllDefined(RenamedBlocks(m, blocks)) == ResolveAll(m, AllDefined(blocks))
  {
    hide Defines, RenamedBlock;
    if blocks != [] {
      var rest := blocks[..|blocks| - 1];
      AllDefinedRenamed(m, rest);
      DefinesRenamed(m, blocks[|blocks| - 1]);
      assert RenamedBlocks(m, blocks)[..|blocks| - 1] == RenamedBlocks(m, rest);
      assert AllDefined(RenamedBlocks(m, blocks)) == AllDefined(RenamedBlocks(m, rest))
        + Defines(RenamedBlock(m, blocks[|blocks| - 1]));
      assert ResolveAll(m, AllDefined(rest) + Defines(blocks[|blocks| - 1])) == ResolveAll(m, AllDefined(rest))
        + ResolveAll(m, Defines(blocks[|blocks| - 1]));
    }
  }

  /** The values are numbered densely, in the order of their definitions. */
  lemma Dense(m: Numbering, f: Function)
    requires Numbers(m, Definitions(f))
    ensures Definitions(Renamed(m, f)) == seq(|Definitions(f)|, i => i)
    ensures Distinct(Definitions(Renamed(m, f)))
  {
    hide RenamedBlocks, AllDefined;
    AllDefinedRenamed(m, f.blocks);
    var definitions := Definitions(Renamed(m, f));
    assert definitions == ResolveAll(m, Definitions(f));
    forall i | 0 <= i < |definitions| ensures definitions[i] == i {
      assert Definitions(f)[i] in m;
    }
  }

  ghost predicate Injective(m: Numbering) {
    forall v, w :: v in m && w in m && m[v] == m[w] ==> v == w
  }

  lemma NumbersInjective(m: Numbering, definitions: seq<Value>)
    requires Numbers(m, definitions)
    ensures Injective(m)
  {
    forall v, w | v in m && w in m && m[v] == m[w] ensures v == w {
      assert v in definitions && w in definitions;
      var i :| 0 <= i < |definitions| && definitions[i] == v;
      var j :| 0 <= j < |definitions| && definitions[j] == w;
    }
  }

  // ---- every value used has a number ----

  ghost predicate CodeNumbered(m: Numbering, i: Instruction) {
    && (Result(i).Some? ==> Result(i).value in m)
    && (forall v :: v in ReadsOf(i) ==> v in m)
    && (i.Phi? ==> forall j :: 0 <= j < |i.incoming| ==> i.incoming[j].0 in m)
  }

  ghost predicate BlockNumbered(m: Numbering, b: Block) {
    && (forall k :: 0 <= k < |b.instructions| ==> CodeNumbered(m, b.instructions[k]))
    && (forall v :: v in Reads(b.terminator) ==> v in m)
    && (ResultOf(b.terminator).Some? ==> ResultOf(b.terminator).value in m)
  }

  ghost predicate Total(m: Numbering, f: Function) {
    && (forall k :: 0 <= k < |f.blocks| ==> BlockNumbered(m, f.blocks[k]))
    && (forall v :: v in f.parameters ==> v in m)
  }

  lemma DefinedNumbered(m: Numbering, f: Function, k: nat, v: Value)
    requires Numbers(m, Definitions(f)) && k < |f.blocks| && v in Defines(f.blocks[k])
    ensures v in m
  {
    InAllDefined(f.blocks, v);
    assert v in Definitions(f);
  }

  lemma ItemNumbered(m: Numbering, f: Function, b: BlockId, v: Value)
    requires Numbers(m, Definitions(f)) && ItemOf(f, b, v)
    ensures v in m
  {
    var h :| Find(f.blocks, h).Some? && var t := Find(f.blocks, h).value.terminator; t.ForNext? && t.body == b && t.result == Some(v);
    var k := FindWhere(f.blocks, h);
    DefinedNumbered(m, f, k, v);
  }

  lemma AvailableNumbered(m: Numbering, f: Function, b: BlockId, i: nat, v: Value)
    requires Numbers(m, Definitions(f)) && Available(f, b, i, v)
    ensures v in m
  {
    hide Numbers, StrictlyDominates, ItemOf;
    if v in f.parameters {
      assert v in Definitions(f);
      InDefinitions(m, f, v);
    } else if ItemOf(f, b, v) {
      ItemNumbered(m, f, b, v);
    } else if c :| DefinedAbove(f, c, b, v) {
      if ItemOf(f, c, v) {
        ItemNumbered(m, f, c, v);
      } else {
        var k := FindWhere(f.blocks, c);
        DefinedNumbered(m, f, k, v);
      }
    } else {
      var k := FindWhere(f.blocks, b);
      ResultsPrefix(f.blocks[k].instructions, i);
      DefinedNumbered(m, f, k, v);
    }
  }

  lemma InDefinitions(m: Numbering, f: Function, v: Value)
    requires Numbers(m, Definitions(f)) && v in Definitions(f)
    ensures v in m
  {
  }

  lemma BlockIsNumbered(m: Numbering, f: Function, k: nat)
    requires Numbers(m, Definitions(f)) && IsSSA(f) && DistinctIds(f.blocks) && k < |f.blocks|
    ensures BlockNumbered(m, f.blocks[k])
  {
    hide Numbers, Available, Definitions, Defines, Distinct;
    var b := f.blocks[k];
    FindAt(f.blocks, k);
    assert UsesAvailable(f, b.id);
    forall i | 0 <= i < |b.instructions| ensures CodeNumbered(m, b.instructions[i]) {
      var code := b.instructions[i];
      if Result(code).Some? {
        InResults(b.instructions, Result(code).value);
        ResultIsDefined(b, Result(code).value);
        DefinedNumbered(m, f, k, Result(code).value);
      }
      forall v | v in ReadsOf(code) ensures v in m {
        AvailableNumbered(m, f, b.id, i, v);
      }
      if code.Phi? {
        forall j | 0 <= j < |code.incoming| ensures code.incoming[j].0 in m {
          assert AvailableAtEnd(f, code.incoming[j].1, code.incoming[j].0);
          var p := Find(f.blocks, code.incoming[j].1).value;
          AvailableNumbered(m, f, code.incoming[j].1, |p.instructions|, code.incoming[j].0);
        }
      }
    }
    forall v | v in Reads(b.terminator) ensures v in m {
      AvailableNumbered(m, f, b.id, |b.instructions|, v);
    }
    if ResultOf(b.terminator).Some? {
      ItemIsDefined(b);
      DefinedNumbered(m, f, k, ResultOf(b.terminator).value);
    }
  }

  lemma ResultIsDefined(b: Block, v: Value)
    requires v in Results(b.instructions)
    ensures v in Defines(b)
  {
  }

  lemma ItemIsDefined(b: Block)
    requires ResultOf(b.terminator).Some?
    ensures ResultOf(b.terminator).value in Defines(b)
  {
    var s := Results(b.instructions);
    assert Defines(b)[|s|] == ResultOf(b.terminator).value;
  }

  lemma NumberingIsTotal(m: Numbering, f: Function)
    requires Numbers(m, Definitions(f)) && IsSSA(f) && DistinctIds(f.blocks)
    ensures Total(m, f)
  {
    hide BlockNumbered, IsSSA, Numbers;
    forall k | 0 <= k < |f.blocks| ensures BlockNumbered(m, f.blocks[k]) {
      BlockIsNumbered(m, f, k);
    }
    forall v | v in f.parameters ensures v in m {
      assert v in Definitions(f);
      InDefinitions(m, f, v);
    }
  }

  // ---- the renumbered function is in SSA form ----

  lemma {:induction false} FindRenamed(m: Numbering, blocks: seq<Block>, id: BlockId)
    ensures Find(RenamedBlocks(m, blocks), id) == if Find(blocks, id).Some?
      then Some(RenamedBlock(m, Find(blocks, id).value)) else None
    decreases |blocks|
  {
    hide RenumberedTerminator, RenamedCode;
    if blocks != [] {
      assert RenamedBlocks(m, blocks)[1..] == RenamedBlocks(m, blocks[1..]);
      FindRenamed(m, blocks[1..], id);
    }
  }

  lemma SameSuccessors(m: Numbering, b: Block)
    ensures Successors(RenamedBlock(m, b)) == Successors(b)
  {
    hide NewTargets;
  }

  lemma SameTable(m: Numbering, blocks: seq<Block>)
    ensures SuccessorTable(RenamedBlocks(m, blocks)) == SuccessorTable(blocks)
  {
    hide Successors, RenamedBlock, SuccessorTable, Find;
    var t, t' := SuccessorTable(blocks), SuccessorTable(RenamedBlocks(m, blocks));
    forall id ensures id in t <==> id in t' {
      FindRenamed(m, blocks, id);
    }
    forall id | id in t ensures t[id] == t'[id] {
      FindRenamed(m, blocks, id);
      SameSuccessors(m, Find(blocks, id).value);
    }
  }

  lemma ResolveIn(m: Numbering, s: seq<Value>, v: Value)
    requires v in s
    ensures Resolve(m, v) in ResolveAll(m, s)
  {
    var i :| 0 <= i < |s| && s[i] == v;
    assert ResolveAll(m, s)[i] == Resolve(m, v);
  }

  lemma ItemRenamed(m: Numbering, f: Function, b: BlockId, v: Value)
    requires ItemOf(f, b, v)
    ensures ItemOf(Renamed(m, f), b, Resolve(m, v))
  {
    hide RenamedCode, Find;
    var h :| Find(f.blocks, h).Some? && var t := Find(f.blocks, h).value.terminator; t.ForNext? && t.body == b && t.result == Some(v);
    FindRenamed(m, f.blocks, h);
    var t := Find(RenamedBlocks(m, f.blocks), h).value.terminator;
    assert t.ForNext? && t.body == b && t.result == Some(Resolve(m, v));
  }

  lemma AboveRenamed(m: Numbering, f: Function, c: BlockId, b: BlockId, v: Value)
    requires DefinedAbove(f, c, b, v)
    ensures DefinedAbove(Renamed(m, f), c, b, Resolve(m, v))
  {
    hide ItemOf, StrictlyDominates, Find, RenumberedTerminator;
    SameTable(m, f.blocks);
    FindRenamed(m, f.blocks, c);
    if ItemOf(f, c, v) {
      ItemRenamed(m, f, c, v);
    } else {
      ResultsRenamed(m, Find(f.blocks, c).value.instructions);
      ResolveIn(m, Results(Find(f.blocks, c).value.instructions), v);
    }
  }

  lemma AvailableRenamed(m: Numbering, f: Function, b: BlockId, i: nat, v: Value)
    requires Available(f, b, i, v)
    ensures Available(Renamed(m, f), b, i, Resolve(m, v))
  {
    hide ItemOf, DefinedAbove, Find, RenumberedTerminator, Resolve;
    if v in f.parameters {
      ResolveIn(m, f.parameters, v);
    } else if c :| DefinedAbove(f, c, b, v) {
      AboveRenamed(m, f, c, b, v);
    } else if ItemOf(f, b, v) {
      ItemRenamed(m, f, b, v);
    } else {
      FindRenamed(m, f.blocks, b);
      var code := Find(f.blocks, b).value.instructions;
      assert RenamedCode(m, code)[..i] == RenamedCode(m, code[..i]);
      ResultsRenamed(m, code[..i]);
      ResolveIn(m, Results(code[..i]), v);
    }
  }

  lemma EndRenamed(m: Numbering, f: Function, p: BlockId, v: Value)
    requires AvailableAtEnd(f, p, v)
    ensures AvailableAtEnd(Renamed(m, f), p, Resolve(m, v))
  {
    hide Available, Find, RenumberedTerminator, Resolve;
    FindRenamed(m, f.blocks, p);
    AvailableRenamed(m, f, p, |Find(f.blocks, p).value.instructions|, v);
  }

  lemma SameIds(m: Numbering, blocks: seq<Block>)
    ensures Ids(RenamedBlocks(m, blocks)) == Ids(blocks)
  {
  }

  lemma {:induction false} SamePredecessors(m: Numbering, blocks: seq<Block>, keep: set<BlockId>, b: BlockId)
    ensures PredecessorsIn(RenamedBlocks(m, blocks), keep, b) == PredecessorsIn(blocks, keep, b)
  {
    hide Successors;
    if blocks != [] {
      var rest := blocks[..|blocks| - 1];
      SamePredecessors(m, rest, keep, b);
      assert RenamedBlocks(m, blocks)[..|blocks| - 1] == RenamedBlocks(m, rest);
      SameSuccessors(m, blocks[|blocks| - 1]);
    }
  }

  lemma OperandsRenamed(m: Numbering, f: Function, b: BlockId, incoming: seq<(Value, BlockId)>)
    requires OperandsAvailable(f, b, incoming)
    ensures OperandsAvailable(Renamed(m, f), b, RenamedIncoming(m, incoming))
  {
    hide AvailableAtEnd, PredecessorsIn, Resolve;
    SameIds(m, f.blocks);
    SamePredecessors(m, f.blocks, (set p | p in Ids(f.blocks)), b);
    assert Sources(RenamedIncoming(m, incoming)) == Sources(incoming);
    forall j | 0 <= j < |incoming| ensures AvailableAtEnd(Renamed(m, f), RenamedIncoming(m, incoming)[j].1,
      RenamedIncoming(m, incoming)[j].0) {
      EndRenamed(m, f, incoming[j].1, incoming[j].0);
    }
  }

  lemma UsesRenamed(m: Numbering, f: Function, b: BlockId)
    requires Find(f.blocks, b).Some? && UsesAvailable(f, b)
    ensures Find(Renamed(m, f).blocks, b).Some? && UsesAvailable(Renamed(m, f), b)
  {
    hide Available, OperandsAvailable, Find, Resolve;
    FindRenamed(m, f.blocks, b);
    var block, block' := Find(f.blocks, b).value, Find(Renamed(m, f).blocks, b).value;
    forall i: nat, v | i < |block'.instructions| && v in ReadsOf(block'.instructions[i])
      ensures Available(Renamed(m, f), b, i, v) {
      var w := ReadBefore(m, block.instructions[i], v);
      AvailableRenamed(m, f, b, i, w);
    }
    forall v | v in Reads(block'.terminator) ensures Available(Renamed(m, f), b, |block'.instructions|, v) {
      var w := ReadAtEnd(m, block.terminator, v);
      AvailableRenamed(m, f, b, |block.instructions|, w);
    }
    forall i: nat | i < |block'.instructions| && block'.instructions[i].Phi?
      ensures OperandsAvailable(Renamed(m, f), b, block'.instructions[i].incoming) {
      OperandsRenamed(m, f, b, block.instructions[i].incoming);
    }
  }

  lemma ReadBefore(m: Numbering, i: Instruction, v: Value) returns (w: Value)
    requires v in ReadsOf(RenamedInstruction(m, i))
    ensures w in ReadsOf(i) && Resolve(m, w) == v
  {
    if i.StoreLocal? {
      w := i.value;
    } else {
      var k :| 0 <= k < |i.operands| && ResolveAll(m, i.operands)[k] == v;
      w := i.operands[k];
    }
  }

  lemma ReadAtEnd(m: Numbering, t: Terminator, v: Value) returns (w: Value)
    requires v in Reads(RenumberedTerminator(m, t))
    ensures w in Reads(t) && Resolve(m, w) == v
  {
    match t {
      case Return(vs) => var i :| 0 <= i < |vs| && ResolveAll(m, vs)[i] == v; w := vs[i];
      case Raise(vs) => var i :| 0 <= i < |vs| && ResolveAll(m, vs)[i] == v; w := vs[i];
      case Branch(c, _, _) => w := c;
      case ForNext(it, _, _, _, _) => w := it;
    }
  }

  lemma RenamedIsSSA(m: Numbering, f: Function)
    requires IsSSA(f) && Numbers(m, Definitions(f))
    ensures IsSSA(Renamed(m, f))
  {
    hide UsesAvailable, Definitions, Distinct, Find, Numbers;
    Dense(m, f);
    forall b | Find(Renamed(m, f).blocks, b).Some? ensures UsesAvailable(Renamed(m, f), b) {
      FindRenamed(m, f.blocks, b);
      UsesRenamed(m, f, b);
    }
    forall k | 0 <= k < |f.blocks| ensures NoLocals(RenamedCode(m, f.blocks[k].instructions)) {
      assert NoLocals(f.blocks[k].instructions);
      StillNoLocals(m, f.blocks[k].instructions);
    }
  }

  lemma StillNoLocals(m: Numbering, code: seq<Instruction>)
    requires NoLocals(code)
    ensures NoLocals(RenamedCode(m, code))
  {
    forall i, j | 0 <= i < j < |code| && RenamedCode(m, code)[j].Phi? ensures !RenamedCode(m, code)[i].Operation? {
      assert code[j].Phi?;
    }
  }

  lemma OwnBodyRenamed(m: Numbering, f: Function, h: BlockId)
    requires Find(f.blocks, h).Some? && Find(f.blocks, h).value.terminator.ForNext? && OwnBody(f, h)
    ensures Find(Renamed(m, f).blocks, h).Some? && Find(Renamed(m, f).blocks, h).value.terminator.ForNext?
      && OwnBody(Renamed(m, f), h)
  {
    hide SuccessorTable, Find, RenamedCode;
    SameTable(m, f.blocks);
    FindRenamed(m, f.blocks, h);
  }

  lemma PlainRenamed(m: Numbering, code: seq<Instruction>)
    requires forall i :: 0 <= i < |code| ==> !code[i].Phi?
    ensures forall i :: 0 <= i < |RenamedCode(m, code)| ==> !RenamedCode(m, code)[i].Phi?
  {
  }

  lemma DistinctRenamed(m: Numbering, blocks: seq<Block>)
    requires DistinctIds(blocks)
    ensures DistinctIds(RenamedBlocks(m, blocks))
  {
  }

  lemma RenamedIsConnected(m: Numbering, f: Function)
    requires Connected(f)
    ensures Connected(Renamed(m, f))
  {
    hide SuccessorTable, Find, OwnBody, RenamedCode, RenamedBlocks, RenumberedTerminator, DistinctIds;
    SameTable(m, f.blocks);
    DistinctRenamed(m, f.blocks);
    forall h | Find(Renamed(m, f).blocks, h).Some? && Find(Renamed(m, f).blocks, h).value.terminator.ForNext?
      ensures OwnBody(Renamed(m, f), h) {
      FindRenamed(m, f.blocks, h);
      HeaderBefore(m, Find(f.blocks, h).value);
      assert OwnBody(f, h);
      OwnBodyRenamed(m, f, h);
    }
    FindRenamed(m, f.blocks, f.entry);
    if Find(f.blocks, f.entry).Some? {
      PlainRenamed(m, Find(f.blocks, f.entry).value.instructions);
    }
  }

  lemma HeaderBefore(m: Numbering, b: Block)
    ensures RenamedBlock(m, b).terminator.ForNext? == b.terminator.ForNext?
  {
  }

  // ---- the renumbered function does what it did ----

  /** The values have moved to their numbers. */
  ghost predicate Moved<V, W>(sem: Semantics<V, W>, m: Numbering, s: State<V, W>, t: State<V, W>) {
    && s.locals == t.locals && s.world == t.world && s.trace == t.trace
    && EnvMoved(sem, m, s.env, t.env)
  }

  ghost predicate EnvMoved<V, W>(sem: Semantics<V, W>, m: Numbering, env: map<Value, V>, env': map<Value, V>) {
    forall v {:trigger m[v]} {:trigger Resolve(m, v)} :: v in m ==> Get(sem, env, v) == Get(sem, env', Resolve(m, v))
  }

  lemma SetMoved<V, W>(sem: Semantics<V, W>, m: Numbering, env: map<Value, V>, env': map<Value, V>, v: Value, x: V)
    requires Injective(m) && EnvMoved(sem, m, env, env') && v in m
    ensures EnvMoved(sem, m, env[v := x], env'[Resolve(m, v) := x])
  {
    forall w | w in m ensures Get(sem, env[v := x], w) == Get(sem, env'[Resolve(m, v) := x], Resolve(m, w)) {
      assert Get(sem, env, w) == Get(sem, env', Resolve(m, w));
    }
  }

  lemma GetsMoved<V, W>(sem: Semantics<V, W>, m: Numbering, env: map<Value, V>, env': map<Value, V>, vs: seq<Value>)
    requires EnvMoved(sem, m, env, env') && forall v :: v in vs ==> v in m
    ensures GetAll(sem, env, vs) == GetAll(sem, env', ResolveAll(m, vs))
  {
    forall i | 0 <= i < |vs| ensures Get(sem, env, vs[i]) == Get(sem, env', ResolveAll(m, vs)[i]) {
      assert vs[i] in m;
      assert Get(sem, env, vs[i]) == Get(sem, env', Resolve(m, vs[i]));
    }
  }

  lemma DoMoved<V, W>(sem: Semantics<V, W>, m: Numbering, i: Instruction, s: State<V, W>, t: State<V, W>)
    requires Injective(m) && Moved(sem, m, s, t) && CodeNumbered(m, i)
    ensures Moved(sem, m, Do(sem, i, s), Do(sem, RenamedInstruction(m, i), t))
  {
    hide EnvMoved, Injective;
    match i {
      case LoadLocal(r, n) => SetMoved(sem, m, s.env, t.env, r, Local(sem, s.locals, n));
      case StoreLocal(n, v) =>
        assert v in ReadsOf(i);
        GetMoved(sem, m, s.env, t.env, v);
      case Operation(r, op, vs) =>
        GetsMoved(sem, m, s.env, t.env, vs);
        if r.Some? {
          SetMoved(sem, m, s.env, t.env, r.value, sem.apply(op, GetAll(sem, s.env, vs), s.world).0);
        }
      case Phi(_, _, _) =>
      case Undefined(r, n) => SetMoved(sem, m, s.env, t.env, r, sem.undefined(n));
    }
  }

  lemma GetMoved<V, W>(sem: Semantics<V, W>, m: Numbering, env: map<Value, V>, env': map<Value, V>, v: Value)
    requires EnvMoved(sem, m, env, env') && v in m
    ensures Get(sem, env, v) == Get(sem, env', Resolve(m, v))
  {
  }

  lemma {:induction false} DoAllMoved<V, W>(sem: Semantics<V, W>, m: Numbering, code: seq<Instruction>, s: State<V, W>,
      t: State<V, W>)
    requires Injective(m) && Moved(sem, m, s, t) && forall k :: 0 <= k < |code| ==> CodeNumbered(m, code[k])
    ensures Moved(sem, m, DoAll(sem, code, s), DoAll(sem, RenamedCode(m, code), t))
  {
    hide Moved, Injective, CodeNumbered;
    if code != [] {
      var rest := code[..|code| - 1];
      DoAllMoved(sem, m, rest, s, t);
      assert RenamedCode(m, code)[..|code| - 1] == RenamedCode(m, rest);
      DoMoved(sem, m, code[|code| - 1], DoAll(sem, rest, s), DoAll(sem, RenamedCode(m, rest), t));
    }
  }

  lemma {:induction false} FromRenamed(m: Numbering, incoming: seq<(Value, BlockId)>, p: BlockId)
    ensures From(RenamedIncoming(m, incoming), p) == if From(incoming, p).Some?
      then Some(Resolve(m, From(incoming, p).value)) else None
    ensures From(incoming, p).Some? ==> exists j :: 0 <= j < |incoming| && incoming[j].0 == From(incoming, p).value
    decreases |incoming|
  {
    if incoming != [] {
      assert RenamedIncoming(m, incoming)[1..] == RenamedIncoming(m, incoming[1..]);
      FromRenamed(m, incoming[1..], p);
      if incoming[0].1 != p && From(incoming, p).Some? {
        var j :| 0 <= j < |incoming[1..]| && incoming[1..][j].0 == From(incoming, p).value;
        assert incoming[j + 1] == incoming[1..][j];
      }
    }
  }

  lemma {:induction false} ReadPhisMoved<V, W>(sem: Semantics<V, W>, m: Numbering, code: seq<Instruction>, p: BlockId,
      before: map<Value, V>, before': map<Value, V>, env: map<Value, V>, env': map<Value, V>)
    requires Injective(m) && EnvMoved(sem, m, before, before') && EnvMoved(sem, m, env, env')
    requires forall k :: 0 <= k < |code| ==> CodeNumbered(m, code[k])
    ensures EnvMoved(sem, m, ReadPhis(sem, code, p, before, env), ReadPhis(sem, RenamedCode(m, code), p, before', env'))
    decreases |code|
  {
    hide EnvMoved, Injective;
    if code != [] {
      var i := code[0];
      assert RenamedCode(m, code)[1..] == RenamedCode(m, code[1..]);
      assert CodeNumbered(m, i);
      if i.Phi? {
        FromRenamed(m, i.incoming, p);
        var v := From(i.incoming, p);
        if v.Some? {
          GetMoved(sem, m, before, before', v.value);
          SetMoved(sem, m, env, env', i.result, Get(sem, before, v.value));
        }
      }
      var v := if i.Phi? then From(i.incoming, p) else None;
      var i' := RenamedCode(m, code)[0];
      var v' := if i'.Phi? then From(i'.incoming, p) else None;
      ReadPhisMoved(sem, m, code[1..], p, before, before',
                    if v.Some? then env[i.result := Get(sem, before, v.value)] else env,
                    if v'.Some? then env'[i'.result := Get(sem, before', v'.value)] else env');
    }
  }

  ghost predicate ConfigMoved<V, W>(sem: Semantics<V, W>, m: Numbering, c: Config<V, W>, d: Config<V, W>) {
    match (c, d)
    case (At(b, s), At(b', s')) => b == b' && Moved(sem, m, s, s')
    case (Over(s), Over(s')) => Moved(sem, m, s, s')
    case (Stuck, Stuck) => true
    case _ => false
  }

  lemma BlockTotal(m: Numbering, f: Function, b: BlockId)
    requires Total(m, f) && Find(f.blocks, b).Some?
    ensures BlockNumbered(m, Find(f.blocks, b).value)
  {
    hide BlockNumbered;
    var k := FindWhere(f.blocks, b);
  }

  lemma EnterMoved<V, W>(sem: Semantics<V, W>, m: Numbering, f: Function, p: BlockId, target: BlockId, s: State<V, W>,
      t: State<V, W>)
    requires Injective(m) && Total(m, f) && Moved(sem, m, s, t)
    ensures ConfigMoved(sem, m, Enter(sem, f, p, target, s), Enter(sem, Renamed(m, f), p, target, t))
  {
    hide Injective, Total, EnvMoved, CodeNumbered, Find, DoAll, ReadPhis;
    FindRenamed(m, f.blocks, target);
    if Find(f.blocks, target).Some? {
      BlockTotal(m, f, target);
      var code := Find(f.blocks, target).value.instructions;
      ReadPhisMoved(sem, m, code, p, s.env, t.env, s.env, t.env);
      DoAllMoved(sem, m, code, s.(env := ReadPhis(sem, code, p, s.env, s.env)),
        t.(env := ReadPhis(sem, RenamedCode(m, code), p, t.env, t.env)));
    }
  }

  lemma LeaveMoved<V, W>(sem: Semantics<V, W>, m: Numbering, f: Function, b: Block, s: State<V, W>, t: State<V, W>)
    requires Injective(m) && Total(m, f) && BlockNumbered(m, b) && Moved(sem, m, s, t)
    ensures ConfigMoved(sem, m, Leave(sem, f, b, s), Leave(sem, Renamed(m, f), RenamedBlock(m, b), t))
  {
    hide Injective, Total, EnvMoved, CodeNumbered, Enter, ConfigMoved, Resolve;
    match b.terminator {
      case Return(vs) => EndMoved(sem, m, s, t, vs);
      case Raise(vs) => EndMoved(sem, m, s, t, vs);
      case Jump(target) => EnterMoved(sem, m, f, b.id, target, s.(trace := s.trace + [Left([])]),
        t.(trace := t.trace + [Left([])]));
      case Branch(c, x, y) =>
        assert c in Reads(b.terminator);
        GetMoved(sem, m, s.env, t.env, c);
        var v := Get(sem, s.env, c);
        EnterMoved(sem, m, f, b.id, if sem.truth(v) then x else y, s.(trace := s.trace + [Left([v])]),
          t.(trace := t.trace + [Left([v])]));
      case ForNext(it, n, body, exit, r) =>
        assert it in Reads(b.terminator);
        GetMoved(sem, m, s.env, t.env, it);
        var v := Get(sem, s.env, it);
        var (item, w) := sem.next(v, s.world);
        var s', t' := s.(world := w, trace := s.trace + [Left([v])]), t.(world := w, trace := t.trace + [Left([v])]);
        if item.None? {
          EnterMoved(sem, m, f, b.id, exit, s', t');
        } else if r.Some? {
          SetMoved(sem, m, s.env, t.env, r.value, item.value);
          EnterMoved(sem, m, f, b.id, body, s'.(env := s'.env[r.value := item.value]),
            t'.(env := t'.env[Resolve(m, r.value) := item.value]));
        } else {
          EnterMoved(sem, m, f, b.id, body, s'.(locals := s'.locals[n := item.value]),
            t'.(locals := t'.locals[n := item.value]));
        }
    }
  }

  lemma EndMoved<V, W>(sem: Semantics<V, W>, m: Numbering, s: State<V, W>, t: State<V, W>, vs: seq<Value>)
    requires Moved(sem, m, s, t) && forall v :: v in vs ==> v in m
    ensures ConfigMoved(sem, m, Over(s.(trace := s.trace + [Left(GetAll(sem, s.env, vs))])),
      Over(t.(trace := t.trace + [Left(GetAll(sem, t.env, ResolveAll(m, vs)))])))
  {
    hide EnvMoved;
    GetsMoved(sem, m, s.env, t.env, vs);
  }

  lemma MoveMoved<V, W>(sem: Semantics<V, W>, m: Numbering, f: Function, c: Config<V, W>, d: Config<V, W>,
      choice: Choice)
    requires Injective(m) && Total(m, f) && ConfigMoved(sem, m, c, d)
    ensures ConfigMoved(sem, m, Move(sem, f, c, choice), Move(sem, Renamed(m, f), d, choice))
  {
    hide Injective, Total, Moved, Find, Leave, Enter, RenumberedTerminator, RenamedCode, BlockNumbered;
    if c.At? {
      FindRenamed(m, f.blocks, c.block);
      if Find(f.blocks, c.block).Some? {
        var b := Find(f.blocks, c.block).value;
        BlockTotal(m, f, c.block);
        if choice.Follow? {
          LeaveMoved(sem, m, f, b, c.state, d.state);
        } else if choice.handler in b.exceptionTargets {
          EnterMoved(sem, m, f, b.id, choice.handler, c.state, d.state);
        }
      }
    }
  }

  /** Renumbering changes no run. */
  lemma {:induction false} RunsMoved<V, W>(sem: Semantics<V, W>, m: Numbering, f: Function, arguments: map<Value, V>,
      arguments': map<Value, V>, w: W, choices: seq<Choice>)
    requires Injective(m) && Total(m, f) && EnvMoved(sem, m, arguments, arguments')
    ensures ConfigMoved(sem, m, Run(sem, f, arguments, w, choices), Run(sem, Renamed(m, f), arguments', w, choices))
  {
    hide Injective, Total, EnvMoved, Find, Move, CodeNumbered;
    if choices == [] {
      FindRenamed(m, f.blocks, f.entry);
      if Find(f.blocks, f.entry).Some? {
        BlockTotal(m, f, f.entry);
        DoAllMoved(sem, m, Find(f.blocks, f.entry).value.instructions, State(arguments, map[], w, []),
          State(arguments', map[], w, []));
      }
    } else {
      var before := choices[..|choices| - 1];
      RunsMoved(sem, m, f, arguments, arguments', w, before);
      MoveMoved(sem, m, f, Run(sem, f, arguments, w, before), Run(sem, Renamed(m, f), arguments', w, before),
        choices[|choices| - 1]);
    }
  }
}
