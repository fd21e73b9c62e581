/** SSA form, as a property of a function alone: one definition for each value, definitions
    before uses on every path, one phi operand for each edge in. */
module SSAProperties {
  import opened Graphs
  import opened Options
  import opened IR
  import opened SSAForm

  // ---- definitions ----

  function Results(code: seq<Instruction>): seq<Value> {
    if code == [] then []
    else
      var last := Result(code[|code| - 1]);
      Results(code[..|code| - 1]) + (if last.Some? then [last.value] else [])
  }

  /** The values a block defines: by its instructions, and for the body of a loop by its
      terminator. */
  function Defines(b: Block): seq<Value> {
    Results(b.instructions) + (if ResultOf(b.terminator).Some? then [ResultOf(b.terminator).value] else [])
  }

  function AllDefined(blocks: seq<Block>): seq<Value> {
    if blocks == [] then [] else AllDefined(blocks[..|blocks| - 1]) + Defines(blocks[|blocks| - 1])
  }

  /** Every value the function defines, in order. */
  function Definitions(f: Function): seq<Value> {
    f.parameters + AllDefined(f.blocks)
  }

  ghost predicate Distinct<T(!new)>(s: seq<T>) {
    forall i, j :: 0 <= i < j < |s| ==> s[i] != s[j]
  }

  // ---- uses ----

  /** The item of a loop is defined on entering `b`, its body. */
  ghost predicate ItemOf(f: Function, b: BlockId, v: Value) {
    exists h :: Find(f.blocks, h).Some? && var t := Find(f.blocks, h).value.terminator; t.ForNext? && t.body == b && t.result == Some(v)
  }

  ghost predicate DefinedWithin(f: Function, c: BlockId, v: Value) {
    Find(f.blocks, c).Some? && (v in Results(Find(f.blocks, c).value.instructions) || ItemOf(f, c, v))
  }

  ghost predicate DefinedAbove(f: Function, c: BlockId, b: BlockId, v: Value) {
    StrictlyDominates(SuccessorTable(f.blocks), f.entry, c, b) && DefinedWithin(f, c, v)
  }

  /** `v` is defined before position `i` of block `b`, on every path there. */
  ghost predicate Available(f: Function, b: BlockId, i: nat, v: Value) {
    || v in f.parameters
    || (exists c :: DefinedAbove(f, c, b, v))
    || ItemOf(f, b, v)
    || (Find(f.blocks, b).Some? && i <= |Find(f.blocks, b).value.instructions|
      && v in Results(Find(f.blocks, b).value.instructions[..i]))
  }

  ghost predicate UsesAvailable(f: Function, b: BlockId)
    requires Find(f.blocks, b).Some?
  {
    var block := Find(f.blocks, b).value;
    && (forall i: nat, v :: i < |block.instructions| && v in ReadsOf(block.instructions[i]) ==> Available(f, b, i, v))
    && (forall v :: v in Reads(block.terminator) ==> Available(f, b, |block.instructions|, v))
    && (forall i: nat :: i < |block.instructions| && block.instructions[i].Phi? ==>
      OperandsAvailable(f, b, block.instructions[i].incoming))
  }

  /** One operand for each edge in, defined at the end of the block it comes from. */
  ghost predicate OperandsAvailable(f: Function, b: BlockId, incoming: seq<(Value, BlockId)>) {
    && Sources(incoming) == PredecessorsIn(f.blocks, (set p | p in Ids(f.blocks)), b)
    && forall j :: 0 <= j < |incoming| ==> AvailableAtEnd(f, incoming[j].1, incoming[j].0)
  }

  ghost predicate AvailableAtEnd(f: Function, p: BlockId, v: Value) {
    Find(f.blocks, p).Some? && Available(f, p, |Find(f.blocks, p).value.instructions|, v)
  }

  ghost predicate IsSSA(f: Function) {
    && Distinct(Definitions(f))
    && (forall b {:trigger Find(f.blocks, b)} :: Find(f.blocks, b).Some? ==> UsesAvailable(f, b))
    && (forall k :: 0 <= k < |f.blocks| ==> NoLocals(f.blocks[k].instructions))
  }

  /** Locals are neither loaded nor stored, and phis stand before the operations. */
  ghost predicate NoLocals(code: seq<Instruction>) {
    && (forall i :: 0 <= i < |code| ==> !code[i].LoadLocal? && !code[i].StoreLocal?)
    && (forall i, j :: 0 <= i < j < |code| && code[j].Phi? ==> !code[i].Operation?)
  }

  /** The body of a loop is entered from its header only, by taking an item. */
  ghost predicate OwnBody(f: Function, h: BlockId)
    requires Find(f.blocks, h).Some? && Find(f.blocks, h).value.terminator.ForNext?
  {
    var b := Find(f.blocks, h).value;
    && b.terminator.result.Some? && b.terminator.body != b.terminator.exit && b.terminator.body !in b.exceptionTargets
    && forall p :: Edge(SuccessorTable(f.blocks), p, b.terminator.body) ==> p == h
  }

  /** Every block is reached from the entry, which none leads to and which has no phi. */
  ghost predicate Connected(f: Function) {
    var succ := SuccessorTable(f.blocks);
    && DistinctIds(f.blocks) && Closed(succ) && f.entry in succ
    && (forall b :: b in succ ==> Reaches(succ, f.entry, b) && !Edge(succ, b, f.entry))
    && (forall h {:trigger OwnBody(f, h)} :: Find(f.blocks, h).Some? && Find(f.blocks, h).value.terminator.ForNext? ==>
      OwnBody(f, h))
    && (Find(f.blocks, f.entry).Some? ==> forall i :: 0 <= i < |Find(f.blocks, f.entry).value.instructions| ==>
      !Find(f.blocks, f.entry).value.instructions[i].Phi?)
  }

  // ---- lists of definitions ----

  lemma {:induction false} InResults(code: seq<Instruction>, v: Value)
    ensures v in Results(code) <==> exists i :: 0 <= i < |code| && Result(code[i]) == Some(v)
  {
    if code != [] {
      var rest, last := code[..|code| - 1], code[|code| - 1];
      InResults(rest, v);
      if i :| 0 <= i < |rest| && Result(rest[i]) == Some(v) {
        assert Result(code[i]) == Some(v);
      }
      if i :| 0 <= i < |code| && Result(code[i]) == Some(v) {
        if i < |rest| { assert Result(rest[i]) == Some(v); }
      }
    }
  }

  lemma {:induction false} ResultsDistinct(code: seq<Instruction>)
    requires forall i, j :: 0 <= i < j < |code| && Result(code[i]).Some? ==> Result(code[i]) != Result(code[j])
    ensures Distinct(Results(code))
  {
    if code != [] {
      var rest, last := code[..|code| - 1], Result(code[|code| - 1]);
      ResultsDistinct(rest);
      if last.Some? {
        InResults(rest, last.value);
        assert forall i :: 0 <= i < |rest| ==> rest[i] == code[i];
        AppendDistinct(Results(rest), [last.value]);
      }
    }
  }

  lemma AppendDistinct<T(!new)>(s: seq<T>, t: seq<T>)
    requires Distinct(s) && Distinct(t) && forall x :: x in t ==> x !in s
    ensures Distinct(s + t)
  {
    forall i, j | 0 <= i < j < |s + t| ensures (s + t)[i] != (s + t)[j] {
      if i < |s| <= j {
        assert (s + t)[j] in t;
      }
    }
  }

  lemma {:induction false} InAllDefined(blocks: seq<Block>, v: Value)
    ensures v in AllDefined(blocks) <==> exists k :: 0 <= k < |blocks| && v in Defines(blocks[k])
  {
    hide Defines;
    if blocks != [] {
      var rest := blocks[..|blocks| - 1];
      InAllDefined(rest, v);
      if k :| 0 <= k < |rest| && v in Defines(rest[k]) {
        assert v in Defines(blocks[k]);
      }
      if k :| 0 <= k < |blocks| && v in Defines(blocks[k]) {
        if k < |rest| { assert v in Defines(rest[k]); }
      }
    }
  }

  /** Blocks that define distinct values, each its own, define distinct values together. */
  lemma {:induction false} AllDistinct(blocks: seq<Block>)
    requires forall k :: 0 <= k < |blocks| ==> Distinct(Defines(blocks[k]))
    requires forall j, k, v :: 0 <= j < k < |blocks| && v in Defines(blocks[k]) ==> v !in Defines(blocks[j])
    ensures Distinct(AllDefined(blocks))
  {
    hide Defines;
    if blocks != [] {
      var rest, last := blocks[..|blocks| - 1], blocks[|blocks| - 1];
      AllDistinct(rest);
      forall v | v in Defines(last) ensures v !in AllDefined(rest) {
        InAllDefined(rest, v);
      }
      AppendDistinct(AllDefined(rest), Defines(last));
    }
  }

  /** Where a value is made, it is available further on. */
  lemma LaterAvailable(f: Function, b: BlockId, i: nat, j: nat, v: Value)
    requires Find(f.blocks, b).Some? && i <= j <= |Find(f.blocks, b).value.instructions| && Available(f, b, i, v)
    ensures Available(f, b, j, v)
  {
    hide DefinedAbove, ItemOf;
    var code := Find(f.blocks, b).value.instructions;
    InResults(code[..i], v);
    InResults(code[..j], v);
    if k :| 0 <= k < i && Result(code[..i][k]) == Some(v) {
      assert Result(code[..j][k]) == Some(v);
    }
  }

  // ---- the block defining a value ----

  /** Where a value is defined. */
  ghost predicate HomeOf(f: Function, v: Value, d: BlockId) {
    Find(f.blocks, d).Some? && v in Defines(Find(f.blocks, d).value)
  }

  lemma OneHome(f: Function, v: Value, c: BlockId, d: BlockId)
    requires Distinct(Definitions(f)) && DistinctIds(f.blocks) && HomeOf(f, v, c) && HomeOf(f, v, d)
    ensures c == d && v !in f.parameters
  {
    var i := FindWhere(f.blocks, c);
    var j := FindWhere(f.blocks, d);
    SliceDistinct(f.parameters, AllDefined(f.blocks));
    DefinedOnce(f.blocks, i, j, v);
    InAllDefined(f.blocks, v);
    SlicesApart(f.parameters, AllDefined(f.blocks));
  }

  lemma SlicesApart(a: seq<Value>, b: seq<Value>)
    requires Distinct(a + b)
    ensures forall v :: v in a ==> v !in b
  {
    forall i, j | 0 <= i < |a| && 0 <= j < |b| ensures a[i] != b[j] {
      assert (a + b)[i] == a[i] && (a + b)[|a| + j] == b[j];
    }
  }

  lemma {:induction false} DefinedOnce(blocks: seq<Block>, i: nat, j: nat, v: Value)
    requires Distinct(AllDefined(blocks)) && i < |blocks| && j < |blocks|
    requires v in Defines(blocks[i]) && v in Defines(blocks[j])
    ensures i == j
  {
    hide Defines;
    var n := |blocks| - 1;
    SliceDistinct(AllDefined(blocks[..n]), Defines(blocks[n]));
    if i < n && j < n {
      DefinedOnce(blocks[..n], i, j, v);
    } else if i != j {
      var k := if i < n then i else j;
      assert v in Defines(blocks[..n][k]);
      InAllDefined(blocks[..n], v);
      SlicesApart(AllDefined(blocks[..n]), Defines(blocks[n]));
    }
  }

  lemma ItemHome(f: Function, h: BlockId)
    requires Find(f.blocks, h).Some? && ResultOf(Find(f.blocks, h).value.terminator).Some?
    ensures HomeOf(f, ResultOf(Find(f.blocks, h).value.terminator).value, h)
  {
    var block := Find(f.blocks, h).value;
    assert Defines(block)[|Results(block.instructions)|] == ResultOf(block.terminator).value;
  }

  lemma {:induction false} DefinesDistinct(f: Function, k: nat)
    requires Distinct(Definitions(f)) && k < |f.blocks|
    ensures Distinct(Results(f.blocks[k].instructions))
  {
    hide Results;
    var n := |f.parameters|;
    SliceDistinct(f.parameters, AllDefined(f.blocks));
    BlockSlice(f.blocks, k);
    SliceDistinct([], Results(f.blocks[k].instructions));
  }

  lemma SliceDistinct(a: seq<Value>, b: seq<Value>)
    requires Distinct(a + b)
    ensures Distinct(a) && Distinct(b)
  {
    forall i, j | 0 <= i < j < |b| ensures b[i] != b[j] {
      assert (a + b)[|a| + i] == b[i] && (a + b)[|a| + j] == b[j];
    }
    forall i, j | 0 <= i < j < |a| ensures a[i] != a[j] {
      assert (a + b)[i] == a[i] && (a + b)[j] == a[j];
    }
  }

  lemma {:induction false} BlockSlice(blocks: seq<Block>, k: nat)
    requires k < |blocks| && Distinct(AllDefined(blocks))
    ensures Distinct(Defines(blocks[k])) && Distinct(Results(blocks[k].instructions))
  {
    hide Results;
    var n := |blocks| - 1;
    SliceDistinct(AllDefined(blocks[..n]), Defines(blocks[n]));
    if k < n {
      BlockSlice(blocks[..n], k);
    } else {
      var item := ResultOf(blocks[k].terminator);
      SliceDistinct(Results(blocks[k].instructions), if item.Some? then [item.value] else []);
    }
  }

  /** Both targets of a branch are other blocks, and lead to every handler the branch leads to. */
  ghost predicate BranchesCarry(f: Function) {
    forall d {:trigger BranchCarries(f, d)} :: Find(f.blocks, d).Some? && Find(f.blocks, d).value.terminator.Branch? ==>
      BranchCarries(f, d)
  }

  ghost predicate BranchCarries(f: Function, d: BlockId)
    requires Find(f.blocks, d).Some? && Find(f.blocks, d).value.terminator.Branch?
  {
    var t := Find(f.blocks, d).value.terminator;
    && Carries(f, d, t.thenBlock) && Carries(f, d, t.elseBlock)
  }

  ghost predicate Carries(f: Function, d: BlockId, t: BlockId)
    requires Find(f.blocks, d).Some?
  {
    t != d && forall h :: h in Find(f.blocks, d).value.exceptionTargets ==>
      Find(f.blocks, t).Some? && h in Find(f.blocks, t).value.exceptionTargets
  }
}
