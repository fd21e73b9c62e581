/** What the walk of the dominator tree has made so far, and why no later step undoes it. */
module RenamingWork {
  import opened Options
  import opened Trees
  import opened DominatorTrees
  import opened IR
  import opened SSAForm
  import opened SSAMeaning

  // ---- stacks ----

  type StackMap = map<string, seq<Value>>

  function StackOf(stacks: StackMap, x: string): seq<Value> {
    if x in stacks then stacks[x] else []
  }

  /** The tops of the stacks are those of `t`. */
  ghost predicate TopsAre(stacks: StackMap, t: Stacks) {
    forall x :: (x in t <==> StackOf(stacks, x) != [])
      && (x in t ==> StackOf(stacks, x)[|StackOf(stacks, x)| - 1] == t[x])
  }

  /** `stacks` is `before` with one value pushed for each entry of `pushed`. */
  ghost predicate PushedOn(before: StackMap, stacks: StackMap, pushed: seq<string>) {
    forall x {:trigger StackOf(stacks, x)} :: StackOf(before, x) <= StackOf(stacks, x)
      && |StackOf(stacks, x)| == |StackOf(before, x)| + multiset(pushed)[x]
  }

  ghost predicate SameStacks(before: StackMap, stacks: StackMap) {
    forall x :: StackOf(stacks, x) == StackOf(before, x)
  }

  // ---- what stays true of a renamed block while the renaming goes on ----

  /** The renaming has only decided more. */
  ghost predicate Grew(r: Renaming, r': Renaming) {
    && r'.phis == r.phis
    && (forall v :: v in r.aliases ==> v in r'.aliases && r'.aliases[v] == r.aliases[v])
    && (forall x :: x in r.undefined ==> x in r'.undefined && r'.undefined[x] == r.undefined[x])
    && (forall h :: h in r.loops ==> h in r'.loops && r'.loops[h] == r.loops[h])
    && (forall b :: b in r.tops ==> b in r'.tops && r'.tops[b] == r.tops[b])
  }

  /** Whatever gained an alias is loaded in a block outside `done`. */
  ghost predicate AliasesFrom(src: Source, r: Renaming, r': Renaming, done: set<BlockId>) {
    forall v :: v in r'.aliases && v !in r.aliases ==>
      exists b :: b in src.blocks && b !in done && v in Loaded(src.blocks[b].instructions)
  }

  /** What the renaming made of a block it has finished. */
  ghost predicate BlockDone(src: Source, r: Renaming, b: BlockId, kept: seq<Instruction>, terminator: Terminator)
    requires TreeOf(src) && b in src.blocks
  {
    && BlockRenamed(src, r, b)
    && kept == Kept(r.aliases, src.blocks[b].instructions)
    && terminator == RenamedTerminator(r, src.blocks[b])
  }

  /** The values in scope in a finished block never gain another alias. */
  lemma {:induction false} ScopeSettled(src: Source, r: Renaming, r': Renaming, done: set<BlockId>, b: BlockId,
      v: Value)
    requires Lowered(src) && TreeOf(src) && b in src.blocks && Above(src, b) <= done
    requires Grew(r, r') && AliasesFrom(src, r, r', done)
    requires v in ScopeOut(src, b)
    ensures Resolve(r'.aliases, v) == Resolve(r.aliases, v)
    decreases src.tree.depth[b]
  {
    hide BlocksAndTree, UsesDefined, LoopsEntered;
    if v in r'.aliases && v !in r.aliases {
      var c := LoadedElsewhere(src, r, r', done, v);
      assert b in Above(src, b) by { RootAbove(src.tree.root, src.tree.depth, src.tree.idom, b); }
      if v in Produced(src.blocks[b].instructions) {
        OneMaker(src, b, c, v);
      } else if b == src.tree.root {
        MakersAreNotParameters(src, c, v);
      } else {
        ScopeSettled(src, r, r', done, Parent(src, b), v);
      }
    }
  }

  lemma LoadedElsewhere(src: Source, r: Renaming, r': Renaming, done: set<BlockId>, v: Value) returns (c: BlockId)
    requires AliasesFrom(src, r, r', done) && v in r'.aliases && v !in r.aliases
    ensures c in src.blocks && c !in done && v in Loaded(src.blocks[c].instructions)
  {
    c :| c in src.blocks && c !in done && v in Loaded(src.blocks[c].instructions);
  }

  lemma MadeWhere(b: Block, v: Value) returns (i: nat)
    requires v in Produced(b.instructions)
    ensures Makes(b, i, v)
  {
    if v in Computed(b.instructions) {
      i :| 0 <= i < |b.instructions| && b.instructions[i].Operation? && b.instructions[i].outcome.Some?
        && b.instructions[i].outcome.value == v;
    } else {
      i :| 0 <= i < |b.instructions| && b.instructions[i].LoadLocal? && b.instructions[i].result == v;
    }
  }

  lemma OneMaker(src: Source, b: BlockId, c: BlockId, v: Value)
    requires SingleDefinitions(src) && b in src.blocks && c in src.blocks
    requires v in Produced(src.blocks[b].instructions) && v in Produced(src.blocks[c].instructions)
    ensures b == c
  {
    var i := MadeWhere(src.blocks[b], v);
    var j := MadeWhere(src.blocks[c], v);
  }

  lemma MakersAreNotParameters(src: Source, c: BlockId, v: Value)
    requires SingleDefinitions(src) && c in src.blocks && v in Produced(src.blocks[c].instructions)
    ensures v !in src.code.parameters
  {
    var i := MadeWhere(src.blocks[c], v);
  }

  /** The code of a block reads values in its scope. */
  lemma ReadsInScope(src: Source, b: BlockId, i: nat, v: Value)
    requires Lowered(src) && TreeOf(src) && b in src.blocks && i <= |src.blocks[b].instructions|
    requires if i < |src.blocks[b].instructions| then v in ReadsOf(src.blocks[b].instructions[i])
      else v in Reads(src.blocks[b].terminator)
    ensures v in ScopeIn(src, b) + Produced(src.blocks[b].instructions[..i])
    ensures v in ScopeOut(src, b)
  {
    hide SingleDefinitions, LoopsEntered, BlocksAndTree, TreeOf, MadeBefore, Produced, ScopeIn;
    assert UsesDefinedIn(src, b);
    MadeInScope(src, b, i, v);
    ProducedGrows(src.blocks[b].instructions, i);
  }

  lemma ProducedGrows(code: seq<Instruction>, i: nat)
    requires i <= |code|
    ensures Produced(code[..i]) <= Produced(code) && Loaded(code[..i]) <= Loaded(code)
  {
    forall v | v in Computed(code[..i]) ensures v in Computed(code) {
      var k :| 0 <= k < i && code[..i][k].Operation? && code[..i][k].outcome.Some? && code[..i][k].outcome.value == v;
      assert code[k].Operation?;
    }
    forall v | v in Loaded(code[..i]) ensures v in Loaded(code) {
      var k :| 0 <= k < i && code[..i][k].LoadLocal? && code[..i][k].result == v;
      assert code[k].LoadLocal?;
    }
  }

  /** Code whose reads resolve the same is renamed the same. */
  lemma {:induction false} SameRenamed(aliases: map<Value, Value>, aliases': map<Value, Value>, code: seq<Instruction>,
      t: Stacks)
    requires forall i, v :: 0 <= i < |code| && v in ReadsOf(code[i]) ==> Resolve(aliases, v) == Resolve(aliases', v)
    ensures After(aliases, code, t) == After(aliases', code, t) && Kept(aliases, code) == Kept(aliases', code)
  {
    hide Resolve, Produced;
    if code != [] {
      var k := |code| - 1;
      forall i, v | 0 <= i < k && v in ReadsOf(code[..k][i]) ensures Resolve(aliases, v) == Resolve(aliases', v) {
        assert code[..k][i] == code[i];
      }
      SameRenamed(aliases, aliases', code[..k], t);
      var i := code[k];
      if i.StoreLocal? {
        assert i.value in ReadsOf(i);
      } else if i.Operation? {
        assert ResolveAll(aliases, i.operands) == ResolveAll(aliases', i.operands) by {
          forall j | 0 <= j < |i.operands| ensures Resolve(aliases, i.operands[j]) == Resolve(aliases', i.operands[j]) {
            assert i.operands[j] in ReadsOf(i);
          }
        }
      }
    }
  }

  /** What a finished block starts from does not change. */
  lemma EntryStays(src: Source, r: Renaming, r': Renaming, b: BlockId)
    requires Lowered(src) && TreeOf(src) && b in src.blocks && Grew(r, r')
    requires b != src.tree.root ==> Parent(src, b) in r.tops && BlockRenamed(src, r, Parent(src, b))
    ensures TopsOnEntry(src, r', b) == TopsOnEntry(src, r, b)
  {
    hide BlocksAndTree, SingleDefinitions, UsesDefined;
    if b in src.loopOf {
      assert BodyOk(src, b);
      BodyBelowHeader(src, b);
    }
  }

  /** What a finished block's loads, operands and terminator resolve to has settled. */
  lemma ReadsStay(src: Source, r: Renaming, r': Renaming, done: set<BlockId>, b: BlockId)
    requires Lowered(src) && TreeOf(src) && b in src.blocks && Above(src, b) <= done
    requires Grew(r, r') && AliasesFrom(src, r, r', done)
    ensures forall i, v :: 0 <= i < |src.blocks[b].instructions| && v in ReadsOf(src.blocks[b].instructions[i]) ==>
      Resolve(r.aliases, v) == Resolve(r'.aliases, v)
    ensures forall v :: v in Reads(src.blocks[b].terminator) ==> Resolve(r.aliases, v) == Resolve(r'.aliases, v)
  {
    hide Lowered, TreeOf, Above, ScopeOut, ScopeIn, Grew, AliasesFrom, Resolve, Produced;
    var code := src.blocks[b].instructions;
    forall i, v | 0 <= i < |code| && v in ReadsOf(code[i]) ensures Resolve(r.aliases, v) == Resolve(r'.aliases, v) {
      ReadsInScope(src, b, i, v);
      ScopeSettled(src, r, r', done, b, v);
    }
    forall v | v in Reads(src.blocks[b].terminator) ensures Resolve(r.aliases, v) == Resolve(r'.aliases, v) {
      ReadsInScope(src, b, |code|, v);
      ScopeSettled(src, r, r', done, b, v);
    }
  }

  lemma LoadsStay(r: Renaming, r': Renaming, t: Stacks, code: seq<Instruction>)
    requires Grew(r, r') && LoadsAliased(r.aliases, r.undefined, t, code)
    requires forall i, v :: 0 <= i < |code| && v in ReadsOf(code[i]) ==> Resolve(r.aliases, v) == Resolve(r'.aliases, v)
    ensures LoadsAliased(r'.aliases, r'.undefined, t, code)
  {
    hide After, Resolve, ReadsOf;
    forall i | 0 <= i < |code| && code[i].LoadLocal?
      ensures code[i].result in r'.aliases && Top(r'.undefined, After(r'.aliases, code[..i], t), code[i].name)
        == Some(r'.aliases[code[i].result])
    {
      forall j, v | 0 <= j < |code[..i]| && v in ReadsOf(code[..i][j])
        ensures Resolve(r.aliases, v) == Resolve(r'.aliases, v) {
        assert code[..i][j] == code[j];
      }
      SameRenamed(r.aliases, r'.aliases, code[..i], t);
    }
  }

  lemma DoneStays(src: Source, r: Renaming, r': Renaming, done: set<BlockId>, b: BlockId, kept: seq<Instruction>,
      terminator: Terminator)
    requires Lowered(src) && TreeOf(src) && b in src.blocks && Above(src, b) <= done
    requires Grew(r, r') && AliasesFrom(src, r, r', done)
    requires b != src.tree.root ==> Parent(src, b) in r.tops && BlockRenamed(src, r, Parent(src, b))
    requires BlockDone(src, r, b, kept, terminator)
    ensures BlockDone(src, r', b, kept, terminator)
  {
    hide Lowered, Above, ScopeOut, AliasesFrom, Resolve, ReadsOf, Reads, After, Kept, LoadsAliased, TopsOnEntry,
      RenamedTerminator;
    var code := src.blocks[b].instructions;
    var t := TopsOnEntry(src, r, b);
    EntryStays(src, r, r', b);
    ReadsStay(src, r, r', done, b);
    SameRenamed(r.aliases, r'.aliases, code, t);
    LoadsStay(r, r', t, code);
    IdOf(src, b);
    TerminatorStays(src, r, r', b);
  }

  lemma IdOf(src: Source, b: BlockId)
    requires Lowered(src) && b in src.blocks
    ensures src.blocks[b].id == b
  {
    assert BlockOk(src, b);
  }

  lemma TerminatorStays(src: Source, r: Renaming, r': Renaming, b: BlockId)
    requires b in src.blocks && Grew(r, r') && (src.blocks[b].terminator.ForNext? ==> src.blocks[b].id in r.loops)
    requires forall v :: v in Reads(src.blocks[b].terminator) ==> Resolve(r.aliases, v) == Resolve(r'.aliases, v)
    ensures RenamedTerminator(r', src.blocks[b]) == RenamedTerminator(r, src.blocks[b])
  {
    match src.blocks[b].terminator {
      case Return(vs) => assert ResolveAll(r.aliases, vs) == ResolveAll(r'.aliases, vs);
      case Raise(vs) => assert ResolveAll(r.aliases, vs) == ResolveAll(r'.aliases, vs);
      case Branch(c, _, _) => assert c in Reads(src.blocks[b].terminator);
      case Jump(_) =>
      case ForNext(it, _, _, _, _) => assert it in Reads(src.blocks[b].terminator);
    }
  }

  // ---- the work done so far ----

  /** A phi of `s` lists each block of `filled` that leads to `s`, with what its stacks held. */
  ghost predicate ListsFrom(src: Source, r: Renaming, filled: set<BlockId>, s: BlockId, x: string,
      incoming: seq<(Value, BlockId)>) {
    && (forall j :: 0 <= j < |incoming| ==> ListsOne(src, r, s, x, incoming[j]))
    && (forall p :: p in filled && p in src.blocks && s in Successors(src.blocks[p]) ==> From(incoming, p).Some?)
  }

  /** The phis placed in `s`, filled in from the blocks of `filled`. */
  ghost predicate PhisOf(src: Source, r: Renaming, filled: set<BlockId>, s: BlockId, phis: seq<Instruction>) {
    && s in r.phis
    && (forall k :: 0 <= k < |phis| ==> PhiOf(src, r, filled, s, phis[k]))
    && (forall x :: x in r.phis[s] ==> HasPhi(phis, x))
    && (forall j, k :: 0 <= j < k < |phis| ==> phis[j].Phi? && phis[k].Phi? && phis[j].name != phis[k].name)
  }

  ghost predicate PhiOf(src: Source, r: Renaming, filled: set<BlockId>, s: BlockId, i: Instruction) {
    && i.Phi? && s in r.phis && i.name in r.phis[s] && i.result == r.phis[s][i.name]
    && ListsFrom(src, r, filled, s, i.name, i.incoming)
  }

  ghost predicate AllPhis(src: Source, r: Renaming, filled: set<BlockId>, phis: map<BlockId, seq<Instruction>>) {
    && phis.Keys == r.phis.Keys && phis.Keys <= src.blocks.Keys
    && forall s {:trigger PhisOf(src, r, filled, s, phis[s])} {:trigger phis[s]} :: s in phis ==>
      PhisOf(src, r, filled, s, phis[s])
  }

  /** Block `b` is finished, and its parent before it. */
  ghost predicate DoneAt(src: Source, r: Renaming, instructions: map<BlockId, seq<Instruction>>,
      terminators: map<BlockId, Terminator>, b: BlockId)
    requires TreeOf(src)
  {
    && b in src.blocks && b in instructions && b in terminators
    && BlockDone(src, r, b, instructions[b], terminators[b])
    && (b != src.tree.root ==> Parent(src, b) in instructions)
  }

  /** Every block with instructions is finished; aliases come from those and from `extra`. */
  ghost predicate AllDone(src: Source, r: Renaming, instructions: map<BlockId, seq<Instruction>>,
      terminators: map<BlockId, Terminator>, extra: set<BlockId>) {
    && TreeOf(src)
    && instructions.Keys == terminators.Keys == r.tops.Keys
    && r.loops.Keys <= instructions.Keys <= src.blocks.Keys
    && (forall b {:trigger DoneAt(src, r, instructions, terminators, b)} :: b in instructions ==>
      DoneAt(src, r, instructions, terminators, b))
    && (forall v :: v in r.aliases ==>
      exists b :: b in instructions.Keys + extra && b in src.blocks && v in Loaded(src.blocks[b].instructions))
  }

  /** All values made so far are below the next one. */
  ghost predicate Numbered(base: Value, site: map<Value, Site>, nextId: Value) {
    base <= nextId && forall v :: v in site ==> v < nextId
  }

  lemma {:induction false} AboveDone(src: Source, r: Renaming, instructions: map<BlockId, seq<Instruction>>,
      terminators: map<BlockId, Terminator>, extra: set<BlockId>, b: BlockId)
    requires AllDone(src, r, instructions, terminators, extra) && b in instructions
    ensures Above(src, b) <= instructions.Keys
    decreases src.tree.depth[b]
  {
    hide BlockDone;
    assert DoneAt(src, r, instructions, terminators, b);
    if b != src.tree.root {
      AboveDone(src, r, instructions, terminators, extra, Parent(src, b));
    }
  }

  /** Finished blocks stay finished while another block is renamed. */
  lemma AllStay(src: Source, r: Renaming, r': Renaming, instructions: map<BlockId, seq<Instruction>>,
      terminators: map<BlockId, Terminator>, extra: set<BlockId>, b: BlockId)
    requires Lowered(src) && AllDone(src, r, instructions, terminators, extra) && b in instructions
    requires Grew(r, r') && AliasesFrom(src, r, r', instructions.Keys)
    ensures DoneAt(src, r', instructions, terminators, b)
  {
    hide Lowered, BlockDone;
    AboveDone(src, r, instructions, terminators, extra, b);
    assert DoneAt(src, r, instructions, terminators, b);
    if b != src.tree.root {
      ParentRenamed(src, r, instructions, terminators, extra, Parent(src, b));
    }
    DoneStays(src, r, r', instructions.Keys, b, instructions[b], terminators[b]);
  }

  lemma ParentRenamed(src: Source, r: Renaming, instructions: map<BlockId, seq<Instruction>>,
      terminators: map<BlockId, Terminator>, extra: set<BlockId>, p: BlockId)
    requires AllDone(src, r, instructions, terminators, extra) && p in instructions
    ensures p in src.blocks && p in r.tops && BlockRenamed(src, r, p)
  {
    assert DoneAt(src, r, instructions, terminators, p);
  }

  /** What the phis list stays right. */
  lemma PhisStay(src: Source, r: Renaming, r': Renaming, filled: set<BlockId>, phis: map<BlockId, seq<Instruction>>)
    requires AllPhis(src, r, filled, phis) && Grew(r, r')
    ensures AllPhis(src, r', filled, phis)
  {
    forall s | s in phis ensures PhisOf(src, r', filled, s, phis[s]) {
      assert PhisOf(src, r, filled, s, phis[s]);
      forall k | 0 <= k < |phis[s]| ensures PhiOf(src, r', filled, s, phis[s][k]) {
        PhiStays(src, r, r', filled, s, phis[s][k]);
      }
    }
  }

  lemma PhiStays(src: Source, r: Renaming, r': Renaming, filled: set<BlockId>, s: BlockId, i: Instruction)
    requires PhiOf(src, r, filled, s, i) && Grew(r, r')
    ensures PhiOf(src, r', filled, s, i)
  {
    forall j | 0 <= j < |i.incoming| ensures ListsOne(src, r', s, i.name, i.incoming[j]) {
      assert ListsOne(src, r, s, i.name, i.incoming[j]);
    }
  }

  // ---- one block ----

  /** The loads of the first `i` instructions are aliased, and what is kept of them is `kept`. */
  ghost predicate RenamedTo(src: Source, r: Renaming, b: BlockId, t: Stacks, i: nat, kept: seq<Instruction>)
    requires b in src.blocks
  {
    var code := src.blocks[b].instructions;
    && i <= |code|
    && kept == Kept(r.aliases, code[..i])
    && forall k {:trigger LoadAt(r, code, t, k)} :: 0 <= k < i ==> LoadAt(r, code, t, k)
  }

  ghost predicate LoadAt(r: Renaming, code: seq<Instruction>, t: Stacks, k: nat)
    requires k < |code|
  {
    code[k].LoadLocal? ==>
      code[k].result in r.aliases && Top(r.undefined, After(r.aliases, code[..k], t), code[k].name)
      == Some(r.aliases[code[k].result])
  }

  /** An alias given to the next load leaves the code before it as it was. */
  lemma PrefixStays(src: Source, r: Renaming, r': Renaming, b: BlockId, t: Stacks, i: nat, k: nat)
    requires Lowered(src) && TreeOf(src) && b in src.blocks && k <= i < |src.blocks[b].instructions|
    requires Grew(r, r')
    requires forall v :: v in r'.aliases && v !in r.aliases ==>
      src.blocks[b].instructions[i].LoadLocal? && v == src.blocks[b].instructions[i].result
    ensures var code := src.blocks[b].instructions;
      After(r'.aliases, code[..k], t) == After(r.aliases, code[..k], t) && Kept(r'.aliases, code[..k])
        == Kept(r.aliases, code[..k])
  {
    hide Lowered;
    var code := src.blocks[b].instructions;
    forall j, v | 0 <= j < |code[..k]| && v in ReadsOf(code[..k][j])
      ensures Resolve(r.aliases, v) == Resolve(r'.aliases, v) {
      assert code[..k][j] == code[j];
      if v in r'.aliases && v !in r.aliases {
        NotReadBefore(src, b, j, i, v);
      }
    }
    SameRenamed(r.aliases, r'.aliases, code[..k], t);
  }

  /** What a block makes at position `i`, no instruction before it reads. */
  lemma NotReadBefore(src: Source, b: BlockId, j: nat, i: nat, v: Value)
    requires Lowered(src) && TreeOf(src) && b in src.blocks && j < i < |src.blocks[b].instructions|
    requires Makes(src.blocks[b], i, v)
    ensures v !in ReadsOf(src.blocks[b].instructions[j])
  {
    hide BlocksAndTree, LoopsEntered;
    if v in ReadsOf(src.blocks[b].instructions[j]) {
      assert UsesDefinedIn(src, b);
      assert MadeBefore(src, b, j, v);
      MadeOnce(src, b, j, i, v);
    }
  }

  lemma MadeOnce(src: Source, b: BlockId, j: nat, i: nat, v: Value)
    requires SingleDefinitions(src) && b in src.blocks && j < i && Makes(src.blocks[b], i, v)
    ensures !MadeBefore(src, b, j, v)
  {
    forall c, k: nat | c in src.blocks && Makes(src.blocks[c], k, v) ensures c == b && k == i {
    }
  }

  lemma LoadRenamed(src: Source, r: Renaming, r': Renaming, b: BlockId, t: Stacks, i: nat, kept: seq<Instruction>)
    requires Lowered(src) && TreeOf(src) && b in src.blocks && i < |src.blocks[b].instructions|
      && src.blocks[b].instructions[i].LoadLocal?
    requires RenamedTo(src, r, b, t, i, kept) && Grew(r, r')
    requires var l := src.blocks[b].instructions[i];
      r'.aliases.Keys == r.aliases.Keys + {l.result}
      && Top(r'.undefined, After(r.aliases, src.blocks[b].instructions[..i], t), l.name) == Some(r'.aliases[l.result])
    ensures RenamedTo(src, r', b, t, i + 1, kept)
    ensures After(r'.aliases, src.blocks[b].instructions[..i + 1], t)
      == After(r.aliases, src.blocks[b].instructions[..i], t)
  {
    hide Lowered, TreeOf, ReadsOf, Resolve, Grew, After, Kept, LoadAt;
    var code := src.blocks[b].instructions;
    PrefixStays(src, r, r', b, t, i, i);
    forall k: nat | k < i + 1 ensures LoadAt(r', code, t, k) {
      PrefixStays(src, r, r', b, t, i, k);
      if k < i {
        LoadAtStays(r, r', code, t, k);
      } else {
        LoadAtLast(r', code, t, k);
      }
    }
    LoadIsGone(r', code, t, i);
  }

  lemma LoadAtStays(r: Renaming, r': Renaming, code: seq<Instruction>, t: Stacks, k: nat)
    requires k < |code| && Grew(r, r') && LoadAt(r, code, t, k)
    requires After(r'.aliases, code[..k], t) == After(r.aliases, code[..k], t)
    ensures LoadAt(r', code, t, k)
  {
    hide After;
  }

  lemma LoadAtLast(r: Renaming, code: seq<Instruction>, t: Stacks, k: nat)
    requires k < |code| && code[k].LoadLocal? && code[k].result in r.aliases
    requires Top(r.undefined, After(r.aliases, code[..k], t), code[k].name) == Some(r.aliases[code[k].result])
    ensures LoadAt(r, code, t, k)
  {
  }

  /** A load leaves the stacks as they are and is not kept. */
  lemma LoadIsGone(r: Renaming, code: seq<Instruction>, t: Stacks, i: nat)
    requires i < |code| && code[i].LoadLocal?
    ensures After(r.aliases, code[..i + 1], t) == After(r.aliases, code[..i], t)
    ensures Kept(r.aliases, code[..i + 1]) == Kept(r.aliases, code[..i])
  {
    assert code[..i + 1][..i] == code[..i];
  }

  lemma OtherRenamed(src: Source, r: Renaming, b: BlockId, t: Stacks, i: nat, kept: seq<Instruction>)
    requires b in src.blocks && i < |src.blocks[b].instructions| && !src.blocks[b].instructions[i].LoadLocal?
    requires RenamedTo(src, r, b, t, i, kept)
    ensures RenamedTo(src, r, b, t, i + 1, kept + KeptOf(r.aliases, src.blocks[b].instructions[i]))
    ensures After(r.aliases, src.blocks[b].instructions[..i + 1], t) == Stored(r.aliases, src.blocks[b].instructions[i],
      After(r.aliases, src.blocks[b].instructions[..i], t))
  {
    var code := src.blocks[b].instructions;
    assert code[..i + 1][..i] == code[..i];
  }

  // ---- pushing ----

  function Pushed(stacks: StackMap, x: string, v: Value): StackMap {
    stacks[x := StackOf(stacks, x) + [v]]
  }

  lemma PushTop(before: StackMap, stacks: StackMap, t: Stacks, pushed: seq<string>, x: string, v: Value)
    requires TopsAre(stacks, t) && PushedOn(before, stacks, pushed)
    ensures TopsAre(Pushed(stacks, x, v), t[x := v]) && PushedOn(before, Pushed(stacks, x, v), pushed + [x])
  {
    hide TopsAre, PushedOn;
    PushedTops(stacks, t, x, v);
    PushedMore(before, stacks, pushed, x, v);
  }

  lemma PushedTops(stacks: StackMap, t: Stacks, x: string, v: Value)
    requires TopsAre(stacks, t)
    ensures TopsAre(Pushed(stacks, x, v), t[x := v])
  {
    var stacks' := Pushed(stacks, x, v);
    forall y ensures StackOf(stacks', y) == if y == x then StackOf(stacks, x) + [v] else StackOf(stacks, y) {
    }
  }

  lemma PushedMore(before: StackMap, stacks: StackMap, pushed: seq<string>, x: string, v: Value)
    requires PushedOn(before, stacks, pushed)
    ensures PushedOn(before, Pushed(stacks, x, v), pushed + [x])
  {
    var stacks' := Pushed(stacks, x, v);
    forall y ensures StackOf(before, y) <= StackOf(stacks', y) && |StackOf(stacks', y)| == |StackOf(before, y)|
      + multiset(pushed + [x])[y] {
      assert StackOf(stacks', y) == if y == x then StackOf(stacks, x) + [v] else StackOf(stacks, y);
    }
  }

  /** Popping what was pushed last. */
  lemma PopLast(before: StackMap, stacks: StackMap, pushed: seq<string>)
    requires PushedOn(before, stacks, pushed) && pushed != []
    ensures var x := pushed[|pushed| - 1]; var s := StackOf(stacks, x);
      s != [] && PushedOn(before, stacks[x := s[..|s| - 1]], pushed[..|pushed| - 1])
  {
    var last := |pushed| - 1;
    var x, s := pushed[last], StackOf(stacks, pushed[last]);
    LastCounts(pushed);
    var stacks' := stacks[x := s[..|s| - 1]];
    forall y {:trigger StackOf(stacks', y)}
      ensures StackOf(before, y) <= StackOf(stacks', y)
        && |StackOf(stacks', y)| == |StackOf(before, y)| + multiset(pushed[..last])[y]
    {
      assert StackOf(before, y) <= StackOf(stacks, y);
      assert StackOf(stacks', y) == if y == x then s[..|s| - 1] else StackOf(stacks, y);
    }
  }

  lemma LastCounts(pushed: seq<string>)
    requires pushed != []
    ensures var last := |pushed| - 1;
      forall y :: multiset(pushed)[y] == multiset(pushed[..last])[y] + (if y == pushed[last] then 1 else 0)
  {
    var last := |pushed| - 1;
    assert pushed == pushed[..last] + [pushed[last]];
    assert multiset(pushed) == multiset(pushed[..last]) + multiset{pushed[last]};
  }

  /** The results the phis give their locals. */
  function ResultsOf(phis: seq<Instruction>, t: Stacks): Stacks {
    if phis == [] then t
    else
      var rest := ResultsOf(phis[..|phis| - 1], t);
      var i := phis[|phis| - 1];
      if i.Phi? then rest[i.name := i.result] else rest
  }

  lemma {:induction false} ResultsAt(phis: seq<Instruction>, t: Stacks, m: map<string, Value>)
    requires forall k :: 0 <= k < |phis| ==> phis[k].Phi? && phis[k].name in m && phis[k].result == m[phis[k].name]
    ensures forall x :: x in ResultsOf(phis, t) <==> x in t || HasPhi(phis, x)
    ensures forall x :: x in ResultsOf(phis, t) ==>
      ResultsOf(phis, t)[x] == if HasPhi(phis, x) then (if x in m then m[x] else 0) else t[x]
  {
    if phis != [] {
      var rest, last := phis[..|phis| - 1], phis[|phis| - 1];
      ResultsAt(rest, t, m);
      forall x ensures HasPhi(phis, x) <==> HasPhi(rest, x) || last.name == x {
        if HasPhi(rest, x) {
          var k :| 0 <= k < |rest| && rest[k].Phi? && rest[k].name == x;
          assert phis[k] == rest[k];
        }
        if HasPhi(phis, x) {
          var k :| 0 <= k < |phis| && phis[k].Phi? && phis[k].name == x;
          if k < |rest| { assert rest[k] == phis[k]; }
        }
        assert phis[|rest|] == last;
      }
    }
  }

  lemma PhisPushed(src: Source, r: Renaming, filled: set<BlockId>, b: BlockId, phis: seq<Instruction>, t: Stacks)
    requires PhisOf(src, r, filled, b, phis)
    ensures ResultsOf(phis, t) == t + r.phis[b]
  {
    forall k | 0 <= k < |phis| ensures phis[k].Phi? && phis[k].name in r.phis[b]
      && phis[k].result == r.phis[b][phis[k].name] {
      assert PhiOf(src, r, filled, b, phis[k]);
    }
    ResultsAt(phis, t, r.phis[b]);
    forall x | HasPhi(phis, x) ensures x in r.phis[b] {
      var k :| 0 <= k < |phis| && phis[k].Phi? && phis[k].name == x;
      assert PhiOf(src, r, filled, b, phis[k]);
    }
  }

  /** More decided, nothing finished: what was finished is still right. */
  lemma WorkStays(src: Source, r: Renaming, r': Renaming, instructions: map<BlockId, seq<Instruction>>,
      terminators: map<BlockId, Terminator>, extra: set<BlockId>)
    requires Lowered(src) && AllDone(src, r, instructions, terminators, extra)
    requires Grew(r, r') && AliasesFrom(src, r, r', instructions.Keys)
    requires r'.tops == r.tops && r'.loops == r.loops
    requires forall v :: v in r'.aliases && v !in r.aliases ==>
      exists b :: b in extra && b in src.blocks && v in Loaded(src.blocks[b].instructions)
    ensures AllDone(src, r', instructions, terminators, extra)
  {
    hide Lowered, DoneAt;
    forall b | b in instructions ensures DoneAt(src, r', instructions, terminators, b) {
      AllStay(src, r, r', instructions, terminators, extra, b);
    }
  }

  /** The next number serves for a local that was never assigned. */
  lemma NewUndefined(src: Source, r: Renaming, base: Value, site: map<Value, Site>, nextId: Value, name: string)
    requires Fresh(src, r, base, site) && Numbered(base, site, nextId) && name !in r.undefined
    ensures var r' := r.(undefined := r.undefined[name := nextId]); var site' := site[nextId := UndefinedSite(name)];
      Fresh(src, r', base, site') && Numbered(base, site', nextId + 1) && Grew(r, r')
  {
  }

  /** Aliases gained since `r0` are of loads of `b` before position `i`. */
  ghost predicate AliasedHere(src: Source, r0: Renaming, r: Renaming, b: BlockId, i: nat)
    requires b in src.blocks
  {
    && i <= |src.blocks[b].instructions|
    && forall v :: v in r.aliases && v !in r0.aliases ==> v in Loaded(src.blocks[b].instructions[..i])
  }

  lemma MoreExtra(src: Source, r: Renaming, instructions: map<BlockId, seq<Instruction>>,
      terminators: map<BlockId, Terminator>, b: BlockId)
    requires AllDone(src, r, instructions, terminators, {})
    ensures AllDone(src, r, instructions, terminators, {b})
  {
    hide DoneAt, Loaded;
  }

  lemma NoneRenamed(src: Source, r: Renaming, b: BlockId, t: Stacks)
    requires b in src.blocks
    ensures RenamedTo(src, r, b, t, 0, []) && AliasedHere(src, r, r, b, 0)
    ensures After(r.aliases, src.blocks[b].instructions[..0], t) == t
  {
  }

  lemma GrewOn(r: Renaming, r': Renaming, r'': Renaming)
    requires Grew(r, r') && Grew(r', r'')
    ensures Grew(r, r'')
  {
  }

  ghost predicate AliasesDone(src: Source, r: Renaming, done: set<BlockId>) {
    forall v :: v in r.aliases ==> exists c :: c in done && c in src.blocks && v in Loaded(src.blocks[c].instructions)
  }

  lemma AllAliasesDone(src: Source, r: Renaming, instructions: map<BlockId, seq<Instruction>>,
      terminators: map<BlockId, Terminator>)
    requires AllDone(src, r, instructions, terminators, {})
    ensures AliasesDone(src, r, instructions.Keys)
  {
    hide DoneAt, Loaded;
  }

  lemma NotLoadedBefore(src: Source, b: BlockId, i: nat)
    requires SingleDefinitions(src) && b in src.blocks && i < |src.blocks[b].instructions|
      && src.blocks[b].instructions[i].LoadLocal?
    ensures src.blocks[b].instructions[i].result !in Loaded(src.blocks[b].instructions[..i])
    ensures forall c :: c in src.blocks && src.blocks[b].instructions[i].result in Loaded(src.blocks[c].instructions) ==>
      c == b
  {
    var code := src.blocks[b].instructions;
    var v := code[i].result;
    assert Makes(src.blocks[b], i, v);
    forall k | 0 <= k < i && code[k].LoadLocal? ensures code[k].result != v {
      assert Makes(src.blocks[b], k, code[k].result);
    }
    forall c | c in src.blocks && v in Loaded(src.blocks[c].instructions) ensures c == b {
      var j :| 0 <= j < |src.blocks[c].instructions| && src.blocks[c].instructions[j].LoadLocal?
        && src.blocks[c].instructions[j].result == v;
      assert Makes(src.blocks[c], j, v);
    }
  }

  /** A load is reached before its result has an alias. */
  lemma AliasIsNew(src: Source, r0: Renaming, r: Renaming, done: set<BlockId>, b: BlockId, i: nat)
    requires Lowered(src) && b in src.blocks && b !in done && i < |src.blocks[b].instructions|
    requires src.blocks[b].instructions[i].LoadLocal?
    requires AliasedHere(src, r0, r, b, i) && AliasesDone(src, r0, done)
    ensures src.blocks[b].instructions[i].result !in r.aliases
  {
    hide BlocksAndTree, SingleDefinitions, UsesDefined, LoopsEntered, Loaded;
    NotLoadedBefore(src, b, i);
  }

  lemma AliasedMore(src: Source, r0: Renaming, r: Renaming, r': Renaming, b: BlockId, i: nat)
    requires b in src.blocks && i < |src.blocks[b].instructions| && AliasedHere(src, r0, r, b, i)
    requires r'.aliases.Keys <= r.aliases.Keys + (if src.blocks[b].instructions[i].LoadLocal?
      then {src.blocks[b].instructions[i].result} else {})
    ensures AliasedHere(src, r0, r', b, i + 1)
  {
    PrefixStep(src.blocks[b].instructions, i);
    var code := src.blocks[b].instructions;
    forall v | v in Loaded(code[..i]) ensures v in Loaded(code[..i + 1]) {
      var k :| 0 <= k < i && code[..i][k].LoadLocal? && code[..i][k].result == v;
      assert code[..i + 1][k] == code[..i][k];
    }
    if code[i].LoadLocal? {
      assert code[..i + 1][i].result in Loaded(code[..i + 1]);
    }
  }

  lemma AliasGrows(r: Renaming, r': Renaming, v: Value, u: Value)
    requires v !in r.aliases && r' == r.(aliases := r.aliases[v := u])
    ensures Grew(r, r') && r'.aliases.Keys == r.aliases.Keys + {v}
  {
  }

  lemma AliasKeepsFresh(src: Source, r: Renaming, r': Renaming, base: Value, site: map<Value, Site>)
    requires Fresh(src, r, base, site) && r' == r.(aliases := r'.aliases)
    ensures Fresh(src, r', base, site)
  {
  }

  lemma AliasStays(src: Source, r: Renaming, r': Renaming, instructions: map<BlockId, seq<Instruction>>,
      terminators: map<BlockId, Terminator>, b: BlockId, i: nat)
    requires Lowered(src) && AllDone(src, r, instructions, terminators, {b})
    requires b in src.blocks && b !in instructions && i < |src.blocks[b].instructions|
      && src.blocks[b].instructions[i].LoadLocal?
    requires Grew(r, r') && r'.aliases.Keys == r.aliases.Keys + {src.blocks[b].instructions[i].result}
      && r'.tops == r.tops && r'.loops == r.loops
    ensures AllDone(src, r', instructions, terminators, {b})
  {
    hide Lowered, DoneAt;
    assert src.blocks[b].instructions[i].result in Loaded(src.blocks[b].instructions);
    WorkStays(src, r, r', instructions, terminators, {b});
  }

  // ---- finishing a block ----

  lemma BlockHasItsId(src: Source, b: BlockId)
    requires Lowered(src) && b in src.blocks
    ensures src.blocks[b].id == b
    ensures src.blocks[b].terminator.ForNext? ==> src.blocks[b].terminator.result == None
  {
    assert BlockOk(src, b);
    if src.blocks[b].terminator.ForNext? {
      assert HeaderOk(src, b);
    }
  }

  /** The next number serves for the items of a loop. */
  lemma NewLoop(src: Source, r: Renaming, base: Value, site: map<Value, Site>, nextId: Value,
      instructions: map<BlockId, seq<Instruction>>, terminators: map<BlockId, Terminator>, extra: set<BlockId>,
      h: BlockId)
    requires Fresh(src, r, base, site) && Numbered(base, site, nextId)
    requires AllDone(src, r, instructions, terminators, extra) && h !in instructions
    ensures h !in r.loops
    ensures var r' := r.(loops := r.loops[h := nextId]); var site' := site[nextId := LoopSite(h)];
      Fresh(src, r', base, site') && Numbered(base, site', nextId + 1) && Grew(r, r')
  {
    hide DoneAt;
  }

  lemma TopsKeepFresh(src: Source, r: Renaming, r': Renaming, base: Value, site: map<Value, Site>)
    requires Fresh(src, r, base, site) && r' == r.(tops := r'.tops)
    ensures Fresh(src, r', base, site)
  {
  }

  /** Once its code and terminator are renamed, a block is finished. */
  lemma BlockFinished(src: Source, r0: Renaming, r1: Renaming, r: Renaming,
      instructions: map<BlockId, seq<Instruction>>, terminators: map<BlockId, Terminator>, b: BlockId, t: Stacks,
      kept: seq<Instruction>, terminator: Terminator)
    requires Lowered(src) && AllDone(src, r0, instructions, terminators, {b}) && b in src.blocks && b !in instructions
    requires b != src.tree.root ==> Parent(src, b) in instructions
    requires t == TopsOnEntry(src, r0, b) && RenamedTo(src, r0, b, t, |src.blocks[b].instructions|, kept)
    requires Grew(r0, r1) && r1.tops == r0.tops && r1.undefined == r0.undefined && r1.aliases == r0.aliases
    requires if src.blocks[b].terminator.ForNext? then r1.loops.Keys == r0.loops.Keys + {b} else r1.loops == r0.loops
    requires r == r1.(tops := r1.tops[b := After(r1.aliases, src.blocks[b].instructions, t)])
    requires terminator == RenamedTerminator(r, src.blocks[b])
    ensures Grew(r0, r)
    ensures AllDone(src, r, instructions[b := kept], terminators[b := terminator], {})
  {
    hide Lowered, TreeOf, DoneAt, Loaded, RenamedTo, TopsOnEntry, Grew, RenamedTerminator, After, AliasesFrom;
    FinishedGrew(r0, r1, r, b, After(r1.aliases, src.blocks[b].instructions, t));
    NoNewAliases(src, r0, r, instructions.Keys);
    forall c | c in instructions ensures DoneAt(src, r, instructions[b := kept], terminators[b := terminator], c) {
      AllStay(src, r0, r, instructions, terminators, {b}, c);
      StillDone(src, r, instructions, terminators, b, kept, terminator, c);
    }
    NewlyDone(src, r0, r, instructions, terminators, b, t, kept, terminator);
    forall v | v in r.aliases
      ensures exists c :: c in instructions[b := kept].Keys + {} && c in src.blocks && v in Loaded(src.blocks[c].instructions)
    {
      var c :| c in instructions.Keys + {b} && c in src.blocks && v in Loaded(src.blocks[c].instructions);
    }
  }

  lemma TerminatorMade(r: Renaming, b: Block)
    ensures var t := ResolveTerminator(r.aliases, b.terminator);
      t.ForNext? == b.terminator.ForNext? && RenamedTerminator(r, b) == if t.ForNext? && b.id in r.loops
        then t.(result := Some(r.loops[b.id])) else t
  {
  }

  lemma FinishedGrew(r0: Renaming, r1: Renaming, r: Renaming, b: BlockId, t: Stacks)
    requires Grew(r0, r1) && r1.tops == r0.tops && b !in r0.tops
    requires r == r1.(tops := r1.tops[b := t])
    ensures Grew(r0, r)
  {
  }

  lemma NoNewAliases(src: Source, r: Renaming, r': Renaming, done: set<BlockId>)
    requires r'.aliases == r.aliases
    ensures AliasesFrom(src, r, r', done)
  {
  }

  lemma StillDone(src: Source, r: Renaming, instructions: map<BlockId, seq<Instruction>>,
      terminators: map<BlockId, Terminator>, b: BlockId, kept: seq<Instruction>, terminator: Terminator, c: BlockId)
    requires TreeOf(src) && DoneAt(src, r, instructions, terminators, c) && b !in instructions
    ensures DoneAt(src, r, instructions[b := kept], terminators[b := terminator], c)
  {
    hide BlockDone;
  }

  lemma NewlyDone(src: Source, r0: Renaming, r: Renaming, instructions: map<BlockId, seq<Instruction>>,
      terminators: map<BlockId, Terminator>, b: BlockId, t: Stacks, kept: seq<Instruction>, terminator: Terminator)
    requires Lowered(src) && AllDone(src, r0, instructions, terminators, {b}) && b in src.blocks && b !in instructions
    requires b != src.tree.root ==> Parent(src, b) in instructions
    requires t == TopsOnEntry(src, r0, b) && RenamedTo(src, r0, b, t, |src.blocks[b].instructions|, kept)
    requires Grew(r0, r) && r.undefined == r0.undefined && r.aliases == r0.aliases
    requires b in r.tops && r.tops[b] == After(r.aliases, src.blocks[b].instructions, t)
    requires src.blocks[b].terminator.ForNext? ==> b in r.loops
    requires terminator == RenamedTerminator(r, src.blocks[b])
    ensures DoneAt(src, r, instructions[b := kept], terminators[b := terminator], b)
  {
    hide Lowered;
    var code := src.blocks[b].instructions;
    if b != src.tree.root {
      ParentRenamed(src, r0, instructions, terminators, {b}, Parent(src, b));
    }
    EntryStays(src, r0, r, b);
    assert code[..|code|] == code;
    forall k | 0 <= k < |code| && code[k].LoadLocal?
      ensures code[k].result in r.aliases && Top(r.undefined, After(r.aliases, code[..k], t), code[k].name)
        == Some(r.aliases[code[k].result])
    {
      assert LoadAt(r0, code, t, k);
    }
  }

  // ---- filling phis ----

  /** Every phi of the blocks in `successors` lists `b`. */
  ghost predicate FilledUpTo(phis: map<BlockId, seq<Instruction>>, b: BlockId, successors: seq<BlockId>) {
    forall s :: s in successors && s in phis ==> FirstFilled(phis[s], b, |phis[s]|)
  }

  ghost predicate FirstFilled(phis: seq<Instruction>, b: BlockId, k: nat) {
    k <= |phis| && forall j :: 0 <= j < k ==> phis[j].Phi? && From(phis[j].incoming, b).Some?
  }

  lemma NoneFilled(phis: map<BlockId, seq<Instruction>>, b: BlockId)
    ensures FilledUpTo(phis, b, [])
  {
  }

  lemma FilledNext(phis: map<BlockId, seq<Instruction>>, b: BlockId, before: seq<BlockId>, s: BlockId)
    requires FilledUpTo(phis, b, before) && s !in phis
    ensures FilledUpTo(phis, b, before + [s])
  {
  }

  lemma FilledLast(phis: map<BlockId, seq<Instruction>>, b: BlockId, before: seq<BlockId>, s: BlockId)
    requires FilledUpTo(phis, b, before) && s in phis && FirstFilled(phis[s], b, |phis[s]|)
    ensures FilledUpTo(phis, b, before + [s])
  {
  }

  lemma PhiKeys(src: Source, r: Renaming, filled: set<BlockId>, phis: map<BlockId, seq<Instruction>>)
    requires AllPhis(src, r, filled, phis)
    ensures phis.Keys == r.phis.Keys && forall s :: s in phis ==> PhisOf(src, r, filled, s, phis[s])
  {
    hide PhisOf;
  }

  lemma IsAPhi(src: Source, r: Renaming, filled: set<BlockId>, phis: map<BlockId, seq<Instruction>>, s: BlockId, k: nat)
    requires AllPhis(src, r, filled, phis) && s in phis && k < |phis[s]|
    ensures phis[s][k].Phi? && PhiOf(src, r, filled, s, phis[s][k])
  {
    assert PhisOf(src, r, filled, s, phis[s]);
  }

  lemma {:induction false} FromAppend(incoming: seq<(Value, BlockId)>, one: (Value, BlockId), p: BlockId)
    ensures From(incoming + [one], p) == if From(incoming, p).Some? then From(incoming, p) else if one.1 == p
      then Some(one.0) else None
    decreases |incoming|
  {
    if incoming != [] {
      assert (incoming + [one])[1..] == incoming[1..] + [one];
      FromAppend(incoming[1..], one, p);
    }
  }

  /** One more entry in one phi. */
  lemma FillOne(src: Source, r: Renaming, filled: set<BlockId>, phis: map<BlockId, seq<Instruction>>, b: BlockId,
      s: BlockId, k: nat, v: Value, before: seq<BlockId>)
    requires AllPhis(src, r, filled, phis) && s in phis && k < |phis[s]| && phis[s][k].Phi?
    requires b in r.tops && b in src.blocks && s in Successors(src.blocks[b])
      && Top(r.undefined, r.tops[b], phis[s][k].name) == Some(v)
    requires FilledUpTo(phis, b, before) && FirstFilled(phis[s], b, k)
    ensures var phi := phis[s][k].(incoming := phis[s][k].incoming + [(v, b)]);
      var phis' := phis[s := phis[s][k := phi]];
      AllPhis(src, r, filled, phis') && FilledUpTo(phis', b, before) && FirstFilled(phis'[s], b, k + 1)
  {
    hide PhisOf, FirstFilled;
    var phi := phis[s][k].(incoming := phis[s][k].incoming + [(v, b)]);
    var phis' := phis[s := phis[s][k := phi]];
    assert PhisOf(src, r, filled, s, phis[s]);
    PhiListOne(src, r, filled, s, phis[s], k, v, b);
    forall c | c in phis' ensures PhisOf(src, r, filled, c, phis'[c]) {
      assert PhisOf(src, r, filled, c, phis[c]);
    }
    FirstFilledOne(phis[s], b, k, v);
    forall c | c in before && c in phis' ensures FirstFilled(phis'[c], b, |phis'[c]|) {
      assert FirstFilled(phis[c], b, |phis[c]|);
      if c == s {
        StaysFilled(phis[s], b, k, v);
      }
    }
  }

  lemma FirstFilledOne(list: seq<Instruction>, b: BlockId, k: nat, v: Value)
    requires k < |list| && list[k].Phi? && FirstFilled(list, b, k)
    ensures FirstFilled(list[k := list[k].(incoming := list[k].incoming + [(v, b)])], b, k + 1)
  {
    FromAppend(list[k].incoming, (v, b), b);
  }

  lemma StaysFilled(list: seq<Instruction>, b: BlockId, k: nat, v: Value)
    requires k < |list| && list[k].Phi? && FirstFilled(list, b, |list|)
    ensures FirstFilled(list[k := list[k].(incoming := list[k].incoming + [(v, b)])], b, |list|)
  {
    FromAppend(list[k].incoming, (v, b), b);
  }

  lemma PhiListOne(src: Source, r: Renaming, filled: set<BlockId>, s: BlockId, list: seq<Instruction>, k: nat, v: Value,
      b: BlockId)
    requires PhisOf(src, r, filled, s, list) && k < |list| && list[k].Phi?
    requires b in r.tops && b in src.blocks && s in Successors(src.blocks[b])
      && Top(r.undefined, r.tops[b], list[k].name) == Some(v)
    ensures PhisOf(src, r, filled, s, list[k := list[k].(incoming := list[k].incoming + [(v, b)])])
  {
    var phi := list[k].(incoming := list[k].incoming + [(v, b)]);
    var list' := list[k := phi];
    assert PhiOf(src, r, filled, s, list[k]);
    assert ListsOne(src, r, s, phi.name, (v, b));
    forall p ensures From(list[k].incoming, p).Some? ==> From(phi.incoming, p).Some? {
      FromAppend(list[k].incoming, (v, b), p);
    }
    assert PhiOf(src, r, filled, s, phi);
    forall x | x in r.phis[s] ensures HasPhi(list', x) {
      var j :| 0 <= j < |list| && list[j].Phi? && list[j].name == x;
      assert list'[j].Phi? && list'[j].name == x;
    }
  }

  lemma LeadsTo(b: Block)
    ensures forall s :: s in Targets(b.terminator) + b.exceptionTargets <==> s in Successors(b)
  {
  }

  /** Once its successors' phis list it, a block counts as filled in. */
  lemma AllFilled(src: Source, r: Renaming, filled: set<BlockId>, phis: map<BlockId, seq<Instruction>>, b: BlockId,
      successors: seq<BlockId>)
    requires AllPhis(src, r, filled, phis) && b in src.blocks && FilledUpTo(phis, b, successors)
    requires forall s :: s in Successors(src.blocks[b]) ==> s in successors
    ensures AllPhis(src, r, filled + {b}, phis)
  {
    forall s | s in phis ensures PhisOf(src, r, filled + {b}, s, phis[s]) {
      assert PhisOf(src, r, filled, s, phis[s]);
      forall k | 0 <= k < |phis[s]| ensures PhiOf(src, r, filled + {b}, s, phis[s][k]) {
        assert PhiOf(src, r, filled, s, phis[s][k]);
      }
    }
  }

  lemma NothingPushed(before: StackMap, stacks: StackMap)
    requires PushedOn(before, stacks, [])
    ensures SameStacks(before, stacks)
  {
    forall x ensures StackOf(stacks, x) == StackOf(before, x) {
      assert StackOf(before, x) <= StackOf(stacks, x);
    }
  }

  // ---- the walk of the tree ----

  /** The blocks hanging below `b`, itself included. */
  ghost function Below(src: Source, b: BlockId): set<BlockId>
    requires TreeOf(src)
  {
    set n | n in src.blocks && b in Above(src, n)
  }

  ghost function BelowAny(src: Source, s: seq<BlockId>): set<BlockId>
    requires TreeOf(src)
  {
    set n | n in src.blocks && AboveSomeOf(src.tree.root, src.tree.depth, src.tree.idom, s, n)
  }

  lemma TreeHasChildren(src: Source)
    requires Lowered(src)
    ensures ChildrenOf(src.tree.root, src.tree.idom, src.tree.children)
  {
  }

  lemma BelowStep(src: Source, s: seq<BlockId>, k: nat)
    requires TreeOf(src) && k < |s|
    ensures BelowAny(src, s[..k + 1]) == BelowAny(src, s[..k]) + Below(src, s[k])
  {
    hide Anc;
    assert s[..k + 1] == s[..k] + [s[k]];
  }

  lemma BelowNone(src: Source)
    requires TreeOf(src)
    ensures BelowAny(src, []) == {}
  {
  }

  lemma DeeperBelow(src: Source, c: BlockId)
    requires TreeOf(src) && c in src.blocks && c != src.tree.root
    ensures src.blocks.Keys - Above(src, c) < src.blocks.Keys - Above(src, Parent(src, c))
  {
    var p := Parent(src, c);
    if c in Above(src, p) {
      AncBasics(src.tree.root, src.tree.depth, src.tree.idom, p, c);
    }
    assert c in src.blocks.Keys - Above(src, p);
  }

  lemma BelowSplits(src: Source, b: BlockId)
    requires TreeOf(src) && b in src.blocks && ChildrenOf(src.tree.root, src.tree.idom, src.tree.children)
    ensures Below(src, b) == {b} + BelowAny(src, src.tree.children[b])
  {
    RootAbove(src.tree.root, src.tree.depth, src.tree.idom, b);
    forall n | n in src.blocks ensures n in Below(src, b) <==> n == b || n in BelowAny(src, src.tree.children[b]) {
      ChildOrBelow(src.tree.root, src.tree.depth, src.tree.idom, src.tree.children, b, n);
      BelowOrChild(src.tree.root, src.tree.depth, src.tree.idom, src.tree.children, b, n);
    }
  }

  /** The next child of a finished block is not finished yet. */
  lemma NextChild(src: Source, b: BlockId, k: nat, done: set<BlockId>)
    requires TreeOf(src) && b in src.blocks && ChildrenOf(src.tree.root, src.tree.idom, src.tree.children)
    requires k < |src.tree.children[b]| && b !in done
    requires forall n :: n in done ==> n in src.blocks && Above(src, n) <= done
    ensures var c := src.tree.children[b][k];
      c in src.blocks && c != src.tree.root && Parent(src, c) == b
        && c !in done + {b} + BelowAny(src, src.tree.children[b][..k])
  {
    var c := src.tree.children[b][k];
    ChildHangs(src.tree.root, src.tree.depth, src.tree.idom, src.tree.children, b, k);
    RootAbove(src.tree.root, src.tree.depth, src.tree.idom, c);
    RootAbove(src.tree.root, src.tree.depth, src.tree.idom, b);
    Apart(src.tree.root, src.tree.depth, src.tree.idom, src.tree.children, b, k, c);
    assert b in Above(src, c);
  }

  lemma AllAboveDone(src: Source, r: Renaming, instructions: map<BlockId, seq<Instruction>>,
      terminators: map<BlockId, Terminator>, extra: set<BlockId>)
    requires AllDone(src, r, instructions, terminators, extra)
    ensures forall n :: n in instructions ==> n in src.blocks && Above(src, n) <= instructions.Keys
  {
    hide DoneAt;
    forall n | n in instructions ensures Above(src, n) <= instructions.Keys {
      AboveDone(src, r, instructions, terminators, extra, n);
    }
  }

  /** The header of a loop is finished before its body is. */
  lemma HeaderDone(src: Source, r: Renaming, instructions: map<BlockId, seq<Instruction>>,
      terminators: map<BlockId, Terminator>, s: BlockId)
    requires Lowered(src) && AllDone(src, r, instructions, terminators, {}) && s in src.blocks && s in src.loopOf
    requires s != src.tree.root ==> Parent(src, s) in instructions
    ensures var h := src.loopOf[s].1;
      && h in r.loops && h in terminators
      && terminators[h].ForNext? && terminators[h].result == Some(r.loops[h])
  {
    var h := src.loopOf[s].1;
    LoopHeaderOf(src, s);
    hide Lowered, TreeOf, AllDone;
    BodyBelowHeader(src, s);
    LoopDone(src, r, instructions, terminators, h);
  }

  lemma LoopHeaderOf(src: Source, s: BlockId)
    requires Lowered(src) && s in src.blocks && s in src.loopOf
    ensures var h := src.loopOf[s].1; h in src.blocks && src.blocks[h].terminator.ForNext?
  {
    hide BlocksAndTree, SingleDefinitions, UsesDefined;
    assert BodyOk(src, s);
  }

  lemma LoopDone(src: Source, r: Renaming, instructions: map<BlockId, seq<Instruction>>,
      terminators: map<BlockId, Terminator>, h: BlockId)
    requires Lowered(src) && TreeOf(src) && AllDone(src, r, instructions, terminators, {}) && h in instructions
    requires h in src.blocks && src.blocks[h].terminator.ForNext?
    ensures h in r.loops && h in terminators
    ensures terminators[h].ForNext? && terminators[h].result == Some(r.loops[h])
  {
    assert DoneAt(src, r, instructions, terminators, h);
    BlockHasItsId(src, h);
    hide Lowered, TreeOf, BlockRenamed, Kept, AliasesFrom;
    TerminatorMade(r, src.blocks[h]);
  }

  lemma EntryKept(src: Source, r: Renaming, r': Renaming, instructions: map<BlockId, seq<Instruction>>,
      terminators: map<BlockId, Terminator>, b: BlockId)
    requires Lowered(src) && AllDone(src, r, instructions, terminators, {}) && b in src.blocks && Grew(r, r')
    requires b != src.tree.root ==> Parent(src, b) in instructions
    ensures TopsOnEntry(src, r', b) == TopsOnEntry(src, r, b)
  {
    hide Lowered, DoneAt, BlockRenamed, TopsOnEntry;
    if b != src.tree.root {
      ParentRenamed(src, r, instructions, terminators, {}, Parent(src, b));
    }
    EntryStays(src, r, r', b);
  }

  lemma SameStacksOn(a: StackMap, b: StackMap, c: StackMap)
    requires SameStacks(a, b) && SameStacks(b, c)
    ensures SameStacks(a, c)
  {
  }

  lemma SameTops(a: StackMap, b: StackMap, t: Stacks)
    requires SameStacks(a, b) && TopsAre(a, t)
    ensures TopsAre(b, t)
  {
  }

  lemma SamePushed(before: StackMap, a: StackMap, b: StackMap, pushed: seq<string>)
    requires SameStacks(a, b) && PushedOn(before, a, pushed)
    ensures PushedOn(before, b, pushed)
  {
  }

  lemma SameNone(a: StackMap)
    ensures SameStacks(a, a)
  {
  }

  lemma GrewTops(r: Renaming, r': Renaming, b: BlockId)
    requires Grew(r, r') && b in r.tops
    ensures b in r'.tops && r'.tops[b] == r.tops[b]
  {
  }

  lemma GrewNone(r: Renaming)
    ensures Grew(r, r)
  {
  }

  lemma NonePushed(stacks: StackMap)
    ensures PushedOn(stacks, stacks, [])
  {
  }
}
