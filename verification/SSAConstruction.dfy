/** The renaming itself: phis placed on iterated frontiers, then one walk of the dominator tree
    with a stack of values per local. */
module SSAConstruction {
  import opened Options
  import opened Trees
  import opened DominatorTrees
  import opened IR
  import opened SSAForm
  import opened SSAMeaning
  import opened RenamingWork
  import opened PhiPlacement
  import opened SSAAssembly

  class Renamer {
    const src: Source
    var nextId: Value
    var stacks: StackMap
    var aliases: map<Value, Value>
    var undefined: map<string, Value>
    var phis: map<BlockId, seq<Instruction>>
    var instructions: map<BlockId, seq<Instruction>>
    var terminators: map<BlockId, Terminator>
    ghost var r: Renaming
    ghost var base: Value
    ghost var site: map<Value, Site>
    ghost var filled: set<BlockId>

    /** The work done so far is right; loads of the blocks in `extra` may be aliased already. */
    ghost predicate Valid(extra: set<BlockId>)
      reads this
    {
      && Lowered(src) && TreeOf(src)
      && aliases == r.aliases && undefined == r.undefined
      && AllDone(src, r, instructions, terminators, extra)
      && AllPhis(src, r, filled, phis)
      && filled <= instructions.Keys
      && Fresh(src, r, base, site) && Numbered(base, site, nextId)
    }

    constructor (src: Source)
      requires Lowered(src) && TreeOf(src)
      ensures this.src == src && Valid({})
      ensures instructions == map[] && phis == map[] && stacks == map[] && filled == {}
    {
      hide Lowered, TreeOf, Makes;
      var next := NextValue(src.code);
      NothingMade(src, next);
      this.src := src;
      nextId, stacks, aliases, undefined := next, map[], map[], map[];
      phis, instructions, terminators := map[], map[], map[];
      r, base, site, filled := Renaming(map[], map[], map[], map[], map[]), next, map[], {};
    }

    /** The value at the top of the stack of a local, or the one standing for its absence. */
    method Current(name: string, ghost extra: set<BlockId>, ghost t: Stacks) returns (v: Value)
      requires Valid(extra) && TopsAre(stacks, t)
      modifies `undefined, `nextId, `r, `site
      ensures Valid(extra)
      ensures r == old(r).(undefined := r.undefined) && Grew(old(r), r)
      ensures Top(r.undefined, t, name) == Some(v)
    {
      hide Lowered, TreeOf, AllDone, AllPhis, Fresh, Numbered, Grew;
      GrewNone(r);
      var stack := StackOf(stacks, name);
      if stack != [] {
        return stack[|stack| - 1];
      }
      if name !in undefined {
        ghost var r0 := r;
        NewUndefined(src, r, base, site, nextId, name);
        v := nextId;
        nextId := nextId + 1;
        undefined := undefined[name := v];
        r := r.(undefined := undefined);
        site := site[v := UndefinedSite(name)];
        WorkStays(src, r0, r, instructions, terminators, extra);
        PhisStay(src, r0, r, filled, phis);
      }
      v := undefined[name];
    }

    /** Places the phis, each with no operand yet. */
    method PlacePhis()
      requires Valid({}) && src.live.Keys == src.blocks.Keys && instructions == map[] && phis == map[]
      modifies `nextId, `phis, `r, `site
      ensures Valid({}) && PhisPlaced(src, r) && r == old(r).(phis := r.phis)
    {
      hide Lowered, TreeOf, AllDone, AllPhis, Fresh, Numbered, PlacedFor, PhisPlaced;
      ghost var r0 := r;
      var definitions := CollectDefinitions(src);
      PhiKeys(src, r, filled, phis);
      NothingPlaced(src, r);
      var names := definitions.Keys;
      assert definitions.Keys - names == {};
      while names != {}
        invariant names <= definitions.Keys
        invariant Valid({}) && instructions == map[] && r == r0.(phis := r.phis)
        invariant PlacedFor(src, r, definitions.Keys - names, "", {})
      {
        var name :| name in names;
        NextName(src, r, definitions.Keys - names, name);
        ghost var done := definitions.Keys - names;
        PlaceFor(name, definitions[name], done);
        names := names - {name};
        assert done + {name} == definitions.Keys - names;
      }
      assert definitions.Keys - names == definitions.Keys;
      AllNamesDone(src, r, definitions.Keys);
    }

    /** Gives a block one more phi, with no operand yet. */
    method AddPhi(block: BlockId, name: string)
      requires Valid({}) && instructions == map[] && filled == {} && block in src.blocks && !HasPhiFor(r, block, name)
      modifies `nextId, `phis, `r, `site
      ensures Valid({}) && r == old(r).(phis := WithPhi(old(r).phis, block, name, old(nextId)))
    {
      hide Lowered, TreeOf, AllDone, AllPhis, Fresh, Numbered;
      ghost var r0 := r;
      NewPhi(src, r, phis, base, site, nextId, block, name);
      phis := phis[block := (if block in phis then phis[block] else []) + [Phi(nextId, name, [])]];
      r := r.(phis := WithPhi(r.phis, block, name, nextId));
      site := site[nextId := PhiSite(block, name)];
      nextId := nextId + 1;
      NothingDoneYet(src, r0, r, terminators);
    }

    /** Places the phis of one local, given the blocks assigning it. */
    method PlaceFor(name: string, starts: set<BlockId>, ghost done: set<string>)
      requires Valid({}) && src.live.Keys == src.blocks.Keys && instructions == map[]
      requires starts == Assigners(src, name) && name !in done && PlacedFor(src, r, done, name, {})
      modifies `nextId, `phis, `r, `site
      ensures Valid({}) && r == old(r).(phis := r.phis)
      ensures PlacedFor(src, r, done + {name}, "", {})
    {
      hide BlocksAndTree, SingleDefinitions, UsesDefined, LoopsEntered, TreeOf, AllDone, AllPhis, Fresh, Numbered,
        PlacedFor, InIteratedFrontier, Assigns, WithPhi, HasPhiFor;
      FrontierInTree(src);
      var blocks := IteratedFrontier(src.tree.frontier, starts);
      FrontierReachable(src, name);
      var todo := blocks;
      assert blocks - todo == {} && filled == {};
      while todo != {}
        invariant todo <= blocks && filled == {}
        invariant Valid({}) && instructions == map[] && r == old(r).(phis := r.phis)
        invariant PlacedFor(src, r, done, name, blocks - todo)
      {
        var block :| block in todo;
        ghost var r1 := r;
        if name in src.live[block] {
          NotYetPlaced(src, r, done, name, blocks - todo, block);
          AddPhi(block, name);
        }
        PlacedOne(src, r1, r, done, name, blocks - todo, block);
        assert blocks - todo + {block} == blocks - (todo - {block});
        todo := todo - {block};
      }
      assert blocks - todo == blocks;
      NameDone(src, r, done, name, blocks);
    }

    /** Pushes the loop variable and the phis of a block. */
    method PushEntry(block: BlockId) returns (pushed: seq<string>)
      requires Valid({}) && block in src.blocks && TopsAre(stacks, TopsIn(src, r.tops, block))
      requires block in src.loopOf ==>
        src.loopOf[block].1 in r.loops && src.loopOf[block].1 in terminators
        && terminators[src.loopOf[block].1].ForNext?
                                       && terminators[src.loopOf[block].1].result == Some(r.loops[src.loopOf[block].1])
      modifies `stacks
      ensures TopsAre(stacks, TopsOnEntry(src, r, block)) && PushedOn(old(stacks), stacks, pushed)
    {
      hide Lowered, TreeOf, AllDone, AllPhis, PhisOf, PhiOf, Fresh, Numbered, TopsAre, PushedOn;
      PhiKeys(src, r, filled, phis);
      ghost var before := stacks;
      ghost var t := TopsIn(src, r.tops, block);
      pushed := [];
      NonePushed(before);
      if block in src.loopOf {
        var (name, header) := src.loopOf[block];
        var v := terminators[header].result.value;
        PushTop(before, stacks, t, pushed, name, v);
        stacks, pushed, t := Pushed(stacks, name, v), pushed + [name], t[name := v];
      }
      if block in phis {
        var k := 0;
        while k < |phis[block]|
          invariant 0 <= k <= |phis[block]|
          invariant TopsAre(stacks, ResultsOf(phis[block][..k], t)) && PushedOn(before, stacks, pushed)
        {
          var phi := phis[block][k];
          IsAPhi(src, r, filled, phis, block, k);
          assert phis[block][..k + 1][..k] == phis[block][..k];
          PushTop(before, stacks, ResultsOf(phis[block][..k], t), pushed, phi.name, phi.result);
          stacks, pushed := Pushed(stacks, phi.name, phi.result), pushed + [phi.name];
          k := k + 1;
        }
        assert phis[block][..k] == phis[block];
        PhisPushed(src, r, filled, block, phis[block], t);
      }
    }

    /** A load becomes another name for the current value of its local. */
    method AliasLoad(block: BlockId, i: nat, ghost r0: Renaming, ghost t: Stacks, ghost kept: seq<Instruction>)
      requires Valid({block}) && block in src.blocks && block !in instructions
      requires i < |src.blocks[block].instructions| && src.blocks[block].instructions[i].LoadLocal?
      requires Grew(r0, r) && AliasedHere(src, r0, r, block, i) && RenamedTo(src, r, block, t, i, kept)
      requires AliasesDone(src, r0, instructions.Keys)
      requires TopsAre(stacks, After(r.aliases, src.blocks[block].instructions[..i], t))
      modifies `aliases, `undefined, `nextId, `r, `site
      ensures Valid({block}) && Grew(r0, r) && r.tops == old(r.tops) && r.loops == old(r.loops)
      ensures AliasedHere(src, r0, r, block, i + 1) && RenamedTo(src, r, block, t, i + 1, kept)
      ensures TopsAre(stacks, After(r.aliases, src.blocks[block].instructions[..i + 1], t))
    {
      hide Lowered, TreeOf, AllDone, AllPhis, Fresh, Numbered, Grew, TopsAre, PushedOn, RenamedTo, TopsOnEntry,
        AliasedHere, AliasesDone;
      var code := src.blocks[block].instructions;
      ghost var here := After(r.aliases, code[..i], t);
      ghost var r1 := r;
      var result := code[i].result;
      var v := Current(code[i].name, {block}, here);
      AliasIsNew(src, r0, r1, instructions.Keys, block, i);
      ghost var r2 := r.(aliases := r.aliases[result := v]);
      AliasedMore(src, r0, r1, r2, block, i);
      AliasGrows(r, r2, result, v);
      GrewOn(r0, r1, r);
      GrewOn(r0, r, r2);
      GrewOn(r1, r, r2);
      LoadRenamed(src, r1, r2, block, t, i, kept);
      AliasStays(src, r, r2, instructions, terminators, block, i);
      PhisStay(src, r, r2, filled, phis);
      AliasKeepsFresh(src, r, r2, base, site);
      aliases := aliases[result := v];
      r := r2;
    }

    /** Replaces loads by aliases and stores by pushes; keeps the rest, operands resolved. */
    method RenameInstructions(block: BlockId, ghost before: StackMap, pushed0: seq<string>)
        returns (kept: seq<Instruction>, pushed: seq<string>)
      requires Valid({}) && block in src.blocks && block !in instructions
      requires TopsAre(stacks, TopsOnEntry(src, r, block)) && PushedOn(before, stacks, pushed0)
      modifies `stacks, `aliases, `undefined, `nextId, `r, `site
      ensures Valid({block}) && Grew(old(r), r) && r.tops == old(r.tops) && r.loops == old(r.loops)
      ensures RenamedTo(src, r, block, TopsOnEntry(src, old(r), block), |src.blocks[block].instructions|, kept)
      ensures TopsAre(stacks, After(r.aliases, src.blocks[block].instructions, TopsOnEntry(src, old(r), block)))
        && PushedOn(before, stacks, pushed)
    {
      hide Lowered, TreeOf, AllDone, AllPhis, Fresh, Numbered, Grew, TopsAre, PushedOn, RenamedTo, TopsOnEntry,
        AliasedHere, AliasesDone;
      ghost var t := TopsOnEntry(src, r, block);
      ghost var r0 := r;
      var code := src.blocks[block].instructions;
      kept, pushed := [], pushed0;
      GrewNone(r);
      MoreExtra(src, r, instructions, terminators, block);
      AllAliasesDone(src, r, instructions, terminators);
      NoneRenamed(src, r, block, t);
      var i := 0;
      while i < |code|
        invariant 0 <= i <= |code|
        invariant Valid({block}) && Grew(r0, r) && r.tops == r0.tops && r.loops == r0.loops
        invariant AliasedHere(src, r0, r, block, i)
        invariant RenamedTo(src, r, block, t, i, kept)
        invariant TopsAre(stacks, After(r.aliases, code[..i], t)) && PushedOn(before, stacks, pushed)
      {
        ghost var here := After(r.aliases, code[..i], t);
        if code[i].LoadLocal? {
          AliasLoad(block, i, r0, t, kept);
        } else {
          OtherRenamed(src, r, block, t, i, kept);
          AliasedMore(src, r0, r, r, block, i);
          if code[i].StoreLocal? {
            var name, v := code[i].name, Resolve(aliases, code[i].value);
            PushTop(before, stacks, here, pushed, name, v);
            stacks, pushed := Pushed(stacks, name, v), pushed + [name];
            assert kept + KeptOf(r.aliases, code[i]) == kept;
          } else {
            kept := kept + KeptOf(aliases, code[i]);
          }
        }
        i := i + 1;
      }
      assert code[..i] == code;
    }

    /** The terminator of a block resolved, and for a loop header the value of the next item
        made. */
    method EndOf(block: BlockId) returns (terminator: Terminator)
      requires Valid({block}) && block in src.blocks && block !in instructions
      modifies `nextId, `r, `site
      ensures Fresh(src, r, base, site) && Numbered(base, site, nextId) && Grew(old(r), r)
      ensures r == old(r).(loops := r.loops) && terminator == RenamedTerminator(r, src.blocks[block])
      ensures if src.blocks[block].terminator.ForNext? then r.loops.Keys == old(r.loops.Keys) + {block}
        else r.loops == old(r.loops)
    {
      hide Lowered, TreeOf, AllDone, AllPhis, Fresh, Numbered, Grew, ResolveTerminator, RenamedTerminator;
      BlockHasItsId(src, block);
      terminator := ResolveTerminator(aliases, src.blocks[block].terminator);
      TerminatorMade(r, src.blocks[block]);
      if terminator.ForNext? {
        NewLoop(src, r, base, site, nextId, instructions, terminators, {block}, block);
        terminator := terminator.(result := Some(nextId));
        r := r.(loops := r.loops[block := nextId]);
        site := site[nextId := LoopSite(block)];
        nextId := nextId + 1;
        TerminatorMade(r, src.blocks[block]);
      } else {
        GrewNone(r);
      }
    }

    /** Ends a block. */
    method Finish(block: BlockId, kept: seq<Instruction>, ghost t: Stacks)
      requires Valid({block}) && block in src.blocks && block !in instructions
      requires block != src.tree.root ==> Parent(src, block) in instructions
      requires t == TopsOnEntry(src, r, block) && RenamedTo(src, r, block, t, |src.blocks[block].instructions|, kept)
      modifies `nextId, `instructions, `terminators, `r, `site
      ensures Valid({}) && Grew(old(r), r) && instructions.Keys == old(instructions.Keys) + {block}
      ensures r.tops == old(r.tops)[block := After(r.aliases, src.blocks[block].instructions, t)]
      ensures r.undefined == old(r.undefined)
    {
      hide Lowered, TreeOf, AllDone, AllPhis, Fresh, Numbered, Grew, RenamedTo, TopsOnEntry, After, ResolveTerminator,
        RenamedTerminator;
      ghost var r0 := r;
      var terminator := EndOf(block);
      ghost var r1 := r;
      r := r.(tops := r.tops[block := After(r.aliases, src.blocks[block].instructions, t)]);
      TerminatorMade(r1, src.blocks[block]);
      TerminatorMade(r, src.blocks[block]);
      BlockFinished(src, r0, r1, r, instructions, terminators, block, t, kept, terminator);
      instructions := instructions[block := kept];
      terminators := terminators[block := terminator];
      PhisStay(src, r0, r, filled, phis);
      TopsKeepFresh(src, r1, r, base, site);
    }

    /** Adds to the phis of every successor what the stacks hold at the end of the block. */
    method FillSuccessors(block: BlockId, ghost t: Stacks)
      requires Valid({}) && block in src.blocks && block in instructions && filled == instructions.Keys - {block}
      requires TopsAre(stacks, t) && block in r.tops && r.tops[block] == t
      modifies `undefined, `nextId, `r, `site, `phis, `filled
      ensures Valid({}) && filled == instructions.Keys
      ensures r == old(r).(undefined := r.undefined) && Grew(old(r), r)
    {
      hide Lowered, TreeOf, AllDone, AllPhis, Fresh, Numbered, Grew, TopsAre, FilledUpTo, Successors, Targets;
      var successors := Targets(src.blocks[block].terminator) + src.blocks[block].exceptionTargets;
      LeadsTo(src.blocks[block]);
      ghost var r0 := r;
      GrewNone(r);
      NoneFilled(phis, block);
      var j := 0;
      while j < |successors|
        invariant 0 <= j <= |successors|
        invariant Valid({}) && r == r0.(undefined := r.undefined) && Grew(r0, r)
        invariant filled == instructions.Keys - {block}
        invariant FilledUpTo(phis, block, successors[..j])
      {
        var successor := successors[j];
        assert successors[..j + 1] == successors[..j] + [successor];
        if successor in phis {
          ghost var r1 := r;
          Fill(block, successor, t, successors[..j]);
          GrewOn(r0, r1, r);
        } else {
          FilledNext(phis, block, successors[..j], successor);
        }
        j := j + 1;
      }
      assert successors[..j] == successors;
      AllFilled(src, r, filled, phis, block, successors);
      filled := filled + {block};
    }

    /** Adds to each phi of `successor` the value it receives from `block`. */
    method Fill(block: BlockId, successor: BlockId, ghost t: Stacks, ghost before: seq<BlockId>)
      requires Valid({}) && block in src.blocks && block in instructions && filled == instructions.Keys - {block}
      requires TopsAre(stacks, t) && block in r.tops && r.tops[block] == t
      requires successor in Successors(src.blocks[block]) && successor in phis
      requires FilledUpTo(phis, block, before)
      modifies `undefined, `nextId, `r, `site, `phis
      ensures Valid({})
      ensures r == old(r).(undefined := r.undefined) && Grew(old(r), r)
      ensures FilledUpTo(phis, block, before + [successor])
    {
      hide Lowered, AllDone, AllPhis, Fresh, Numbered, Grew, TopsAre, FilledUpTo;
      ghost var r0 := r;
      GrewNone(r);
      var k := 0;
      while k < |phis[successor]|
        invariant successor in phis && 0 <= k <= |phis[successor]|
        invariant Valid({}) && r == r0.(undefined := r.undefined) && Grew(r0, r)
        invariant FilledUpTo(phis, block, before)
        invariant FirstFilled(phis[successor], block, k)
        decreases |phis[successor]| - k
      {
        var phi := phis[successor][k];
        IsAPhi(src, r, filled, phis, successor, k);
        ghost var r1 := r;
        var v := Current(phi.name, {}, t);
        GrewOn(r0, r1, r);
        FillOne(src, r, filled, phis, block, successor, k, v, before);
        phis := phis[successor := phis[successor][k := phi.(incoming := phi.incoming + [(v, block)])]];
        k := k + 1;
      }
      FilledLast(phis, block, before, successor);
    }

    /** Undoes the pushes of a block, the last first. */
    method PopAll(pushed: seq<string>, ghost before: StackMap)
      requires PushedOn(before, stacks, pushed)
      modifies `stacks
      ensures SameStacks(before, stacks)
    {
      hide PushedOn;
      var k := |pushed|;
      assert pushed[..k] == pushed;
      while k > 0
        invariant 0 <= k <= |pushed| && PushedOn(before, stacks, pushed[..k])
      {
        k := k - 1;
        var name := pushed[k];
        PopLast(before, stacks, pushed[..k + 1]);
        assert pushed[..k + 1][..k] == pushed[..k];
        var s := StackOf(stacks, name);
        stacks := stacks[name := s[..|s| - 1]];
      }
      NothingPushed(before, stacks);
    }

    /** Renames the code of one block and hands its values to its successors' phis. */
    method RenameBlock(block: BlockId) returns (pushed: seq<string>)
      requires Valid({}) && filled == instructions.Keys && block in src.blocks && block !in instructions
      requires block != src.tree.root ==> Parent(src, block) in instructions
      requires TopsAre(stacks, TopsIn(src, r.tops, block))
      modifies `nextId, `stacks, `aliases, `undefined, `phis, `instructions, `terminators, `r, `site, `filled
      ensures Valid({}) && filled == instructions.Keys && Grew(old(r), r)
      ensures instructions.Keys == old(instructions.Keys) + {block}
      ensures block in r.tops && TopsAre(stacks, r.tops[block]) && PushedOn(old(stacks), stacks, pushed)
    {
      hide Lowered, AllDone, AllPhis, Fresh, Numbered, Grew, TopsAre, PushedOn, RenamedTo, TopsOnEntry, TopsIn, After,
        Anc;
      ghost var before, r0 := stacks, r;
      ghost var instructions0, terminators0 := instructions, terminators;
      if block in src.loopOf {
        HeaderDone(src, r, instructions, terminators, block);
      }
      ghost var t := TopsOnEntry(src, r, block);
      pushed := PushEntry(block);
      var kept;
      kept, pushed := RenameInstructions(block, before, pushed);
      ghost var r1 := r;
      EntryKept(src, r0, r1, instructions0, terminators0, block);
      Finish(block, kept, t);
      ghost var r2 := r;
      FillSuccessors(block, r.tops[block]);
      GrewOn(r0, r1, r2);
      GrewOn(r0, r2, r);
    }

    /** Renames a block and everything below it in the dominator tree. */
    method Rename(block: BlockId)
      requires Valid({}) && filled == instructions.Keys && block in src.blocks && block !in instructions
      requires block != src.tree.root ==> Parent(src, block) in instructions
      requires TopsAre(stacks, TopsIn(src, r.tops, block))
      modifies `nextId, `stacks, `aliases, `undefined, `phis, `instructions, `terminators, `r, `site, `filled
      ensures Valid({}) && filled == instructions.Keys && Grew(old(r), r)
      ensures instructions.Keys == old(instructions.Keys) + Below(src, block)
      ensures SameStacks(old(stacks), stacks)
      decreases src.blocks.Keys - Above(src, block)
    {
      hide Lowered, AllDone, AllPhis, Fresh, Numbered, Grew, TopsAre, PushedOn, SameStacks, TopsIn, Above, Below;
      ghost var before, r0, done := stacks, r, instructions.Keys;
      AllAboveDone(src, r, instructions, terminators, {});
      var pushed := RenameBlock(block);
      ghost var r1 := r;
      WalkBelow(block, r.tops[block], before, pushed, done);
      GrewOn(r0, r1, r);
      PopAll(pushed, before);
    }

    /** Renames what hangs below a finished block. */
    method WalkBelow(block: BlockId, ghost t: Stacks, ghost before: StackMap, ghost pushed: seq<string>,
        ghost done: set<BlockId>)
      requires Valid({}) && filled == instructions.Keys && block in src.blocks && block in r.tops && t == r.tops[block]
      requires TopsAre(stacks, t) && PushedOn(before, stacks, pushed)
      requires block !in done && instructions.Keys == done + {block}
      requires forall n :: n in done ==> n in src.blocks && Above(src, n) <= done
      modifies `nextId, `stacks, `aliases, `undefined, `phis, `instructions, `terminators, `r, `site, `filled
      ensures Valid({}) && filled == instructions.Keys && Grew(old(r), r)
      ensures instructions.Keys == done + Below(src, block)
      ensures PushedOn(before, stacks, pushed)
      decreases src.blocks.Keys - Above(src, block), 0
    {
      hide Lowered, AllDone, AllPhis, Fresh, Numbered, Grew, TopsAre, PushedOn, SameStacks, Above, Below, BelowAny,
        ChildrenOf;
      ghost var stacks0, r0 := stacks, r;
      TreeHasChildren(src);
      BelowNone(src);
      assert src.tree.children[block][..0] == [];
      SameNone(stacks);
      GrewNone(r);
      var k := 0;
      while k < |src.tree.children[block]|
        invariant 0 <= k <= |src.tree.children[block]|
        invariant Valid({}) && filled == instructions.Keys && Grew(r0, r)
        invariant instructions.Keys == done + {block} + BelowAny(src, src.tree.children[block][..k])
        invariant SameStacks(stacks0, stacks)
      {
        var child := src.tree.children[block][k];
        ghost var stacks1, r1 := stacks, r;
        NextChild(src, block, k, done);
        GrewTops(r0, r, block);
        SameTops(stacks0, stacks, t);
        DeeperBelow(src, child);
        Rename(child);
        SameStacksOn(stacks0, stacks1, stacks);
        GrewOn(r0, r1, r);
        BelowStep(src, src.tree.children[block], k);
        k := k + 1;
      }
      assert src.tree.children[block][..k] == src.tree.children[block];
      BelowSplits(src, block);
      SamePushed(before, stacks0, stacks, pushed);
    }

    /** The converted block, its code renamed. */
    method Assemble(block: Block, predecessors: seq<BlockId>) returns (made: Block)
      requires Valid({}) && instructions.Keys == src.blocks.Keys == filled
      requires block.id in src.blocks && src.blocks[block.id] == block
      requires predecessors == PredecessorsIn(src.code.blocks, src.blocks.Keys, block.id)
      ensures IsConvertedBlock(src, r, block.id, made)
    {
      hide BlocksAndTree, SingleDefinitions, UsesDefined, LoopsEntered, TreeOf, AllDone, AllPhis, PhisOf, Fresh,
        Numbered, HasPhis, IsConvertedBlock;
      PhiKeys(src, r, filled, phis);
      var first := [];
      if block.id == src.code.entry {
        first := UndefinedValues(undefined);
      }
      var ordered := OrderedPhis(src, r, filled, block.id, if block.id in phis then phis[block.id]
        else [], predecessors);
      BlockKept(src, r, instructions, terminators, block.id);
      made := Block(block.id, first + ordered + instructions[block.id], terminators[block.id], block.exceptionTargets);
      BlockMade(src, r, block.id, made, first, ordered);
    }

    /** Places the phis and renames every reachable block. */
    method RenameAll()
      requires Valid({}) && LiveFlows(src)
      requires instructions == map[] && phis == map[] && stacks == map[] && filled == {}
      modifies `nextId, `stacks, `aliases, `undefined, `phis, `instructions, `terminators, `r, `site, `filled
      ensures Valid({}) && instructions.Keys == src.blocks.Keys == filled
      ensures Ready(src, r, base, site)
    {
      hide Lowered, TreeOf, AllDone, AllPhis, Fresh, Numbered, Grew, PhisPlaced, AllRenamed, LiveFlows, TopsAre, Ready,
        SameStacks;
      LiveKeys(src);
      PlacePhis();
      ghost var r0 := r;
      RootReachable(src, r.tops);
      Rename(src.tree.root);
      EverythingBelowRoot(src);
      PlacedStays(src, r0, r);
      RenamingComplete(src, r, instructions, terminators, filled, phis);
      ReadyNow(src, r, base, site);
    }

    /** The function in SSA form, before its values are renumbered. */
    method Build() returns (out: Function)
      requires Valid({}) && LiveFlows(src)
      requires instructions == map[] && phis == map[] && stacks == map[] && filled == {}
      modifies `nextId, `stacks, `aliases, `undefined, `phis, `instructions, `terminators, `r, `site, `filled
      ensures Ready(src, r, base, site) && IsConverted(src, r, out)
    {
      hide Lowered, TreeOf, AllDone, AllPhis, Fresh, Numbered, LiveFlows, Ready, MadeUpTo, IsConvertedBlock,
        IsConverted;
      RenameAll();
      var predecessors := Predecessors(src);
      var blocks: seq<Block> := [];
      NoneMade(src, r);
      var k := 0;
      while k < |src.code.blocks|
        invariant 0 <= k <= |src.code.blocks|
        invariant MadeUpTo(src, r, k, blocks)
        modifies {}
      {
        var block := src.code.blocks[k];
        if block.id in src.blocks {
          Listed(src, k);
          var made := Assemble(block, predecessors[block.id]);
          MadeOne(src, r, k, blocks, made);
          blocks := blocks + [made];
        } else {
          SkippedOne(src, r, k, blocks);
        }
        k := k + 1;
      }
      out := src.code.(blocks := blocks);
      AllMade(src, r, blocks, out);
    }
  }
}
