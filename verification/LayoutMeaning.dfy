/** The blocks laid out for some statements hold them. */
module LayoutMeaning {
  import opened Options
  import opened Structured
  import opened Layout
  import opened LayoutFacts
  import opened CfgShape
  import opened CfgRuns

  /** The contexts in force. */
  function AroundOf(b: Building): Around {
    Around(b.loops, ExceptionTargets(b))
  }

  /** Where the next item of an open block goes. */
  function Front(open: Open): Place {
    (open.id, |open.items|)
  }

  /** Where a statement goes on. */
  function ExitOf(s: Statement, out: Option<Open>, continuation: Option<BlockId>): Option<Place> {
    if out.Some? then Some(Front(out.value))
    else if continuation.Some? && (s.If? || s.While? || s.For? || s.Try?) then Some((continuation.value, 0))
    else None
  }

  /** How the end of some statements and the block left open belong together; `over` says that no
      statement is left. */
  ghost predicate EndsAs(e: Option<Place>, out: Option<Open>, continuation: Option<BlockId>, over: bool) {
    if e.None? then out.Some? ==> !over && out.value.items == []
    else if out.Some? then e.value == Front(out.value)
    else continuation.Some? && e.value == (continuation.value, 0)
  }

  /** The finished graph holds the blocks finished so far, and continues the open one. */
  ghost predicate Extends(g: Blocks, b: Building, out: Option<Open>) {
    && (forall id :: id in b.blocks ==> id in g && g[id] == b.blocks[id])
    && (out.Some? ==>
          && out.value.id in g && out.value.items <= g[out.value.id].items
          && g[out.value.id].exceptionTargets == ExceptionTargets(b))
  }

  lemma ExtendsBack(g: Blocks, b: Building, open: Open, continuation: Option<BlockId>, b': Building, out: Option<Open>)
    requires Built(b, open, continuation, b', out) && Extends(g, b', out)
    ensures Extends(g, b, Some(open))
  {
  }

  lemma ExtendsGrown(g: Blocks, b: Building, b': Building, mine: set<BlockId>, out: Option<Open>)
    requires Grows(b, b', mine) && Extends(g, b', out)
    ensures Extends(g, b, None)
  {
  }

  // ---- statements one after the other ----

  lemma {:induction false} HeldUpTo(g: Blocks, b: Building, statements: seq<Statement>, k: nat, open: Open,
      continuation: Option<BlockId>) returns (e: Option<Place>)
    requires k <= |statements| && Fits(b, open, continuation)
    requires var r := LayUpTo(b, statements, k, open, continuation); r.Laid? && Extends(g, r.b, r.out)
    ensures HoldsUpTo(g, statements, k, Front(open), e, AroundOf(b))
    ensures EndsAs(e, LayUpTo(b, statements, k, open, continuation).out,
      if k == |statements| then continuation else None, k == |statements|)
    decreases SizeAll(statements), k + 4
  {
    hide Fits, Extends, Built, Holds, LayStatement, ExitOf;
    if k == 0 {
      e := Some(Front(open));
    } else {
      var r := LayUpTo(b, statements, k - 1, open, continuation);
      var here := if k == |statements| then continuation else None;
      var r' := LayStatement(r.b, statements[k - 1], r.out.value, here);
      FitsLess(b, open, continuation);
      BuiltUpTo(b, statements, k - 1, open, continuation);
      FitsOn(b, open, None, r.b, r.out.value, here);
      BuiltStatement(r.b, statements[k - 1], r.out.value, here);
      if r'.out.None? && k < |statements| {
        DeadExtends(g, r'.b);
      }
      ExtendsBack(g, r.b, r.out.value, here, r'.b, r'.out);
      var m := HeldUpTo(g, b, statements, k - 1, open, continuation);
      HeldStatement(g, r.b, statements[k - 1], r.out.value, here);
      UpToEnds(b, statements, k, open, continuation);
      e := ExitOf(statements[k - 1], r'.out, here);
      var q := Front(r.out.value);
      assert HoldsUpTo(g, statements, k - 1, Front(open), m, AroundOf(b))
        && (if m.Some? then q == m.value else q.1 == 0) && Holds(g, statements[k - 1], q, e, AroundOf(b));
    }
  }

  lemma UpToEnds(b: Building, statements: seq<Statement>, k: nat, open: Open, continuation: Option<BlockId>)
    requires 0 < k <= |statements| && LayUpTo(b, statements, k, open, continuation).Laid?
    ensures var r := LayUpTo(b, statements, k - 1, open, continuation);
      var here := if k == |statements| then continuation else None;
      var r' := LayStatement(r.b, statements[k - 1], r.out.value, here);
      EndsAs(ExitOf(statements[k - 1], r'.out, here), LayUpTo(b, statements, k, open, continuation).out, here,
        k == |statements|)
  {
    hide LayStatement;
  }

  lemma DeadExtends(g: Blocks, b: Building)
    requires Extends(g, Counted(b, "dead"), Some(Open(Next(b, "dead"), [])))
    ensures Extends(g, b, None)
  {
  }

  /** Statements that go on at a block. */
  lemma {:induction false} HeldTo(g: Blocks, b: Building, statements: seq<Statement>, open: Open, next: BlockId)
    requires Fits(b, open, Some(next))
    requires var r := LayAll(b, statements, open, Some(next)); r.Laid? && Extends(g, r.b, r.out)
    ensures HoldsTo(g, statements, Front(open), (next, 0), AroundOf(b))
    decreases SizeAll(statements), |statements| + 5
  {
    hide Fits, HoldsUpTo, Built;
    var r := LayUpTo(b, statements, |statements|, open, Some(next));
    if r.out.Some? {
      BuiltUpTo(b, statements, |statements|, open, Some(next));
      FitsOn(b, open, Some(next), r.b, r.out.value, Some(next));
      OpenIsNew(r.b, r.out.value, Some(next));
      EndsAtFront(g, r.b, r.out.value, Jump(next));
      assert Extends(g, r.b, r.out);
    }
    var e := HeldUpTo(g, b, statements, |statements|, open, Some(next));
    assert Joins(g, e, (next, 0), AroundOf(b));
  }

  /** Statements that leave their last block open, if any. */
  lemma {:induction false} HeldAll(g: Blocks, b: Building, statements: seq<Statement>, open: Open)
      returns (e: Option<Place>)
    requires Fits(b, open, None)
    requires var r := LayAll(b, statements, open, None); r.Laid? && Extends(g, r.b, r.out)
    ensures HoldsUpTo(g, statements, |statements|, Front(open), e, AroundOf(b))
    ensures var r := LayAll(b, statements, open, None); e == if r.out.Some? then Some(Front(r.out.value)) else None
    decreases SizeAll(statements), |statements| + 5
  {
    hide Fits, HoldsUpTo, Extends;
    e := HeldUpTo(g, b, statements, |statements|, open, None);
  }

  lemma OpenIsNew(b: Building, open: Open, continuation: Option<BlockId>)
    requires Fits(b, open, continuation)
    ensures open.id !in b.blocks && Sane(b)
  {
  }

  /** A block just finished, as the graph holds it. */
  lemma EndsAtFront(g: Blocks, b: Building, open: Open, t: Exit)
    requires open.id !in b.blocks && Extends(g, Finished(b, open, t), None)
    ensures EndsIn(g, Front(open), t, AroundOf(b)) && Extends(g, b, Some(open))
  {
    assert open.id in Finished(b, open, t).blocks;
    forall id | id in b.blocks ensures id in g && g[id] == b.blocks[id] {
      assert id in Finished(b, open, t).blocks;
    }
  }

  // ---- each statement ----

  lemma {:induction false} HeldStatement(g: Blocks, b: Building, s: Statement, open: Open, continuation: Option<BlockId>)
    requires Fits(b, open, continuation)
    requires var r := LayStatement(b, s, open, continuation); r.Laid? && Extends(g, r.b, r.out)
    ensures Holds(g, s, Front(open), ExitOf(s, LayStatement(b, s, open, continuation).out, continuation), AroundOf(b))
    decreases Size(s), 3
  {
    hide Fits, Built, LayIf, LayLoop, LayTry, LayAll, HoldsIf, HoldsLoop, HoldsTry, HoldsWith;
    match s {
      case If(_, _, _) => HeldIf(g, b, s, open, continuation);
      case While(setup, _, _, _) =>
        if setup == [] {
          HeldLoop(g, b, s, open, continuation);
        } else {
          RewrittenSmaller(s);
          HeldLoop(g, b, Rewritten(s), open, continuation);
        }
      case For(_, _, _, _) => HeldLoop(g, b, s, open, continuation);
      case With(_, _) => HeldWith(g, b, s, open, continuation);
      case Try(_, _, _, _) => HeldTry(g, b, s, open, continuation);
      case Simple(_) =>
      case _ =>
        OpenIsNew(b, open, continuation);
        HeldLeave(g, b, s, open, continuation);
    }
  }

  /** Statements that end their block. */
  lemma HeldLeave(g: Blocks, b: Building, s: Statement, open: Open, continuation: Option<BlockId>)
    requires (s.Return? || s.Raise? || s.Break? || s.Continue?) && open.id !in b.blocks
    requires var r := LayStatement(b, s, open, continuation); r.Laid? && Extends(g, r.b, r.out)
    ensures Holds(g, s, Front(open), None, AroundOf(b))
  {
    match s {
      case Return(v) => EndsAtFront(g, b, open, Leave(v));
      case Raise(e) => EndsAtFront(g, b, open, Throw(e));
      case Break => EndsAtFront(g, b, open, Jump(b.loops[|b.loops| - 1].1));
      case Continue => EndsAtFront(g, b, open, Jump(b.loops[|b.loops| - 1].0));
      case _ =>
    }
  }

  lemma {:induction false} HeldWith(g: Blocks, b: Building, s: Statement, open: Open, continuation: Option<BlockId>)
    requires s.With? && Fits(b, open, continuation)
    requires var r := LayStatement(b, s, open, continuation); r.Laid? && Extends(g, r.b, r.out)
    ensures HoldsWith(g, s, Front(open), ExitOf(s, LayStatement(b, s, open, continuation).out, continuation),
      AroundOf(b))
    decreases Size(s), 2
  {
    hide Fits, Built, HoldsUpTo, Extends, HasItem, LayAll;
    var n := |s.contexts|;
    var open' := Appended(open, Enters(s.contexts));
    FitsLess(b, open, continuation);
    FitsMore(b, open, Enters(s.contexts));
    var r := LayAll(b, s.body, open', None);
    BuiltAll(b, s.body, open', None);
    if r.out.Some? {
      LeavesHeld(g, r.b, r.out.value, s.contexts);
    }
    var e := HeldAll(g, b, s.body, open');
    ExtendsBack(g, b, open', None, r.b, r.out);
    EntersHeld(g, b, open, s.contexts);
    assert AroundOf(b) == AroundOf(r.b);
    assert LeavesContexts(g, s.contexts, e, ExitOf(s, LayStatement(b, s, open, continuation).out, continuation),
      AroundOf(b));
  }

  lemma EntersHeld(g: Blocks, b: Building, open: Open, contexts: seq<string>)
    requires Extends(g, b, Some(Appended(open, Enters(contexts))))
    ensures forall i {:trigger contexts[i]} :: 0 <= i < |contexts| ==>
      HasItem(g, (open.id, |open.items| + i), EnterWith(contexts[i]), AroundOf(b))
  {
    HasItems(g, b, open, Enters(contexts));
    forall i {:trigger contexts[i]} | 0 <= i < |contexts|
      ensures HasItem(g, (open.id, |open.items| + i), EnterWith(contexts[i]), AroundOf(b)) {
      assert Enters(contexts)[i] == EnterWith(contexts[i]);
    }
  }

  lemma LeavesHeld(g: Blocks, b: Building, open: Open, contexts: seq<string>)
    requires Extends(g, b, Some(Appended(open, Exits(contexts))))
    ensures Extends(g, b, Some(open))
    ensures LeavesContexts(g, contexts, Some(Front(open)), Some(Front(Appended(open, Exits(contexts)))), AroundOf(b))
  {
    HasItems(g, b, open, Exits(contexts));
    var n := |contexts|;
    forall i {:trigger contexts[i]} | 0 <= i < n
      ensures HasItem(g, (open.id, |open.items| + (n - 1 - i)), ExitWith(contexts[i]), AroundOf(b)) {
      assert Exits(contexts)[n - 1 - i] == ExitWith(contexts[i]);
    }
  }

  /** Items just appended, as the graph holds them. */
  lemma HasItems(g: Blocks, b: Building, open: Open, items: seq<Item>)
    requires Extends(g, b, Some(Appended(open, items)))
    ensures Extends(g, b, Some(open))
    ensures forall i {:trigger items[i]} :: 0 <= i < |items| ==>
      HasItem(g, (open.id, |open.items| + i), items[i], AroundOf(b))
  {
    forall i {:trigger items[i]} | 0 <= i < |items|
      ensures HasItem(g, (open.id, |open.items| + i), items[i], AroundOf(b)) {
      assert Appended(open, items).items[|open.items| + i] == items[i];
    }
    assert open.items <= Appended(open, items).items;
  }

  lemma {:induction false} HeldIf(g: Blocks, b: Building, s: Statement, open: Open, continuation: Option<BlockId>)
    requires s.If? && Fits(b, open, continuation)
    requires var r := LayIf(b, s, open, continuation); r.Laid? && Extends(g, r.b, r.out)
    ensures HoldsIf(g, s, Front(open), (TakeIfIds(b, s, continuation).1.merge, 0), AroundOf(b))
    ensures ExitOf(s, LayIf(b, s, open, continuation).out, continuation)
         == Some((TakeIfIds(b, s, continuation).1.merge, 0))
    decreases Size(s), 2
  {
    hide Fits, Built, Grows, TakeIfIds, Known, HoldsTo;
    SameLoops(b, s, continuation);
    IfFits(b, s, open, continuation);
    var (b1, ids) := TakeIfIds(b, s, continuation);
    var b2 := Finished(b1, open, Branch(s.condition, ids.thenBlock, ids.elseBlock));
    var r := LayAll(b2, s.body, Open(ids.thenBlock, []), Some(ids.merge));
    BuiltAll(b2, s.body, Open(ids.thenBlock, []), Some(ids.merge));
    var r' := if s.orelse != [] then LayAll(r.b, s.orelse, Open(ids.elseBlock, []), Some(ids.merge)) else r;
    assert Extends(g, r'.b, None);
    if s.orelse != [] {
      BuiltAll(r.b, s.orelse, Open(ids.elseBlock, []), Some(ids.merge));
      BuiltGrows(r.b, Open(ids.elseBlock, []), Some(ids.merge), r'.b, None);
      ExtendsGrown(g, r.b, r'.b, {ids.elseBlock}, None);
      HeldTo(g, r.b, s.orelse, Open(ids.elseBlock, []), ids.merge);
    } else {
      HoldsNothing(g, (ids.merge, 0), AroundOf(b));
    }
    BuiltGrows(b2, Open(ids.thenBlock, []), Some(ids.merge), r.b, None);
    ExtendsGrown(g, b2, r.b, {ids.thenBlock}, None);
    HeldTo(g, b2, s.body, Open(ids.thenBlock, []), ids.merge);
    EndsAtFront(g, b1, open, Branch(s.condition, ids.thenBlock, ids.elseBlock));
  }

  lemma HoldsNothing(g: Blocks, p: Place, a: Around)
    ensures HoldsTo(g, [], p, p, a)
  {
    assert HoldsUpTo(g, [], 0, p, Some(p), a) && Joins(g, Some(p), p, a);
  }

  /** What the parts of an `if` need, gathered. */
  lemma IfFits(b: Building, s: Statement, open: Open, continuation: Option<BlockId>)
    requires s.If? && Fits(b, open, continuation)
    ensures var (b1, ids) := TakeIfIds(b, s, continuation);
      var b2 := Finished(b1, open, Branch(s.condition, ids.thenBlock, ids.elseBlock));
      && open.id !in b1.blocks && Fits(b2, Open(ids.thenBlock, []), Some(ids.merge))
      && (continuation.Some? ==> ids.merge == continuation.value) && (s.orelse == [] ==> ids.elseBlock == ids.merge)
      && var r := LayAll(b2, s.body, Open(ids.thenBlock, []), Some(ids.merge));
      (r.Laid? && s.orelse != [] ==> Fits(r.b, Open(ids.elseBlock, []), Some(ids.merge)))
  {
    hide Built, Adds, Known, Sane, Fits, Kept, OutOk;
    FitsKnown(b, open, continuation);
    IfIdsTaken(b, s, continuation);
    var (b1, ids) := TakeIfIds(b, s, continuation);
    var t := Branch(s.condition, ids.thenBlock, ids.elseBlock);
    var b2 := Finished(b1, open, t);
    TakenIsFree(b, open, b1, ids.thenBlock);
    MergeFits(b, open, continuation, b1, ids.merge, t);
    KnownFinished(b1, open, t, ids.thenBlock);
    PartFits(b2, Open(ids.thenBlock, []), ids.merge);
    BuiltAll(b2, s.body, Open(ids.thenBlock, []), Some(ids.merge));
    var r := LayAll(b2, s.body, Open(ids.thenBlock, []), Some(ids.merge));
    if r.Laid? && s.orelse != [] {
      PartLeaves(b2, Open(ids.thenBlock, []), ids.merge, r.b, ids.merge);
      TakenIsFree(b, open, b1, ids.elseBlock);
      KnownFinished(b1, open, t, ids.elseBlock);
      PartLeaves(b2, Open(ids.thenBlock, []), ids.merge, r.b, ids.elseBlock);
      MergeStays(b, b2, r.b, ids.merge);
      PartFits(r.b, Open(ids.elseBlock, []), ids.merge);
    }
  }

  // ---- loops ----

  /** What the parts of a loop need, gathered. */
  lemma LoopFits(b: Building, s: Statement, open: Open, continuation: Option<BlockId>)
    requires (s.While? || s.For?) && Fits(b, open, continuation)
    ensures var (b1, ids) := TakeLoopIds(b, s, continuation);
      var b2 := LoopHead(b1, s, open, ids);
      var inner := b2.(loops := b.loops + [(ids.header, ids.after)]);
      && Fits(inner, Open(ids.body, []), Some(ids.header)) && open.id != ids.header
      && (continuation.Some? ==> ids.after == continuation.value) && (s.orelse == [] ==> ids.exit == ids.after)
      && var r := LayAll(inner, s.body, Open(ids.body, []), Some(ids.header));
      (r.Laid? && s.orelse != [] ==> Fits(r.b.(loops := b.loops), Open(ids.exit, []), Some(ids.after)))
  {
    hide Built, Known, Sane, Fits, Kept, OutOk, LoopHead, TakeLoopIds, Takes, Adds;
    FitsKnown(b, open, continuation);
    LoopIdsTaken(b, s, continuation);
    HeadBuilt(b, s, open, continuation);
    var (b1, ids) := TakeLoopIds(b, s, continuation);
    var b2 := LoopHead(b1, s, open, ids);
    var inner := b2.(loops := b.loops + [(ids.header, ids.after)]);
    TakenIsFree(b, open, b1, ids.header);
    AfterPastHead(b, s, open, continuation, b1, ids);
    LoopBodyFits(b, s, open, continuation, b1, ids);
    BuiltAll(inner, s.body, Open(ids.body, []), Some(ids.header));
    var r := LayAll(inner, s.body, Open(ids.body, []), Some(ids.header));
    if r.Laid? && s.orelse != [] {
      AfterBody(b, b2, inner, ids, r.b, r.b.(loops := b.loops));
      ElseBuilt(b, s, open, continuation, b1, b2, inner, ids, r.b, r.b.(loops := b.loops));
    }
  }

  /** Extending does not look at the loops in force. */
  lemma SameExtends(g: Blocks, b: Building, out: Option<Open>, b': Building)
    requires Extends(g, b, out) && b.blocks == b'.blocks
    ensures Extends(g, b', None)
  {
  }

  /** The blocks before and at the header, as the graph holds them. */
  lemma HeadHolds(g: Blocks, b: Building, s: Statement, open: Open, ids: LoopIds)
    requires (s.While? || s.For?) && Extends(g, LoopHead(b, s, open, ids), None) && open.id != ids.header
    ensures EndsIn(g, Front(open), Jump(ids.header), AroundOf(b))
    ensures IsHeader(g, s, ids.header, ids.body, ids.exit, AroundOf(b))
  {
    var b' := LoopHead(b, s, open, ids);
    assert open.id in b'.blocks && ids.header in b'.blocks;
  }

  /** The two blocks a loop begins with, as the graph holds them. */
  lemma LoopHolds(g: Blocks, b: Building, s: Statement, open: Open, continuation: Option<BlockId>)
    requires (s.While? || s.For?) && Fits(b, open, continuation)
    requires var r := LayLoop(b, s, open, continuation); r.Laid? && Extends(g, r.b, r.out)
    ensures var (b1, ids) := TakeLoopIds(b, s, continuation);
      var inner := LoopHead(b1, s, open, ids).(loops := b.loops + [(ids.header, ids.after)]);
      var r := LayAll(inner, s.body, Open(ids.body, []), Some(ids.header));
      && r.Laid? && Extends(g, r.b, None)
      && EndsIn(g, Front(open), Jump(ids.header), AroundOf(b))
      && IsHeader(g, s, ids.header, ids.body, ids.exit, AroundOf(b))
      && (s.orelse != [] ==> var r' := LayAll(r.b.(loops := b.loops), s.orelse, Open(ids.exit, []), Some(ids.after));
        r'.Laid? && Extends(g, r'.b, None))
  {
    hide Fits, Built, TakeLoopIds, Grows, LoopHead, EndsIn, IsHeader, Extends;
    LoopFits(b, s, open, continuation);
    SameLoops(b, s, continuation);
    var (b1, ids) := TakeLoopIds(b, s, continuation);
    var b2 := LoopHead(b1, s, open, ids);
    var inner := b2.(loops := b.loops + [(ids.header, ids.after)]);
    BuiltAll(inner, s.body, Open(ids.body, []), Some(ids.header));
    var r := LayAll(inner, s.body, Open(ids.body, []), Some(ids.header));
    var b3 := r.b.(loops := b.loops);
    var r' := if s.orelse != [] then LayAll(b3, s.orelse, Open(ids.exit, []), Some(ids.after)) else Laid(b3, None);
    SameExtends(g, LayLoop(b, s, open, continuation).b, LayLoop(b, s, open, continuation).out, r'.b);
    if s.orelse != [] {
      BuiltAll(b3, s.orelse, Open(ids.exit, []), Some(ids.after));
      BuiltGrows(b3, Open(ids.exit, []), Some(ids.after), r'.b, None);
      ExtendsGrown(g, b3, r'.b, {ids.exit}, None);
    }
    SameExtends(g, b3, None, r.b);
    BuiltGrows(inner, Open(ids.body, []), Some(ids.header), r.b, None);
    ExtendsGrown(g, inner, r.b, {ids.body}, None);
    SameExtends(g, inner, None, b2);
    HeadHolds(g, b1, s, open, ids);
  }

  lemma {:induction false} HeldLoop(g: Blocks, b: Building, s: Statement, open: Open, continuation: Option<BlockId>)
    requires (s.For? || (s.While? && s.setup == [])) && Fits(b, open, continuation)
    requires var r := LayLoop(b, s, open, continuation); r.Laid? && Extends(g, r.b, r.out)
    ensures HoldsLoop(g, s, Front(open), (TakeLoopIds(b, s, continuation).1.after, 0), AroundOf(b))
    ensures ExitOf(s, LayLoop(b, s, open, continuation).out, continuation)
         == Some((TakeLoopIds(b, s, continuation).1.after, 0))
    decreases Size(s), 2
  {
    hide Fits, Built, TakeLoopIds, Extends, LoopHead, HoldsTo;
    SameLoops(b, s, continuation);
    LoopFits(b, s, open, continuation);
    LoopHolds(g, b, s, open, continuation);
    var (b1, ids) := TakeLoopIds(b, s, continuation);
    var inner := LoopHead(b1, s, open, ids).(loops := b.loops + [(ids.header, ids.after)]);
    var a := AroundOf(b);
    HeldTo(g, inner, s.body, Open(ids.body, []), ids.header);
    assert AroundOf(inner) == a.(loops := a.loops + [(ids.header, ids.after)]);
    if s.orelse != [] {
      var r := LayAll(inner, s.body, Open(ids.body, []), Some(ids.header));
      HeldTo(g, r.b.(loops := b.loops), s.orelse, Open(ids.exit, []), ids.after);
    } else {
      HoldsNothing(g, (ids.after, 0), a);
    }
  }

  // ---- try ----

  /** The stages a `try` is laid out in. */
  datatype TryStages = TryStages(ids: TryIds, head: Building, inner: Building, body: Laid, past: Building, orelse: Laid,
    handlers: Laid, final: Laid)

  function Stages(b: Building, s: Statement, open: Open, continuation: Option<BlockId>): TryStages
    requires s.Try? && LayTry(b, s, open, continuation).Laid?
  {
    NextIdsLength(Counted(b, "try"), "handler", |s.handlers|);
    var (b1, ids) := TakeTryIds(b, s, continuation);
    var b2 := Finished(b1, open, Jump(ids.body));
    var inner := b2.(handlers := b.handlers + [ids.handlers]);
    var r := LayAll(inner, s.body, Open(ids.body, []), None);
    var b3 := if r.out.Some? then Finished(r.b, r.out.value, Jump(if s.orelse != [] then ids.orelse else ids.join))
      else r.b;
    var b4 := b3.(handlers := b.handlers);
    var r4 := if r.out.Some? && s.orelse != [] then LayAll(b4, s.orelse, Open(ids.orelse, []), Some(ids.join))
      else Laid(b4, None);
    var r5 := LayHandlers(r4.b, s.handlers, ids.handlers, |s.handlers|, ids.join);
    var r6 := if s.finalbody != [] then LayAll(r5.b, s.finalbody, Open(ids.final, []), Some(ids.after)) else r5;
    TryStages(ids, b2, inner, r, b4, r4, r5, r6)
  }

  ghost predicate StagesFit(b: Building, s: Statement, continuation: Option<BlockId>, t: TryStages)
    requires s.Try?
  {
    && Fits(t.inner, Open(t.ids.body, []), None)
    && t.body.Laid? && t.orelse.Laid? && t.handlers.Laid? && t.final.Laid?
    && (t.body.out.Some? && s.orelse != [] ==> Fits(t.past, Open(t.ids.orelse, []), Some(t.ids.join)))
    && (s.finalbody != [] ==> Fits(t.handlers.b, Open(t.ids.final, []), Some(t.ids.after)))
    && Grows(t.handlers.b, t.final.b, {t.ids.final}) && Grows(t.orelse.b, t.handlers.b, AsSet(t.ids.handlers))
      && Grows(t.past, t.orelse.b, {t.ids.orelse})
    && Grows(t.head, t.past, {t.ids.body})
    && (continuation.Some? ==> t.ids.after == continuation.value) && (s.orelse == [] ==> t.ids.orelse == t.ids.after)
      && t.ids.join == t.ids.final
    && (s.finalbody == [] ==> t.ids.join == t.ids.after)
  }

  lemma TryIdsFit(b: Building, s: Statement, open: Open, continuation: Option<BlockId>)
    requires s.Try? && Fits(b, open, continuation) && LayTry(b, s, open, continuation).Laid?
    ensures var (b1, ids) := TakeTryIds(b, s, continuation);
      TryTaken(b, s, continuation, b1, ids) && Stages(b, s, open, continuation).ids == ids
  {
    hide Built, Doing, Fits, TryTaken, TryAt, HandlersDone, Free, Sane, Known, Pending, TakeTryIds, Grows, GoesOn;
    FitsKnown(b, open, continuation);
    TryIdsTaken(b, s, continuation);
  }

  lemma TryBodyFits(b: Building, s: Statement, open: Open, continuation: Option<BlockId>)
    requires s.Try? && Fits(b, open, continuation) && LayTry(b, s, open, continuation).Laid?
    ensures var t := Stages(b, s, open, continuation);
      && t.body.Laid? && Fits(t.inner, Open(t.ids.body, []), None) && Grows(t.head, t.past, {t.ids.body})
      && TryAt(b, s, open, continuation, t.ids, t.past, true, true)
      && Doing(b, open, t.past, Pending(b) + AsSet(t.ids.handlers)
        + (if t.body.out.Some? then {if s.orelse != [] then t.ids.orelse else t.ids.join} else {}), {})
  {
    hide Built, Doing, Fits, TryTaken, TryAt, HandlersDone, Free, Sane, Known, Pending, TakeTryIds, Grows, GoesOn;
    var t := Stages(b, s, open, continuation);
    TryIdsFit(b, s, open, continuation);
    var (b1, ids) := TakeTryIds(b, s, continuation);
    TryNames(b, s, continuation, b1, ids);
    TryHead(b, s, open, continuation, b1, ids);
    BuiltAll(t.inner, s.body, Open(ids.body, []), None);
    TryBody(b, open, t.head, ids.handlers, ids.body, if s.orelse != [] then ids.orelse else ids.join, t.body.b,
      t.body.out, t.past);
    TryGoesOn(b, s, open, continuation, ids, t.head, t.past, {ids.body}, true, true, true, true);
  }

  lemma TryElseFits(b: Building, s: Statement, open: Open, continuation: Option<BlockId>)
    requires s.Try? && Fits(b, open, continuation) && LayTry(b, s, open, continuation).Laid?
    ensures var t := Stages(b, s, open, continuation);
      && t.orelse.Laid? && Grows(t.past, t.orelse.b, {t.ids.orelse})
      && (t.body.out.Some? && s.orelse != [] ==> Fits(t.past, Open(t.ids.orelse, []), Some(t.ids.join)))
      && TryAt(b, s, open, continuation, t.ids, t.orelse.b, false, true)
  {
    hide Built, Doing, Fits, TryTaken, TryAt, HandlersDone, Free, Sane, Known, Pending, TakeTryIds, Grows, GoesOn;
    var t := Stages(b, s, open, continuation);
    TryIdsFit(b, s, open, continuation);
    TryBodyFits(b, s, open, continuation);
    var (b1, ids) := TakeTryIds(b, s, continuation);
    TryNames(b, s, continuation, b1, ids);
    TryElse(b, s, open, continuation, b1, ids, t.past, t.body.out.Some?);
    SelfGrows(b, s, open, continuation, ids, t.past);
    if t.body.out.Some? && s.orelse != [] {
      ElseFits(b, s, open, continuation, ids, t.past);
      BuiltAll(t.past, s.orelse, Open(ids.orelse, []), Some(ids.join));
      BuiltGrows(t.past, Open(ids.orelse, []), Some(ids.join), t.orelse.b, None);
    }
    GrowsMore(t.past, t.orelse.b, ids.orelse);
  }

  lemma TryHandlersFit(b: Building, s: Statement, open: Open, continuation: Option<BlockId>)
    requires s.Try? && Fits(b, open, continuation) && LayTry(b, s, open, continuation).Laid?
    ensures var t := Stages(b, s, open, continuation);
      && t.handlers.Laid? && Grows(t.orelse.b, t.handlers.b, AsSet(t.ids.handlers))
      && TryAt(b, s, open, continuation, t.ids, t.handlers.b, false, false)
  {
    hide Built, Doing, Fits, TryTaken, TryAt, HandlersDone, Free, Sane, Known, Pending, TakeTryIds, Grows, GoesOn;
    var t := Stages(b, s, open, continuation);
    TryIdsFit(b, s, open, continuation);
    TryElseFits(b, s, open, continuation);
    var (b1, ids) := TakeTryIds(b, s, continuation);
    TryNames(b, s, continuation, b1, ids);
    HandlersReady(b, s, open, continuation, b1, ids, t.orelse.b);
    BuiltHandlers(t.orelse.b, s.handlers, ids.handlers, |s.handlers|, ids.join);
    HandlersGrow(t.orelse.b, t.handlers.b, ids.handlers, ids.join);
    TryGoesOn(b, s, open, continuation, ids, t.orelse.b, t.handlers.b, AsSet(ids.handlers), false, true, false, false);
  }

  lemma TryFinalFits(b: Building, s: Statement, open: Open, continuation: Option<BlockId>)
    requires s.Try? && Fits(b, open, continuation) && LayTry(b, s, open, continuation).Laid?
    ensures var t := Stages(b, s, open, continuation);
      && t.final.Laid? && Grows(t.handlers.b, t.final.b, {t.ids.final})
      && (s.finalbody != [] ==> Fits(t.handlers.b, Open(t.ids.final, []), Some(t.ids.after)))
  {
    hide Built, Doing, Fits, TryTaken, TryAt, HandlersDone, Free, Sane, Known, Pending, TakeTryIds, Grows, GoesOn;
    var t := Stages(b, s, open, continuation);
    TryIdsFit(b, s, open, continuation);
    TryHandlersFit(b, s, open, continuation);
    var (b1, ids) := TakeTryIds(b, s, continuation);
    TryNames(b, s, continuation, b1, ids);
    RestGrows(b, s, open, continuation, ids, t.handlers.b);
    if s.finalbody != [] {
      FinalFits(b, s, open, continuation, ids, t.handlers.b);
      BuiltAll(t.handlers.b, s.finalbody, Open(ids.final, []), Some(ids.after));
      BuiltGrows(t.handlers.b, Open(ids.final, []), Some(ids.after), t.final.b, None);
    }
    GrowsMore(t.handlers.b, t.final.b, ids.final);
  }

  lemma TryFits(b: Building, s: Statement, open: Open, continuation: Option<BlockId>)
    requires s.Try? && Fits(b, open, continuation) && LayTry(b, s, open, continuation).Laid?
    ensures StagesFit(b, s, continuation, Stages(b, s, open, continuation))
  {
    hide Built, Doing, Fits, TryTaken, TryAt, HandlersDone, Free, Sane, Known, Pending, TakeTryIds, Grows, GoesOn,
      Stages;
    TryIdsFit(b, s, open, continuation);
    TryBodyFits(b, s, open, continuation);
    TryElseFits(b, s, open, continuation);
    TryHandlersFit(b, s, open, continuation);
    TryFinalFits(b, s, open, continuation);
    var (b1, ids) := TakeTryIds(b, s, continuation);
    TryNames(b, s, continuation, b1, ids);
    AfterIs(b, s, continuation, b1, ids);
  }

  lemma GrowsMore(b: Building, b': Building, id: BlockId)
    ensures Grows(b, b', {}) ==> Grows(b, b', {id})
  {
  }

  lemma AfterIs(b: Building, s: Statement, continuation: Option<BlockId>, b1: Building, ids: TryIds)
    requires s.Try? && TryTaken(b, s, continuation, b1, ids)
    ensures (continuation.Some? ==> ids.after == continuation.value) && (s.orelse == [] ==> ids.orelse == ids.after)
  {
  }

  /** What the graph holds of a `try`. */
  lemma TryHolds(g: Blocks, b: Building, s: Statement, open: Open, continuation: Option<BlockId>)
    requires s.Try? && Fits(b, open, continuation)
    requires var r := LayTry(b, s, open, continuation); r.Laid? && Extends(g, r.b, r.out)
    ensures var t := Stages(b, s, open, continuation);
      && StagesFit(b, s, continuation, t)
      && Extends(g, t.final.b, None) && Extends(g, t.handlers.b, None) && Extends(g, t.orelse.b, None)
      && Extends(g, t.body.b, t.body.out)
      && t.ids.body in g && g[t.ids.body].exceptionTargets == t.ids.handlers
      && EndsIn(g, Front(open), Jump(t.ids.body), AroundOf(b))
      && (t.body.out.Some? ==>
            EndsIn(g, Front(t.body.out.value), Jump(if s.orelse != [] then t.ids.orelse else t.ids.join),
              AroundOf(t.inner)))
  {
    hide Fits, TakeTryIds, Grows, Known;
    SameLoops(b, s, continuation);
    TryFits(b, s, open, continuation);
    var t := Stages(b, s, open, continuation);
    assert Extends(g, t.final.b, None);
    ExtendsGrown(g, t.handlers.b, t.final.b, {t.ids.final}, None);
    ExtendsGrown(g, t.orelse.b, t.handlers.b, AsSet(t.ids.handlers), None);
    ExtendsGrown(g, t.past, t.orelse.b, {t.ids.orelse}, None);
    ExtendsGrown(g, t.head, t.past, {t.ids.body}, None);
    BuiltAll(t.inner, s.body, Open(t.ids.body, []), None);
    var (b1, ids) := TakeTryIds(b, s, continuation);
    assert t.head == Finished(b1, open, Jump(ids.body));
    assert open.id in t.head.blocks;
    if t.body.out.Some? {
      assert t.body.out.value.id !in t.body.b.blocks;
      assert t.body.out.value.id in t.past.blocks;
    }
    ExtendsBack(g, t.inner, Open(t.ids.body, []), None, t.body.b, t.body.out);
  }

  /** The first `k` handlers, each from its block. */
  lemma {:induction false} HeldHandlers(g: Blocks, b: Building, handlers: seq<Handler>, ids: seq<BlockId>, k: nat,
      join: BlockId)
    requires k <= |handlers| == |ids| && Sane(b) && GoesOn(b, join, ExceptionTargets(b))
    requires forall i :: 0 <= i < |ids| ==> Free(b, ids[i]) && ids[i] != join
    requires forall i, j :: 0 <= i < j < |ids| ==> ids[i] != ids[j]
    requires var r := LayHandlers(b, handlers, ids, k, join); r.Laid? && Extends(g, r.b, None)
    ensures forall i {:trigger ids[i]} :: 0 <= i < k ==>
      && HasItem(g, (ids[i], 0), EnterHandler(handlers[i].name), AroundOf(b))
      && HoldsTo(g, handlers[i].body, (ids[i], 1), (join, 0), AroundOf(b))
    decreases SizeHandlers(handlers), k
  {
    hide HandlersDone, Free, GoesOn, Fits, Built, Sane, HoldsTo, Extends, LayAll, HasItem;
    if k > 0 {
      var h := handlers[k - 1];
      var r := LayHandlers(b, handlers, ids, k - 1, join);
      var x := Open(ids[k - 1], [EnterHandler(h.name)]);
      BuiltHandlers(b, handlers, ids, k - 1, join);
      HandlerFits(b, r.b, ids, k - 1, join, x);
      BuiltAll(r.b, h.body, x, Some(join));
      var r' := LayAll(r.b, h.body, x, Some(join));
      ExtendsBack(g, r.b, x, Some(join), r'.b, None);
      assert x == Appended(Open(ids[k - 1], []), [EnterHandler(h.name)]) && x.items[0] == EnterHandler(h.name);
      HasItems(g, r.b, Open(ids[k - 1], []), x.items);
      OpenExtends(g, r.b, x);
      HeldHandlers(g, b, handlers, ids, k - 1, join);
      HeldTo(g, r.b, h.body, x, join);
    }
  }

  lemma OpenExtends(g: Blocks, b: Building, open: Open)
    requires Extends(g, b, Some(open))
    ensures Extends(g, b, None)
  {
  }

  lemma {:induction false} HeldTry(g: Blocks, b: Building, s: Statement, open: Open, continuation: Option<BlockId>)
    requires s.Try? && Fits(b, open, continuation)
    requires var r := LayTry(b, s, open, continuation); r.Laid? && Extends(g, r.b, r.out)
    ensures HoldsTry(g, s, Front(open), (Stages(b, s, open, continuation).ids.after, 0), AroundOf(b))
    ensures ExitOf(s, LayTry(b, s, open, continuation).out, continuation)
         == Some((Stages(b, s, open, continuation).ids.after, 0))
    decreases Size(s), 2
  {
    hide Fits, Built, TakeTryIds, Extends, Grows, HoldsTo, HoldsUpTo;
    TryHolds(g, b, s, open, continuation);
    SameLoops(b, s, continuation);
    var t := Stages(b, s, open, continuation);
    var a := AroundOf(b);
    var join := (t.ids.join, 0);
    HeldBody(g, b, s, open, continuation);
    HeldCaught(g, b, s, open, continuation);
    if s.finalbody != [] {
      HeldTo(g, t.handlers.b, s.finalbody, Open(t.ids.final, []), t.ids.after);
    } else {
      HoldsNothing(g, join, a);
    }
    assert HoldsBody(g, s, t.ids.body, join, a, t.ids.handlers) && HoldsHandlers(g, s, t.ids.handlers, join, a)
      && HoldsTo(g, s.finalbody, join, (t.ids.after, 0), a);
  }

  lemma {:induction false} HeldBody(g: Blocks, b: Building, s: Statement, open: Open, continuation: Option<BlockId>)
    requires s.Try? && Fits(b, open, continuation)
    requires var r := LayTry(b, s, open, continuation); r.Laid? && Extends(g, r.b, r.out)
    ensures var ids := Stages(b, s, open, continuation).ids;
      HoldsBody(g, s, ids.body, (ids.join, 0), AroundOf(b), ids.handlers)
    decreases Size(s), 1
  {
    hide Fits, Built, TakeTryIds, Extends, Grows, HoldsTo, HoldsUpTo;
    TryHolds(g, b, s, open, continuation);
    SameLoops(b, s, continuation);
    var t := Stages(b, s, open, continuation);
    var join := (t.ids.join, 0);
    var inside := AroundOf(b).(handlers := t.ids.handlers);
    assert AroundOf(t.inner) == inside;
    var e := HeldAll(g, t.inner, s.body, Open(t.ids.body, []));
    if t.body.out.Some? {
      if s.orelse != [] {
        HeldTo(g, t.past, s.orelse, Open(t.ids.orelse, []), t.ids.join);
      } else {
        HoldsNothing(g, join, AroundOf(b));
      }
    }
    assert HoldsUpTo(g, s.body, |s.body|, (t.ids.body, 0), e, inside);
  }

  lemma {:induction false} HeldCaught(g: Blocks, b: Building, s: Statement, open: Open, continuation: Option<BlockId>)
    requires s.Try? && Fits(b, open, continuation)
    requires var r := LayTry(b, s, open, continuation); r.Laid? && Extends(g, r.b, r.out)
    ensures var ids := Stages(b, s, open, continuation).ids; HoldsHandlers(g, s, ids.handlers, (ids.join, 0), AroundOf(b))
    decreases Size(s), 1
  {
    hide Fits, Built, TakeTryIds, Extends, Grows, HoldsTo, Free, GoesOn, Sane;
    TryHolds(g, b, s, open, continuation);
    var t := Stages(b, s, open, continuation);
    TryHandlersReady(b, s, open, continuation);
    HeldHandlers(g, t.orelse.b, s.handlers, t.ids.handlers, |s.handlers|, t.ids.join);
  }

  /** What the handlers need, gathered. */
  lemma TryHandlersReady(b: Building, s: Statement, open: Open, continuation: Option<BlockId>)
    requires s.Try? && Fits(b, open, continuation) && LayTry(b, s, open, continuation).Laid?
    ensures var t := Stages(b, s, open, continuation);
      && |t.ids.handlers| == |s.handlers| && Sane(t.orelse.b) && GoesOn(t.orelse.b, t.ids.join, ExceptionTargets(b))
      && AroundOf(t.orelse.b) == AroundOf(b)
      && (forall i :: 0 <= i < |t.ids.handlers| ==>
            Free(t.orelse.b, t.ids.handlers[i]) && t.ids.handlers[i] != t.ids.join)
      && (forall i, j :: 0 <= i < j < |t.ids.handlers| ==> t.ids.handlers[i] != t.ids.handlers[j])
  {
    hide Built, Doing, Fits, TryTaken, TryAt, HandlersDone, Free, Sane, Known, Pending, TakeTryIds, Grows, GoesOn;
    var t := Stages(b, s, open, continuation);
    TryIdsFit(b, s, open, continuation);
    TryElseFits(b, s, open, continuation);
    var (b1, ids) := TakeTryIds(b, s, continuation);
    TryNames(b, s, continuation, b1, ids);
    HandlersReady(b, s, open, continuation, b1, ids, t.orelse.b);
  }

  // ---- whole bodies ----

  /** The blocks laid out for a body hold it. */
  lemma BodyHeld(body: seq<Statement>)
    requires LayBody(body).Laid?
    ensures HoldsAll(LayBody(body).b.blocks, body)
  {
    hide HoldsUpTo;
    var b := Building(map[], map[], [], []);
    var open := Open(ENTRY, []);
    var g := LayBody(body).b.blocks;
    StartFits();
    BuiltAll(b, body, open, None);
    var r := LayAll(b, body, open, None);
    assert Extends(g, r.b, r.out);
    var e := HeldAll(g, b, body, open);
    if r.out.Some? {
      EndsAtFront(g, r.b, r.out.value, Leave(None));
    }
  }

  /** A step in a graph whose blocks lead nowhere outside it. */
  lemma StepStays<W>(sem: Meaning<W>, g: Blocks, c: Config<W>)
    requires !c.Stuck? && (c.At? ==> c.id in g && BlockComplete(g, c.id))
    ensures var d := Step(sem, g, c); !d.Stuck? && (d.At? ==> d.id in g)
  {
    if !c.At? {
      return;
    }
    var raised := NextRaises(sem, g[c.id], c.k, c.world);
    if raised.Some? {
      return;
    }
    match g[c.id].terminator {
      case Branch(_, a, b) => assert a in Targets(g[c.id].terminator) && b in Targets(g[c.id].terminator);
      case Jump(a) => assert a in Targets(g[c.id].terminator);
      case ForEach(_, _, a, b) => assert a in Targets(g[c.id].terminator) && b in Targets(g[c.id].terminator);
      case _ =>
    }
  }

  /** No run leads out of the graph. */
  lemma {:induction false} NeverStuck<W>(sem: Meaning<W>, body: seq<Statement>, w: W, n: nat)
    requires LayBody(body).Laid?
    ensures var c := Steps(sem, LayBody(body).b.blocks, At(ENTRY, 0, w), n);
      !c.Stuck? && (c.At? ==> c.id in LayBody(body).b.blocks)
  {
    hide LayBody, Step, BlockComplete;
    var g := LayBody(body).b.blocks;
    BodyComplete(body);
    if n > 0 {
      NeverStuck(sem, body, w, n - 1);
      var c := Steps(sem, g, At(ENTRY, 0, w), n - 1);
      assert Steps(sem, g, At(ENTRY, 0, w), n) == Step(sem, g, c);
      assert c.At? ==> BlockComplete(g, c.id);
      StepStays(sem, g, c);
    }
  }
}
