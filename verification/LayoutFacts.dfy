/** Every layout only adds blocks, leads nowhere outside, and gives both targets of a branch the
    handlers of the branching block. */
module LayoutFacts {
  import opened Graphs
  import opened Options
  import opened Structured
  import opened Layout

  function AsSet(s: seq<BlockId>): set<BlockId> {
    set t | t in s
  }

  // ---- what a stretch of the layout adds ----

  ghost predicate IsNew(b: Building, b': Building, id: BlockId) {
    id in b'.blocks && id !in b.blocks
  }

  ghost predicate BlockLeads(b': Building, pending: set<BlockId>, id: BlockId)
    requires id in b'.blocks
  {
    && (forall t :: t in Targets(b'.blocks[id].terminator) ==> t in b'.blocks || t in pending)
    && (forall t :: t in b'.blocks[id].exceptionTargets ==> t in b'.blocks || t in pending)
  }

  /** New blocks lead to finished blocks, or to some that will be. */
  ghost predicate Edges(b: Building, b': Building, pending: set<BlockId>) {
    forall id {:trigger IsNew(b, b', id)} :: IsNew(b, b', id) ==> BlockLeads(b', pending, id)
  }

  /** The target has the handlers of the branch, or will: then those in force are the branch's. */
  ghost predicate BranchesTo(b': Building, h: seq<BlockId>, ends: set<BlockId>, id: BlockId, t: BlockId)
    requires id in b'.blocks
  {
    && t != id
    && ((t in b'.blocks && b'.blocks[t].exceptionTargets == b'.blocks[id].exceptionTargets)
      || (t in ends && b'.blocks[id].exceptionTargets == h))
  }

  ghost predicate BlockBranches(b': Building, h: seq<BlockId>, ends: set<BlockId>, id: BlockId)
    requires id in b'.blocks
  {
    !b'.blocks[id].terminator.Jump? ==> forall t :: t in Targets(b'.blocks[id].terminator) ==>
      BranchesTo(b', h, ends, id, t)
  }

  /** Both targets of a new branch have its handlers, or will: then those in force are its. */
  ghost predicate Branches(b: Building, b': Building, h: seq<BlockId>, ends: set<BlockId>) {
    forall id {:trigger IsNew(b, b', id)} :: IsNew(b, b', id) ==> BlockBranches(b', h, ends, id)
  }

  ghost predicate Adds(b: Building, b': Building, mine: set<BlockId>, pending: set<BlockId>, h: seq<BlockId>,
      ends: set<BlockId>) {
    Grows(b, b', mine) && Edges(b, b', pending) && Branches(b, b', h, ends)
  }

  /** The block `t` was finished with handlers `h`. */
  ghost predicate Has(b: Building, t: BlockId, h: seq<BlockId>) {
    t in b.blocks && b.blocks[t].exceptionTargets == h
  }

  lemma AddsOn(b: Building, b1: Building, b2: Building, mine: set<BlockId>, pending: set<BlockId>, h: seq<BlockId>,
      ends: set<BlockId>,
               mine1: set<BlockId>, pending1: set<BlockId>, ends1: set<BlockId>,
               mine2: set<BlockId>, pending2: set<BlockId>, h2: seq<BlockId>, ends2: set<BlockId>)
    requires Adds(b, b1, mine1, pending1, h, ends1) && Adds(b1, b2, mine2, pending2, h2, ends2)
    requires mine1 <= mine && forall id :: id in mine2 ==> id in mine || !Known(b, id)
    requires forall t :: t in pending1 + pending2 ==> t in pending || t in b2.blocks
    requires forall t :: t in ends1 ==> t in ends || Has(b2, t, h)
    requires forall t :: t in ends2 ==> (t in ends && h == h2) || Has(b2, t, h2)
    ensures Adds(b, b2, mine, pending, h, ends)
  {
    assert Grows(b, b1, mine);
    GrowsOn(b, b1, b2, mine, mine2);
    forall id | IsNew(b, b2, id) ensures BlockLeads(b2, pending, id) && BlockBranches(b2, h, ends, id) {
      if id in b1.blocks {
        assert IsNew(b, b1, id);
      } else {
        assert IsNew(b1, b2, id);
      }
    }
  }

  /** Only the contexts changed. */
  ghost predicate SameState(b: Building, c: Building) {
    b.blocks == c.blocks && b.counters == c.counters
  }

  lemma AddsSame(b: Building, b': Building, c: Building, c': Building, mine: set<BlockId>, pending: set<BlockId>,
      h: seq<BlockId>, ends: set<BlockId>)
    requires Adds(b, b', mine, pending, h, ends) && SameState(b, c) && SameState(b', c')
    ensures Adds(c, c', mine, pending, h, ends)
  {
    SameButContext(b, b', c, c', mine);
    forall id | IsNew(c, c', id) ensures BlockLeads(c', pending, id) && BlockBranches(c', h, ends, id) {
      assert IsNew(b, b', id);
    }
  }

  lemma CountedAdds(b: Building, kind: string, pending: set<BlockId>, h: seq<BlockId>, ends: set<BlockId>)
    requires Sane(b)
    ensures Adds(b, Counted(b, kind), {}, pending, h, ends)
  {
    CountedGrows(b, kind);
  }

  /** Finishing a block towards targets that are known. */
  lemma FinishedAdds(b: Building, open: Open, terminator: Exit, pending: set<BlockId>, ends: set<BlockId>)
    requires Ready(b, open)
    requires forall t :: t in Targets(terminator) ==> t in pending || t in b.blocks
    requires forall t :: t in ExceptionTargets(b) ==> t in pending || t in b.blocks
    requires !terminator.Jump? ==> forall t :: t in Targets(terminator) ==> t in ends && t != open.id
    ensures Adds(b, Finished(b, open, terminator), {open.id}, pending, ExceptionTargets(b), ends)
    ensures Has(Finished(b, open, terminator), open.id, ExceptionTargets(b))
  {
    FinishedGrows(b, open, terminator);
    var b' := Finished(b, open, terminator);
    forall id | IsNew(b, b', id) ensures BlockLeads(b', pending, id)
      && BlockBranches(b', ExceptionTargets(b), ends, id) {
      assert id == open.id;
    }
  }

  // ---- contexts ----

  function LoopBlocks(loops: seq<(BlockId, BlockId)>): set<BlockId> {
    (set i | 0 <= i < |loops| :: loops[i].0) + (set i | 0 <= i < |loops| :: loops[i].1)
  }

  function HandlerIds(handlers: seq<seq<BlockId>>): set<BlockId> {
    set i, j | 0 <= i < |handlers| && 0 <= j < |handlers[i]| :: handlers[i][j]
  }

  /** The blocks the contexts may lead to. */
  function Pending(b: Building): set<BlockId> {
    LoopBlocks(b.loops) + HandlerIds(b.handlers)
  }

  function Ends(out: Option<Open>, continuation: Option<BlockId>): set<BlockId> {
    (if out.Some? then {out.value.id} else {}) + (if continuation.Some? then {continuation.value} else {})
  }

  lemma HandlersPending(b: Building)
    ensures forall t :: t in ExceptionTargets(b) ==> t in Pending(b)
  {
    if b.handlers != [] {
      var i := |b.handlers| - 1;
      forall t | t in b.handlers[i] ensures t in HandlerIds(b.handlers) {
        var j :| 0 <= j < |b.handlers[i]| && b.handlers[i][j] == t;
      }
    }
  }

  lemma LoopsPending(b: Building)
    ensures b.loops != [] ==> b.loops[|b.loops| - 1].0 in Pending(b) && b.loops[|b.loops| - 1].1 in Pending(b)
  {
  }

  lemma LoopPushed(loops: seq<(BlockId, BlockId)>, header: BlockId, after: BlockId)
    ensures LoopBlocks(loops + [(header, after)]) == LoopBlocks(loops) + {header, after}
  {
    var more := loops + [(header, after)];
    forall t | t in LoopBlocks(loops) ensures t in LoopBlocks(more) {
      if i :| 0 <= i < |loops| && loops[i].0 == t {
        assert more[i].0 == t;
      } else {
        var i :| 0 <= i < |loops| && loops[i].1 == t;
        assert more[i].1 == t;
      }
    }
    assert more[|loops|] == (header, after);
  }

  lemma HandlersPushed(handlers: seq<seq<BlockId>>, ids: seq<BlockId>)
    ensures HandlerIds(handlers + [ids]) == HandlerIds(handlers) + AsSet(ids)
  {
    var more := handlers + [ids];
    forall t | t in HandlerIds(handlers) ensures t in HandlerIds(more) {
      var i, j :| 0 <= i < |handlers| && 0 <= j < |handlers[i]| && handlers[i][j] == t;
      assert more[i][j] == t;
    }
    forall t | t in ids ensures t in HandlerIds(more) {
      var j :| 0 <= j < |ids| && ids[j] == t;
      assert more[|handlers|][j] == t;
    }
  }

  // ---- what every layout gives ----

  /** The open block is new, and the continuation, if finished already, has the handlers in
      force. */
  ghost predicate Fits(b: Building, open: Open, continuation: Option<BlockId>) {
    && Ready(b, open)
    && (continuation.Some? ==> Known(b, continuation.value) && continuation.value != open.id
                               && (continuation.value in b.blocks ==> Has(b, continuation.value, ExceptionTargets(b))))
  }

  ghost predicate Built(b: Building, open: Open, continuation: Option<BlockId>, b': Building, out: Option<Open>) {
    && Kept(b', open, out) && OutOk(b, b', open, out)
    && Adds(b, b', {open.id}, Pending(b) + Ends(out, continuation), ExceptionTargets(b), Ends(out, continuation))
    && (open.id in b'.blocks ==> Has(b', open.id, ExceptionTargets(b)))
    && b'.loops == b.loops && b'.handlers == b.handlers
  }

  lemma BuiltGrows(b: Building, open: Open, continuation: Option<BlockId>, b': Building, out: Option<Open>)
    requires Built(b, open, continuation, b', out)
    ensures Grows(b, b', {open.id}) && Sane(b')
  {
  }

  lemma FinishedBuilt(b: Building, open: Open, continuation: Option<BlockId>, terminator: Exit)
    requires Ready(b, open)
    requires forall t :: t in Targets(terminator) ==> t in Pending(b) + Ends(None, continuation)
    requires !terminator.Branch? && !terminator.ForEach?
    ensures Built(b, open, continuation, Finished(b, open, terminator), None)
  {
    HandlersPending(b);
    FinishedAdds(b, open, terminator, Pending(b) + Ends(None, continuation), Ends(None, continuation));
  }

  /** One layout after the other, from the block the first left open. */
  lemma BuiltOn(b: Building, open: Open, first: Option<BlockId>, b1: Building, out1: Open,
      continuation: Option<BlockId>, b2: Building, out: Option<Open>)
    requires Ready(b, open) && Built(b, open, first, b1, Some(out1)) && Built(b1, out1, continuation, b2, out)
    requires first == None || first == continuation
    ensures Built(b, open, continuation, b2, out)
  {
    hide Grows, Edges, Branches, Known, LoopBlocks, HandlerIds;
    assert Pending(b1) == Pending(b);
    var h := ExceptionTargets(b);
    KeptOn(b, open, b1, out1, b2, out);
    if out1.id in b2.blocks {
      assert Has(b2, out1.id, h);
    }
    AddsOn(b, b1, b2, {open.id}, Pending(b) + Ends(out, continuation), h, Ends(out, continuation),
           {open.id}, Pending(b) + Ends(Some(out1), first), Ends(Some(out1), first),
           {out1.id}, Pending(b) + Ends(out, continuation), h, Ends(out, continuation));
    FirstOn(b, open, first, b1, out1, b2);
    OutOn(b, open, b1, out1, b2, out);
  }

  /** An open block was finished, or is still the open one. */
  lemma KeptOn(b: Building, open: Open, b1: Building, out1: Open, b2: Building, out: Option<Open>)
    requires Grows(b1, b2, {out1.id}) && Kept(b1, open, Some(out1)) && Kept(b2, out1, out)
    ensures Kept(b2, open, out)
    ensures out1.id in b2.blocks || Ends(out, None) == {out1.id}
  {
  }

  lemma FirstOn(b: Building, open: Open, first: Option<BlockId>, b1: Building, out1: Open, b2: Building)
    requires Built(b, open, first, b1, Some(out1)) && Grows(b1, b2, {out1.id})
    requires out1.id in b2.blocks ==> Has(b2, out1.id, ExceptionTargets(b))
    ensures open.id in b2.blocks ==> Has(b2, open.id, ExceptionTargets(b))
  {
    if open.id in b2.blocks && open.id !in b1.blocks {
      assert open.id == out1.id;
    }
  }

  lemma OutOn(b: Building, open: Open, b1: Building, out1: Open, b2: Building, out: Option<Open>)
    requires Ready(b, open) && Grows(b, b1, {open.id}) && OutOk(b, b1, open, Some(out1)) && OutOk(b1, b2, out1, out)
    ensures OutOk(b, b2, open, out)
  {
  }

  // ---- statements one after the other ----

  lemma FitsOn(b: Building, open: Open, first: Option<BlockId>, b1: Building, out1: Open, continuation: Option<BlockId>)
    requires Fits(b, open, continuation) && Built(b, open, first, b1, Some(out1))
    ensures Fits(b1, out1, continuation)
  {
  }

  lemma {:induction false} BuiltUpTo(b: Building, statements: seq<Statement>, k: nat, open: Open,
      continuation: Option<BlockId>)
    requires k <= |statements| && Fits(b, open, continuation)
    ensures var r := LayUpTo(b, statements, k, open, continuation);
      r.Laid? ==> Built(b, open, if k == |statements| then continuation else None, r.b, r.out)
    decreases SizeAll(statements), k + 2
  {
    hide Built, Fits, Known;
    if k == 0 {
      FitsLess(b, open, continuation);
      NothingBuilt(b, open, if k == |statements| then continuation else None, []);
      assert Appended(open, []) == open;
    } else {
      var r := LayUpTo(b, statements, k - 1, open, continuation);
      if r.Laid? {
        FitsLess(b, open, continuation);
        BuiltUpTo(b, statements, k - 1, open, continuation);
        var c := if k == |statements| then continuation else None;
        FitsOn(b, open, None, r.b, r.out.value, c);
        BuiltStatement(r.b, statements[k - 1], r.out.value, c);
        var r' := LayStatement(r.b, statements[k - 1], r.out.value, c);
        if r'.Laid? {
          BuiltOn(b, open, None, r.b, r.out.value, c, r'.b, r'.out);
          if r'.out.None? && k < |statements| {
            DeadBuilt(b, open, r'.b);
          }
        }
      }
    }
  }

  lemma FitsLess(b: Building, open: Open, continuation: Option<BlockId>)
    requires Fits(b, open, continuation)
    ensures Fits(b, open, None) && Ready(b, open)
  {
  }

  /** Adding items to the open block. */
  lemma NothingBuilt(b: Building, open: Open, continuation: Option<BlockId>, items: seq<Item>)
    requires Ready(b, open)
    ensures Built(b, open, continuation, b, Some(Appended(open, items)))
  {
  }

  lemma DeadBuilt(b: Building, open: Open, b1: Building)
    requires Ready(b, open) && Built(b, open, None, b1, None)
    ensures Built(b, open, None, Counted(b1, "dead"), Some(Open(Next(b1, "dead"), [])))
  {
    hide Edges, Branches;
    var b2 := Counted(b1, "dead");
    assert Ends(None, None) == {} && Pending(b) + {} == Pending(b) && Ends(Some(Open(Next(b1, "dead"), [])), None)
      == {Next(b1, "dead")};
    CountedGrows(b1, "dead");
    CountedAdds(b1, "dead", {}, ExceptionTargets(b), {});
    AddsOn(b, b1, b2, {open.id}, Pending(b) + {Next(b1, "dead")}, ExceptionTargets(b), {Next(b1, "dead")},
           {open.id}, Pending(b), {}, {}, {}, ExceptionTargets(b), {});
  }

  lemma {:induction false} BuiltAll(b: Building, statements: seq<Statement>, open: Open, continuation: Option<BlockId>)
    requires Fits(b, open, continuation)
    ensures var r := LayAll(b, statements, open, continuation); r.Laid? ==> Built(b, open, continuation, r.b, r.out)
    decreases SizeAll(statements), |statements| + 3
  {
    hide Built, Fits, Known;
    BuiltUpTo(b, statements, |statements|, open, continuation);
    var r := LayUpTo(b, statements, |statements|, open, continuation);
    if r.Laid? && r.out.Some? && continuation.Some? {
      FitsOn(b, open, continuation, r.b, r.out.value, continuation);
      FitsLess(b, open, continuation);
      FitsLess(r.b, r.out.value, continuation);
      FinishedBuilt(r.b, r.out.value, continuation, Jump(continuation.value));
      BuiltOn(b, open, continuation, r.b, r.out.value, continuation,
        Finished(r.b, r.out.value, Jump(continuation.value)), None);
    }
  }

  lemma {:induction false} BuiltStatement(b: Building, s: Statement, open: Open, continuation: Option<BlockId>)
    requires Fits(b, open, continuation)
    ensures var r := LayStatement(b, s, open, continuation); r.Laid? ==> Built(b, open, continuation, r.b, r.out)
    decreases Size(s), 1
  {
    hide Built, Fits, Known, LayIf, LayLoop, LayTry, LayAll, Pending, Sane, Ready;
    FitsLess(b, open, continuation);
    LoopsPending(b);
    match s {
      case Simple(text) => NothingBuilt(b, open, continuation, [Plain(text)]);
      case Return(v) => FinishedBuilt(b, open, continuation, Leave(v));
      case Raise(e) => FinishedBuilt(b, open, continuation, Throw(e));
      case Break => if b.loops != [] { FinishedBuilt(b, open, continuation, Jump(b.loops[|b.loops| - 1].1)); }
      case Continue => if b.loops != [] { FinishedBuilt(b, open, continuation, Jump(b.loops[|b.loops| - 1].0)); }
      case If(_, _, _) => BuiltIf(b, s, open, continuation);
      case While(setup, _, _, _) =>
        if setup == [] {
          BuiltLoop(b, s, open, continuation);
        } else {
          RewrittenSmaller(s);
          BuiltLoop(b, Rewritten(s), open, continuation);
        }
      case For(_, _, _, _) => BuiltLoop(b, s, open, continuation);
      case With(contexts, body) =>
        FitsMore(b, open, Enters(contexts));
        BuiltAll(b, body, Appended(open, Enters(contexts)), None);
        var r := LayAll(b, body, Appended(open, Enters(contexts)), None);
        if r.Laid? {
          BuiltInside(b, open, continuation, Enters(contexts), r.b, r.out, Exits(contexts));
        }
      case Try(_, _, _, _) => BuiltTry(b, s, open, continuation);
    }
  }

  lemma FitsMore(b: Building, open: Open, items: seq<Item>)
    requires Fits(b, open, None)
    ensures Fits(b, Appended(open, items), None)
  {
  }

  lemma BuiltInside(b: Building, open: Open, continuation: Option<BlockId>, before: seq<Item>, b': Building,
      out: Option<Open>, after: seq<Item>)
    requires Built(b, Appended(open, before), None, b', out)
    ensures Built(b, open, continuation, b', if out.Some? then Some(Appended(out.value, after)) else None)
  {
    assert open.items <= Appended(open, before).items;
    forall id | IsNew(b, b', id) ensures BlockLeads(b', Pending(b) + Ends(out, continuation), id)
      && BlockBranches(b', ExceptionTargets(b), Ends(out, continuation), id) {
    }
  }

  // ---- statements with parts ----

  /** Ids were taken, nothing else. */
  ghost predicate Takes(b: Building, b': Building) {
    b'.blocks == b.blocks && b'.loops == b.loops && b'.handlers == b.handlers && forall kind ::
      Count(b, kind) <= Count(b', kind)
  }

  /** An id taken between the two. */
  ghost predicate TakenIn(b: Building, b': Building, id: BlockId) {
    !Known(b, id) && Known(b', id)
  }

  /** The open block was finished, and more was laid out. */
  ghost predicate Doing(b: Building, open: Open, b1: Building, pending: set<BlockId>, ends: set<BlockId>) {
    && Adds(b, b1, {open.id}, pending, ExceptionTargets(b), ends)
    && Has(b1, open.id, ExceptionTargets(b)) && open.items <= b1.blocks[open.id].items
  }

  lemma HeadDone(b: Building, open: Open, b1: Building, terminator: Exit, ends: set<BlockId>)
    requires Ready(b, open) && Takes(b, b1)
    requires !terminator.Jump? ==> forall t :: t in Targets(terminator) ==> t in ends && t != open.id
    ensures Doing(b, open, Finished(b1, open, terminator), Pending(b) + AsSet(Targets(terminator)), ends)
  {
    HandlersPending(b);
    FinishedAdds(b1, open, terminator, Pending(b) + AsSet(Targets(terminator)), ends);
    var b2 := Finished(b1, open, terminator);
    forall id | IsNew(b, b2, id) ensures BlockLeads(b2, Pending(b) + AsSet(Targets(terminator)), id)
      && BlockBranches(b2, ExceptionTargets(b), ends, id) {
      assert IsNew(b1, b2, id);
    }
  }

  /** A further block is finished at once. */
  lemma DoingFinish(b: Building, open: Open, b1: Building, pending: set<BlockId>, ends: set<BlockId>, x: Open,
      terminator: Exit, pending': set<BlockId>, ends': set<BlockId>)
    requires Doing(b, open, b1, pending, ends) && Ready(b1, x) && !Known(b, x.id) && b1.handlers == b.handlers
    requires pending <= pending' + {x.id} && ends <= ends' + {x.id} && Pending(b) <= pending'
    requires forall t :: t in Targets(terminator) ==> t in pending' && t in ends' && t != x.id
    ensures Doing(b, open, Finished(b1, x, terminator), pending', ends')
  {
    hide Edges, Branches, Known;
    var h := ExceptionTargets(b);
    HandlersPending(b);
    FinishedAdds(b1, x, terminator, pending', ends');
    AddsOn(b, b1, Finished(b1, x, terminator), {open.id}, pending', h, ends', {open.id}, pending, ends, {x.id},
      pending', h, ends');
    FinishedGrows(b1, x, terminator);
    StillHas(b1, Finished(b1, x, terminator), {x.id}, open, h);
  }

  lemma StillHas(b1: Building, b2: Building, mine: set<BlockId>, open: Open, h: seq<BlockId>)
    requires Grows(b1, b2, mine) && Has(b1, open.id, h) && open.items <= b1.blocks[open.id].items
    ensures Has(b2, open.id, h) && open.items <= b2.blocks[open.id].items
  {
  }

  /** A part is laid out from a block of its own, going on at `m`. */
  lemma DoingOn(b: Building, open: Open, b1: Building, pending: set<BlockId>, ends: set<BlockId>, x: Open, m: BlockId,
      b2: Building, pending': set<BlockId>, ends': set<BlockId>)
    requires Doing(b, open, b1, pending, ends) && Built(b1, x, Some(m), b2, None) && !Known(b, x.id)
      && b1.handlers == b.handlers
    requires forall t :: t in pending + Pending(b1) + {m} ==> t in pending' || t in b2.blocks || t == x.id
    requires ends <= ends' + {x.id} && (m in ends' || Has(b2, m, ExceptionTargets(b)))
    ensures Doing(b, open, b2, pending', ends')
  {
    hide Edges, Branches, Known, Pending;
    var h := ExceptionTargets(b);
    assert Has(b2, x.id, h) && Ends(None, Some(m)) == {m};
    AddsOn(b, b1, b2, {open.id}, pending', h, ends', {open.id}, pending, ends, {x.id}, Pending(b1) + {m}, h, {m});
    StillHas(b1, b2, {x.id}, open, h);
  }

  lemma DoingSame(b: Building, open: Open, b1: Building, b2: Building, pending: set<BlockId>, ends: set<BlockId>)
    requires Doing(b, open, b1, pending, ends) && SameState(b1, b2)
    ensures Doing(b, open, b2, pending, ends)
  {
    AddsSame(b, b1, b, b2, {open.id}, pending, ExceptionTargets(b), ends);
  }

  /** All parts are laid out. */
  lemma DoingDone(b: Building, open: Open, b1: Building, m: BlockId, continuation: Option<BlockId>)
    requires Ready(b, open) && Doing(b, open, b1, Pending(b) + {m}, {m}) && b1.loops == b.loops
      && b1.handlers == b.handlers
    requires if continuation.Some? then continuation.value == m else !Known(b, m) && Known(b1, m) && m !in b1.blocks
    ensures Built(b, open, continuation, b1, if continuation.Some? then None else Some(Open(m, [])))
  {
  }

  /** A part may start from a block not finished yet. */
  lemma PartFits(b1: Building, x: Open, m: BlockId)
    requires Sane(b1) && Known(b1, x.id) && x.id !in b1.blocks && Known(b1, m) && m != x.id
    requires m in b1.blocks ==> Has(b1, m, ExceptionTargets(b1))
    ensures Fits(b1, x, Some(m))
  {
  }

  /** What a part leaves alone. */
  lemma PartLeaves(b1: Building, x: Open, m: BlockId, b2: Building, y: BlockId)
    requires Built(b1, x, Some(m), b2, None) && Known(b1, y) && y != x.id
    ensures Known(b2, y) && (y in b2.blocks <==> y in b1.blocks) && (y in b1.blocks ==> b2.blocks[y] == b1.blocks[y])
    ensures Sane(b2) && x.id in b2.blocks && b2.loops == b1.loops && b2.handlers == b1.handlers
  {
  }

  // ---- if ----

  lemma IfIdsTaken(b: Building, s: Statement, continuation: Option<BlockId>)
    requires s.If? && (continuation.Some? ==> Known(b, continuation.value))
    ensures var (b1, ids) := TakeIfIds(b, s, continuation);
      && Takes(b, b1) && TakenIn(b, b1, ids.thenBlock) && Known(b1, ids.merge) && ids.thenBlock != ids.merge
      && (if continuation.Some? then ids.merge == continuation.value else TakenIn(b, b1, ids.merge))
      && (if s.orelse == [] then ids.elseBlock == ids.merge
          else TakenIn(b, b1, ids.elseBlock) && ids.elseBlock != ids.thenBlock && ids.elseBlock != ids.merge)
  {
  }

  /** An id taken lately belongs to no block yet. */
  lemma TakenIsFree(b: Building, open: Open, b1: Building, id: BlockId)
    requires Ready(b, open) && Takes(b, b1) && TakenIn(b, b1, id)
    ensures id !in b1.blocks && id != open.id
  {
  }

  /** The continuation, or the block that will follow, as the parts see it. */
  lemma MergeFits(b: Building, open: Open, continuation: Option<BlockId>, b1: Building, m: BlockId, terminator: Exit)
    requires Fits(b, open, continuation) && Takes(b, b1)
    requires if continuation.Some? then m == continuation.value else TakenIn(b, b1, m)
    ensures Known(b1, m) && m != open.id
    ensures var b2 := Finished(b1, open, terminator); Sane(b2) && Known(b2, m) && (m in b2.blocks ==> Has(b2, m, ExceptionTargets(b)))
    ensures continuation == None ==> m !in Finished(b1, open, terminator).blocks
  {
  }

  lemma {:induction false} BuiltIf(b: Building, s: Statement, open: Open, continuation: Option<BlockId>)
    requires s.If? && Fits(b, open, continuation)
    ensures var r := LayIf(b, s, open, continuation); r.Laid? ==> Built(b, open, continuation, r.b, r.out)
    decreases Size(s), 0
  {
    hide Built, Adds, Has, Known, Pending, Sane, Fits, Kept, OutOk, Doing, LayAll, TakeIfIds, Takes, TakenIn;
    FitsKnown(b, open, continuation);
    IfIdsTaken(b, s, continuation);
    var (b1, ids) := TakeIfIds(b, s, continuation);
    var t := Branch(s.condition, ids.thenBlock, ids.elseBlock);
    var b2 := Finished(b1, open, t);
    TakenIsFree(b, open, b1, ids.thenBlock);
    MergeFits(b, open, continuation, b1, ids.merge, t);
    HeadDone(b, open, b1, t, {ids.thenBlock, ids.elseBlock});
    KnownFinished(b1, open, t, ids.thenBlock);
    PartFits(b2, Open(ids.thenBlock, []), ids.merge);
    BuiltAll(b2, s.body, Open(ids.thenBlock, []), Some(ids.merge));
    var r := LayAll(b2, s.body, Open(ids.thenBlock, []), Some(ids.merge));
    if r.Laid? {
      SamePending(b, b2);
      PartLeaves(b2, Open(ids.thenBlock, []), ids.merge, r.b, ids.merge);
      DoingOn(b, open, b2, Pending(b) + AsSet(Targets(t)), {ids.thenBlock, ids.elseBlock}, Open(ids.thenBlock, []),
        ids.merge, r.b,
              Pending(b) + {ids.elseBlock, ids.merge}, {ids.elseBlock, ids.merge});
      if s.orelse == [] {
        assert {ids.elseBlock, ids.merge} == {ids.merge};
        DoingDone(b, open, r.b, ids.merge, continuation);
      } else {
        TakenIsFree(b, open, b1, ids.elseBlock);
        KnownFinished(b1, open, t, ids.elseBlock);
        PartLeaves(b2, Open(ids.thenBlock, []), ids.merge, r.b, ids.elseBlock);
        MergeStays(b, b2, r.b, ids.merge);
        PartFits(r.b, Open(ids.elseBlock, []), ids.merge);
        BuiltAll(r.b, s.orelse, Open(ids.elseBlock, []), Some(ids.merge));
        var r' := LayAll(r.b, s.orelse, Open(ids.elseBlock, []), Some(ids.merge));
        if r'.Laid? {
          SamePending(b, r.b);
          PartLeaves(r.b, Open(ids.elseBlock, []), ids.merge, r'.b, ids.merge);
          DoingOn(b, open, r.b, Pending(b) + {ids.elseBlock, ids.merge}, {ids.elseBlock, ids.merge},
            Open(ids.elseBlock, []), ids.merge, r'.b,
                  Pending(b) + {ids.merge}, {ids.merge});
          DoingDone(b, open, r'.b, ids.merge, continuation);
        }
      }
    }
  }

  lemma FitsKnown(b: Building, open: Open, continuation: Option<BlockId>)
    requires Fits(b, open, continuation)
    ensures Ready(b, open) && (continuation.Some? ==> Known(b, continuation.value) && continuation.value != open.id)
  {
  }

  lemma KnownFinished(b: Building, open: Open, terminator: Exit, id: BlockId)
    ensures Known(Finished(b, open, terminator), id) == Known(b, id)
    ensures id in Finished(b, open, terminator).blocks <==> id in b.blocks || id == open.id
  {
  }

  lemma SamePending(b: Building, b': Building)
    requires b.loops == b'.loops && b.handlers == b'.handlers
    ensures Pending(b) == Pending(b') && ExceptionTargets(b) == ExceptionTargets(b')
  {
  }

  lemma MergeStays(b: Building, b1: Building, b2: Building, m: BlockId)
    requires m in b1.blocks ==> Has(b1, m, ExceptionTargets(b))
    requires (m in b2.blocks <==> m in b1.blocks) && (m in b1.blocks ==> b2.blocks[m] == b1.blocks[m])
    ensures m in b2.blocks ==> Has(b2, m, ExceptionTargets(b))
  {
  }

  // ---- loops ----

  /** A block others go on at: free, or finished with the handlers in force. */
  ghost predicate GoesOn(b: Building, m: BlockId, h: seq<BlockId>) {
    Known(b, m) && (m in b.blocks ==> Has(b, m, h))
  }

  lemma LoopIdsTaken(b: Building, s: Statement, continuation: Option<BlockId>)
    requires (s.While? || s.For?) && (continuation.Some? ==> Known(b, continuation.value))
    ensures var (b1, ids) := TakeLoopIds(b, s, continuation);
      && Takes(b, b1) && TakenIn(b, b1, ids.header) && TakenIn(b, b1, ids.body) && Known(b1, ids.after)
      && ids.header != ids.body && ids.header != ids.after && ids.body != ids.after && ids.header != ids.exit
        && ids.body != ids.exit
      && (if continuation.Some? then ids.after == continuation.value else TakenIn(b, b1, ids.after))
      && (if s.orelse == [] then ids.exit == ids.after else TakenIn(b, b1, ids.exit) && ids.exit != ids.after)
  {
  }

  /** The two blocks every loop begins with. */
  lemma HeadBuilt(b: Building, s: Statement, open: Open, continuation: Option<BlockId>)
    requires (s.While? || s.For?) && Fits(b, open, continuation)
    ensures var (b1, ids) := TakeLoopIds(b, s, continuation); var b2 := LoopHead(b1, s, open, ids);
      && Doing(b, open, b2, Pending(b) + {ids.body, ids.exit}, {ids.body, ids.exit})
      && Has(b2, ids.header, ExceptionTargets(b)) && Sane(b2)
      && b2.loops == b.loops && b2.handlers == b.handlers
  {
    FitsKnown(b, open, continuation);
    LoopIdsTaken(b, s, continuation);
    var (b1, ids) := TakeLoopIds(b, s, continuation);
    LoopHeadBuilt(b, s, open, b1, ids);
  }

  lemma LoopHeadBuilt(b: Building, s: Statement, open: Open, b1: Building, ids: LoopIds)
    requires (s.While? || s.For?) && Ready(b, open) && Takes(b, b1) && TakenIn(b, b1, ids.header)
      && ids.header != ids.body && ids.header != ids.exit
    ensures var b2 := LoopHead(b1, s, open, ids);
      && Doing(b, open, b2, Pending(b) + {ids.body, ids.exit}, {ids.body, ids.exit})
      && Has(b2, ids.header, ExceptionTargets(b)) && Sane(b2)
      && b2.loops == b.loops && b2.handlers == b.handlers
  {
    hide Adds, Pending;
    HeadDone(b, open, b1, Jump(ids.header), {});
    assert Pending(b) + AsSet(Targets(Jump(ids.header))) == Pending(b) + {ids.header};
    TakenIsFree(b, open, b1, ids.header);
    var bA := Finished(b1, open, Jump(ids.header));
    DoingFinish(b, open, bA, Pending(b) + {ids.header}, {}, Open(ids.header, []), LoopExit(s, ids.body, ids.exit),
      Pending(b) + {ids.body, ids.exit}, {ids.body, ids.exit});
  }

  /** An id of the loop other than its header is free past the head. */
  lemma FreePastHead(b: Building, s: Statement, open: Open, continuation: Option<BlockId>, b1: Building, ids: LoopIds,
      id: BlockId)
    requires (s.While? || s.For?) && Fits(b, open, continuation) && Takes(b, b1) && TakenIn(b, b1, id)
      && id != ids.header
    ensures Known(LoopHead(b1, s, open, ids), id) && id !in LoopHead(b1, s, open, ids).blocks
  {
  }

  lemma AfterPastHead(b: Building, s: Statement, open: Open, continuation: Option<BlockId>, b1: Building, ids: LoopIds)
    requires (s.While? || s.For?) && Fits(b, open, continuation) && Takes(b, b1) && TakenIn(b, b1, ids.header)
      && ids.header != ids.after
    requires if continuation.Some? then ids.after == continuation.value else TakenIn(b, b1, ids.after)
    ensures var b2 := LoopHead(b1, s, open, ids);
      Known(b2, ids.after) && (ids.after in b2.blocks ==> Has(b2, ids.after, ExceptionTargets(b)))
        && (continuation == None ==> ids.after !in b2.blocks)
  {
  }

  /** The state with other loops around. */
  lemma InLoop(b: Building, loops: seq<(BlockId, BlockId)>, id: BlockId)
    ensures var b' := b.(loops := loops);
      SameState(b, b') && Known(b', id) == Known(b, id) && ExceptionTargets(b') == ExceptionTargets(b)
        && (Sane(b) ==> Sane(b'))
  {
    forall x ensures Known(b.(loops := loops), x) == Known(b, x) {
    }
  }

  lemma {:induction false} BuiltLoop(b: Building, s: Statement, open: Open, continuation: Option<BlockId>)
    requires (s.While? || s.For?) && Fits(b, open, continuation)
    ensures var r := LayLoop(b, s, open, continuation); r.Laid? ==> Built(b, open, continuation, r.b, r.out)
    decreases Size(s), 0
  {
    hide Built, Adds, Known, Pending, Sane, Fits, Kept, OutOk, Doing, LoopHead, TakeLoopIds, Takes;
    FitsKnown(b, open, continuation);
    LoopIdsTaken(b, s, continuation);
    HeadBuilt(b, s, open, continuation);
    var (b1, ids) := TakeLoopIds(b, s, continuation);
    var b2 := LoopHead(b1, s, open, ids);
    var inner := b2.(loops := b.loops + [(ids.header, ids.after)]);
    AfterPastHead(b, s, open, continuation, b1, ids);
    LoopBodyFits(b, s, open, continuation, b1, ids);
    BuiltAll(inner, s.body, Open(ids.body, []), Some(ids.header));
    var r := LayAll(inner, s.body, Open(ids.body, []), Some(ids.header));
    if r.Laid? {
      var b3 := r.b.(loops := b.loops);
      BodyBuilt(b, s, open, b2, inner, ids, r.b, b3);
      AfterBody(b, b2, inner, ids, r.b, b3);
      if s.orelse == [] {
        assert {ids.exit, ids.after} == {ids.after};
        DoingDone(b, open, b3, ids.after, continuation);
      } else {
        ElseBuilt(b, s, open, continuation, b1, b2, inner, ids, r.b, b3);
        BuiltAll(b3, s.orelse, Open(ids.exit, []), Some(ids.after));
        var r' := LayAll(b3, s.orelse, Open(ids.exit, []), Some(ids.after));
        if r'.Laid? {
          SamePending(b, b3);
          PartLeaves(b3, Open(ids.exit, []), ids.after, r'.b, ids.after);
          DoingOn(b, open, b3, Pending(b) + {ids.exit, ids.after}, {ids.exit, ids.after}, Open(ids.exit, []), ids.after,
            r'.b, Pending(b) + {ids.after}, {ids.after});
          DoingDone(b, open, r'.b, ids.after, continuation);
        }
      }
    }
  }

  lemma LoopBodyFits(b: Building, s: Statement, open: Open, continuation: Option<BlockId>, b1: Building, ids: LoopIds)
    requires (s.While? || s.For?) && Fits(b, open, continuation) && (b1, ids) == TakeLoopIds(b, s, continuation)
    ensures var b2 := LoopHead(b1, s, open, ids); var inner := b2.(loops := b.loops + [(ids.header, ids.after)]);
      Fits(inner, Open(ids.body, []), Some(ids.header)) && Known(inner, ids.header) && !Known(b, ids.body)
        && ids.header != ids.body
  {
    hide Adds, Has, Known, Pending, Sane, Fits, Doing, LoopHead;
    FitsKnown(b, open, continuation);
    LoopIdsTaken(b, s, continuation);
    HeadBuilt(b, s, open, continuation);
    var b2 := LoopHead(b1, s, open, ids);
    var inner := b2.(loops := b.loops + [(ids.header, ids.after)]);
    FreePastHead(b, s, open, continuation, b1, ids, ids.body);
    InLoop(b2, inner.loops, ids.body);
    InLoop(b2, inner.loops, ids.header);
    HeaderFits(b2, inner, ids.header, ids.body);
  }

  lemma AfterBody(b: Building, b2: Building, inner: Building, ids: LoopIds, b3': Building, b3: Building)
    requires inner == b2.(loops := b.loops + [(ids.header, ids.after)]) && b2.handlers == b.handlers
    requires Built(inner, Open(ids.body, []), Some(ids.header), b3', None) && b3 == b3'.(loops := b.loops)
      && ids.body != ids.after
    requires GoesOn(b2, ids.after, ExceptionTargets(b))
    ensures b3.loops == b.loops && b3.handlers == b.handlers && GoesOn(b3, ids.after, ExceptionTargets(b))
    ensures ids.after !in b2.blocks ==> ids.after !in b3.blocks
  {
    hide Built, Known;
    InLoop(b2, inner.loops, ids.after);
    PartLeaves(inner, Open(ids.body, []), ids.header, b3', ids.after);
    InLoop(b3', b.loops, ids.after);
  }

  lemma HeaderFits(b2: Building, inner: Building, header: BlockId, body: BlockId)
    requires SameState(b2, inner) && Sane(inner) && Known(inner, body) && body !in b2.blocks
      && Known(b2, header) == Known(inner, header)
    requires Has(b2, header, ExceptionTargets(inner)) && header != body
    ensures Fits(inner, Open(body, []), Some(header))
  {
  }

  lemma BodyBuilt(b: Building, s: Statement, open: Open, b2: Building, inner: Building, ids: LoopIds, b3': Building,
      b3: Building)
    requires Doing(b, open, b2, Pending(b) + {ids.body, ids.exit}, {ids.body, ids.exit})
      && Has(b2, ids.header, ExceptionTargets(b))
    requires b2.handlers == b.handlers && inner == b2.(loops := b.loops + [(ids.header, ids.after)])
      && ids.header != ids.body
    requires Built(inner, Open(ids.body, []), Some(ids.header), b3', None) && b3 == b3'.(loops := b.loops)
      && !Known(b, ids.body)
    requires Known(inner, ids.header)
    ensures Doing(b, open, b3, Pending(b) + {ids.exit, ids.after}, {ids.exit, ids.after})
  {
    hide Built, Adds, Known, Doing;
    LoopPushed(b.loops, ids.header, ids.after);
    assert Pending(inner) == Pending(b) + {ids.header, ids.after};
    DoingSame(b, open, b2, inner, Pending(b) + {ids.body, ids.exit}, {ids.body, ids.exit});
    PartLeaves(inner, Open(ids.body, []), ids.header, b3', ids.header);
    DoingOn(b, open, inner, Pending(b) + {ids.body, ids.exit}, {ids.body, ids.exit}, Open(ids.body, []), ids.header,
      b3',
            Pending(b) + {ids.exit, ids.after}, {ids.exit, ids.after});
    DoingSame(b, open, b3', b3, Pending(b) + {ids.exit, ids.after}, {ids.exit, ids.after});
  }

  lemma ElseBuilt(b: Building, s: Statement, open: Open, continuation: Option<BlockId>, b1: Building, b2: Building,
      inner: Building, ids: LoopIds, b3': Building, b3: Building)
    requires (s.While? || s.For?) && Fits(b, open, continuation) && Takes(b, b1) && TakenIn(b, b1, ids.exit)
    requires ids.exit != ids.header && ids.exit != ids.body && ids.exit != ids.after
    requires b2 == LoopHead(b1, s, open, ids) && b2.handlers == b.handlers
      && inner == b2.(loops := b.loops + [(ids.header, ids.after)])
    requires Built(inner, Open(ids.body, []), Some(ids.header), b3', None) && b3 == b3'.(loops := b.loops)
    requires Known(b3, ids.after) && (ids.after in b3.blocks ==> Has(b3, ids.after, ExceptionTargets(b)))
    ensures Fits(b3, Open(ids.exit, []), Some(ids.after)) && b3.handlers == b.handlers && Sane(b3)
  {
    hide Built, Sane, LoopHead, Known;
    FreePastHead(b, s, open, continuation, b1, ids, ids.exit);
    InLoop(b2, inner.loops, ids.exit);
    PartLeaves(inner, Open(ids.body, []), ids.header, b3', ids.exit);
    InLoop(b3', b.loops, ids.exit);
    PartFits(b3, Open(ids.exit, []), ids.after);
  }

  // ---- try ----

  lemma {:induction false} NextIdsFacts(b: Building, kind: string, n: nat)
    ensures var (b', ids) := NextIds(b, kind, n);
      && Takes(b, b') && |ids| == n && Count(b', kind) == Count(b, kind) + n
      && (forall i :: 0 <= i < n ==> ids[i] == Node(kind, Count(b, kind) + 1 + i))
      && (forall other :: other != kind ==> Count(b', other) == Count(b, other))
  {
    if n > 0 {
      NextIdsFacts(b, kind, n - 1);
    }
  }

  /** An id belongs to no block yet. */
  ghost predicate Free(b: Building, id: BlockId) {
    Known(b, id) && id !in b.blocks
  }

  /** The ids of a `try` are new, but the block after when it is the continuation. */
  ghost predicate TryTaken(b: Building, s: Statement, continuation: Option<BlockId>, b1: Building, ids: TryIds)
    requires s.Try?
  {
    && Takes(b, b1) && |ids.handlers| == |s.handlers|
    && TakenIn(b, b1, ids.body)
    && (forall i :: 0 <= i < |ids.handlers| ==> TakenIn(b, b1, ids.handlers[i]) && ids.handlers[i].name == "handler")
    && (forall i, j :: 0 <= i < j < |ids.handlers| ==> ids.handlers[i] != ids.handlers[j])
    && ids.body.name == "try"
    && (if s.orelse != [] then TakenIn(b, b1, ids.orelse) && ids.orelse.name == "else" else ids.orelse == ids.after)
    && ids.final == ids.join
    && (if s.finalbody != [] then TakenIn(b, b1, ids.final) && ids.final.name == "finally" else ids.final == ids.after)
    && (if continuation.Some? then ids.after == continuation.value && Known(b, ids.after)
        else TakenIn(b, b1, ids.after) && ids.after.name == "after")
  }

  lemma TryIdsTaken(b: Building, s: Statement, continuation: Option<BlockId>)
    requires s.Try? && (continuation.Some? ==> Known(b, continuation.value))
    ensures TryTaken(b, s, continuation, TakeTryIds(b, s, continuation).0, TakeTryIds(b, s, continuation).1)
  {
    hide TakenIn, Takes;
    var b0 := Counted(b, "try");
    var (b2, handlers) := NextIds(b0, "handler", |s.handlers|);
    var b3 := if s.orelse != [] then Counted(b2, "else") else b2;
    var b4 := if s.finalbody != [] then Counted(b3, "finally") else b3;
    var b5 := if continuation.Some? then b4 else Counted(b4, "after");
    TakesNothing(b);
    CountedTakes(b, b, "try");
    NextIdsTaken(b, b0, "handler", |s.handlers|);
    CountedTakes(b, b2, "else");
    CountedTakes(b, b3, "finally");
    CountedTakes(b, b4, "after");
  }

  lemma TakesNothing(b: Building)
    ensures Takes(b, b)
  {
  }

  /** Taking one more id. */
  lemma CountedTakes(b: Building, b1: Building, kind: string)
    requires Takes(b, b1)
    ensures Takes(b, Counted(b1, kind)) && TakenIn(b, Counted(b1, kind), Next(b1, kind))
    ensures forall id :: TakenIn(b, b1, id) ==> TakenIn(b, Counted(b1, kind), id)
  {
  }

  lemma NextIdsTaken(b: Building, b1: Building, kind: string, n: nat)
    requires Takes(b, b1)
    ensures var (b2, ids) := NextIds(b1, kind, n);
      && Takes(b, b2) && |ids| == n
      && (forall i :: 0 <= i < n ==> TakenIn(b, b2, ids[i]) && ids[i].name == kind)
      && (forall i, j :: 0 <= i < j < n ==> ids[i] != ids[j])
      && (forall id :: TakenIn(b, b1, id) ==> TakenIn(b, b2, id))
  {
    NextIdsFacts(b1, kind, n);
  }

  lemma DoingMore(b: Building, open: Open, b1: Building, pending: set<BlockId>, ends: set<BlockId>,
      pending': set<BlockId>, ends': set<BlockId>)
    requires Doing(b, open, b1, pending, ends) && pending <= pending' && ends <= ends'
    ensures Doing(b, open, b1, pending', ends')
  {
    forall id | IsNew(b, b1, id) ensures BlockLeads(b1, pending', id)
      && BlockBranches(b1, ExceptionTargets(b), ends', id) {
    }
  }

  /** The body of a `try`, its end jumping to `next`: its handlers are another's, but no branch
      leads out. */
  lemma TryBody(b: Building, open: Open, b2: Building, handlers: seq<BlockId>, body: BlockId, next: BlockId,
      b3: Building, out: Option<Open>, b4: Building)
    requires Doing(b, open, b2, Pending(b) + {body}, {}) && Free(b2, body) && Sane(b2) && !Known(b, body)
      && b2.loops == b.loops && b2.handlers == b.handlers
    requires Built(b2.(handlers := b.handlers + [handlers]), Open(body, []), None, b3, out)
    requires b4 == (if out.Some? then Finished(b3, out.value, Jump(next)) else b3).(handlers := b.handlers)
    ensures Doing(b, open, b4, Pending(b) + AsSet(handlers) + (if out.Some? then {next} else {}), {})
    ensures Grows(b2, b4, {body}) && b4.loops == b.loops && b4.handlers == b.handlers
  {
    hide Known, Edges, Branches;
    var inner := b2.(handlers := b.handlers + [handlers]);
    var pending := Pending(b) + AsSet(handlers) + (if out.Some? then {next} else {});
    var b3' := b4.(handlers := inner.handlers);
    HandlersPushed(b.handlers, handlers);
    InTry(b2, inner.handlers, body);
    assert Pending(inner) == Pending(b) + AsSet(handlers);
    TryBodyAdds(inner, body, next, b3, out, b3', pending);
    AddsSame(inner, b3', b2, b4, {body}, pending, ExceptionTargets(inner), {});
    AddsOn(b, b2, b4, {open.id}, pending, ExceptionTargets(b), {}, {open.id}, Pending(b) + {body}, {}, {body}, pending,
      ExceptionTargets(inner), {});
    StillHas(b2, b4, {body}, open, ExceptionTargets(b));
  }

  /** The state with other handlers in force. */
  lemma InTry(b: Building, handlers: seq<seq<BlockId>>, id: BlockId)
    ensures var b' := b.(handlers := handlers); SameState(b, b') && Known(b', id) == Known(b, id) && (Sane(b) ==> Sane(b'))
  {
    forall x ensures Known(b.(handlers := handlers), x) == Known(b, x) {
    }
  }

  lemma TryBodyAdds(inner: Building, body: BlockId, next: BlockId, b3: Building, out: Option<Open>, b3': Building,
      pending: set<BlockId>)
    requires Free(inner, body) && Sane(inner) && Built(inner, Open(body, []), None, b3, out)
    requires b3' == if out.Some? then Finished(b3, out.value, Jump(next)) else b3
    requires pending == Pending(inner) + (if out.Some? then {next} else {})
    ensures Adds(inner, b3', {body}, pending, ExceptionTargets(inner), {}) && body in b3'.blocks
  {
    hide Edges, Branches;
    if out.Some? {
      var o := out.value;
      assert ExceptionTargets(b3) == ExceptionTargets(inner) && Ends(out, None) == {o.id};
      HandlersPending(inner);
      FinishedAdds(b3, o, Jump(next), pending, {});
      AddsOn(inner, b3, b3', {body}, pending, ExceptionTargets(inner), {}, {body}, Pending(inner) + Ends(out, None),
        Ends(out, None), {o.id}, pending, ExceptionTargets(inner), {});
    } else {
      assert Ends(out, None) == {} && Pending(inner) + {} == pending;
    }
  }

  /** The handlers, each from a block of its own. */
  ghost predicate HandlersDone(b: Building, b': Building, ids: seq<BlockId>, k: nat, join: BlockId)
    requires k <= |ids|
  {
    && Adds(b, b', AsSet(ids[..k]), Pending(b) + {join}, ExceptionTargets(b), {join})
    && (forall i :: 0 <= i < k ==> ids[i] in b'.blocks)
    && b'.loops == b.loops && b'.handlers == b.handlers
  }

  lemma HandlersNone(b: Building, ids: seq<BlockId>, join: BlockId)
    requires Sane(b)
    ensures HandlersDone(b, b, ids, 0, join)
  {
  }

  lemma HandlersMore(b: Building, b1: Building, b2: Building, ids: seq<BlockId>, k: nat, x: Open, join: BlockId)
    requires k < |ids| && HandlersDone(b, b1, ids, k, join) && Built(b1, x, Some(join), b2, None) && x.id == ids[k]
    ensures HandlersDone(b, b2, ids, k + 1, join)
  {
    hide Edges, Branches, Known;
    assert ids[..k + 1] == ids[..k] + [ids[k]];
    assert Ends(None, Some(join)) == {join} && Pending(b1) == Pending(b);
    AddsOn(b, b1, b2, AsSet(ids[..k + 1]), Pending(b) + {join}, ExceptionTargets(b), {join},
           AsSet(ids[..k]), Pending(b) + {join}, {join}, {ids[k]}, Pending(b) + {join}, ExceptionTargets(b), {join});
    InSecond(b1, b2, x, join, ids, k);
  }

  lemma InSecond(b1: Building, b2: Building, x: Open, join: BlockId, ids: seq<BlockId>, k: nat)
    requires k < |ids| && Built(b1, x, Some(join), b2, None) && x.id == ids[k]
    requires forall i :: 0 <= i < k ==> ids[i] in b1.blocks
    ensures forall i :: 0 <= i < k + 1 ==> ids[i] in b2.blocks
  {
  }

  /** The next handler, and the block after all, as the state is by then. */
  lemma HandlerFits(b: Building, b1: Building, ids: seq<BlockId>, k: nat, join: BlockId, x: Open)
    requires k < |ids| && HandlersDone(b, b1, ids, k, join) && x.id == ids[k] && Free(b, ids[k])
      && GoesOn(b, join, ExceptionTargets(b))
    requires forall i :: 0 <= i < |ids| ==> ids[i] != join
    requires forall i, j :: 0 <= i < j < |ids| ==> ids[i] != ids[j]
    ensures Fits(b1, x, Some(join))
  {
    StaysFree(b, b1, AsSet(ids[..k]), ids[k]);
    StaysGoing(b, b1, AsSet(ids[..k]), join, ExceptionTargets(b));
  }

  lemma StaysFree(b: Building, b1: Building, mine: set<BlockId>, id: BlockId)
    requires Grows(b, b1, mine) && Free(b, id) && id !in mine
    ensures Free(b1, id)
  {
  }

  lemma StaysGoing(b: Building, b1: Building, mine: set<BlockId>, m: BlockId, h: seq<BlockId>)
    requires Grows(b, b1, mine) && GoesOn(b, m, h) && m !in mine
    ensures GoesOn(b1, m, h)
    ensures Free(b, m) ==> Free(b1, m)
  {
  }

  lemma {:induction false} BuiltHandlers(b: Building, handlers: seq<Handler>, ids: seq<BlockId>, k: nat, join: BlockId)
    requires k <= |handlers| == |ids| && Sane(b)
    requires forall i :: 0 <= i < |ids| ==> Free(b, ids[i]) && ids[i] != join
    requires forall i, j :: 0 <= i < j < |ids| ==> ids[i] != ids[j]
    requires GoesOn(b, join, ExceptionTargets(b))
    ensures var r := LayHandlers(b, handlers, ids, k, join); r.Laid? ==> HandlersDone(b, r.b, ids, k, join)
    decreases SizeHandlers(handlers), k
  {
    hide HandlersDone, Free, GoesOn, Fits, Built, Sane;
    if k == 0 {
      HandlersNone(b, ids, join);
    } else {
      BuiltHandlers(b, handlers, ids, k - 1, join);
      var r := LayHandlers(b, handlers, ids, k - 1, join);
      if r.Laid? {
        var x := Open(ids[k - 1], [EnterHandler(handlers[k - 1].name)]);
        HandlerFits(b, r.b, ids, k - 1, join, x);
        BuiltAll(r.b, handlers[k - 1].body, x, Some(join));
        var r' := LayAll(r.b, handlers[k - 1].body, x, Some(join));
        if r'.Laid? {
          HandlersMore(b, r.b, r'.b, ids, k - 1, x, join);
        }
      }
    }
  }

  lemma HandlersOn(b: Building, open: Open, b1: Building, ids: seq<BlockId>, join: BlockId, b2: Building)
    requires Doing(b, open, b1, Pending(b) + AsSet(ids) + {join}, {join}) && HandlersDone(b1, b2, ids, |ids|, join)
    requires b1.loops == b.loops && b1.handlers == b.handlers && forall i :: 0 <= i < |ids| ==> !Known(b, ids[i])
    ensures Doing(b, open, b2, Pending(b) + {join}, {join})
  {
    hide Edges, Branches, Known;
    assert ids[..|ids|] == ids && Pending(b1) == Pending(b);
    AddsOn(b, b1, b2, {open.id}, Pending(b) + {join}, ExceptionTargets(b), {join},
           {open.id}, Pending(b) + AsSet(ids) + {join}, {join}, AsSet(ids), Pending(b) + {join}, ExceptionTargets(b),
             {join});
    StillHas(b1, b2, AsSet(ids), open, ExceptionTargets(b));
  }

  /** How far a `try` has come, and what its next parts need. */
  ghost predicate TryAt(b: Building, s: Statement, open: Open, continuation: Option<BlockId>, ids: TryIds, b1: Building,
      orelse: bool, handlers: bool)
    requires s.Try?
  {
    && Sane(b1) && b1.loops == b.loops && b1.handlers == b.handlers
    && (orelse && s.orelse != [] ==> Free(b1, ids.orelse))
    && (handlers ==> forall i :: 0 <= i < |ids.handlers| ==> Free(b1, ids.handlers[i]))
    && (s.finalbody != [] ==> Free(b1, ids.final))
    && GoesOn(b1, ids.after, ExceptionTargets(b)) && (continuation == None ==> Free(b1, ids.after))
  }

  lemma TryStarts(b: Building, s: Statement, open: Open, continuation: Option<BlockId>, b1: Building, ids: TryIds)
    requires s.Try? && Fits(b, open, continuation) && TryTaken(b, s, continuation, b1, ids)
    ensures var b2 := Finished(b1, open, Jump(ids.body));
      TryAt(b, s, open, continuation, ids, b2, true, true) && Free(b2, ids.body)
      && Fits(b2.(handlers := b.handlers + [ids.handlers]), Open(ids.body, []), None)
  {
    var b2 := Finished(b1, open, Jump(ids.body));
    forall id ensures Known(b2, id) == Known(b1, id) {
    }
    TryInside(b, s, open, continuation, b1, ids);
  }

  lemma TryInside(b: Building, s: Statement, open: Open, continuation: Option<BlockId>, b1: Building, ids: TryIds)
    requires s.Try? && Fits(b, open, continuation) && TryTaken(b, s, continuation, b1, ids)
    ensures Fits(Finished(b1, open, Jump(ids.body)).(handlers := b.handlers + [ids.handlers]), Open(ids.body, []), None)
  {
    hide TryAt;
    var inner := Finished(b1, open, Jump(ids.body)).(handlers := b.handlers + [ids.handlers]);
    forall id ensures Known(inner, id) == Known(b1, id) {
    }
  }

  lemma TryGoesOn(b: Building, s: Statement, open: Open, continuation: Option<BlockId>, ids: TryIds, b1: Building,
      b2: Building, mine: set<BlockId>, orelse0: bool, handlers0: bool, orelse: bool, handlers: bool)
    requires s.Try? && TryAt(b, s, open, continuation, ids, b1, orelse0, handlers0) && (orelse ==> orelse0)
      && (handlers ==> handlers0)
    requires Grows(b1, b2, mine) && b2.loops == b.loops && b2.handlers == b.handlers
    requires orelse && s.orelse != [] ==> ids.orelse !in mine
    requires handlers ==> forall i :: 0 <= i < |ids.handlers| ==> ids.handlers[i] !in mine
    requires s.finalbody != [] ==> ids.final !in mine
    requires ids.after !in mine
    ensures TryAt(b, s, open, continuation, ids, b2, orelse, handlers)
  {
  }

  lemma TryNames(b: Building, s: Statement, continuation: Option<BlockId>, b1: Building, ids: TryIds)
    requires s.Try? && TryTaken(b, s, continuation, b1, ids)
    ensures ids.body != ids.after && ids.body != ids.join && !Known(b, ids.body)
    ensures s.orelse != [] ==>
      ids.orelse != ids.body && ids.orelse != ids.join && ids.orelse != ids.after && !Known(b, ids.orelse)
    ensures s.finalbody != [] ==> ids.final != ids.after && !Known(b, ids.final)
    ensures ids.join == ids.final && (s.finalbody == [] ==> ids.final == ids.after)
    ensures forall i :: 0 <= i < |ids.handlers| ==>
      ids.handlers[i] != ids.body && ids.handlers[i] != ids.after && ids.handlers[i] != ids.join
      && !Known(b, ids.handlers[i])
    ensures forall i :: 0 <= i < |ids.handlers| ==> s.orelse != [] ==> ids.handlers[i] != ids.orelse
    ensures forall i, j :: 0 <= i < j < |ids.handlers| ==> ids.handlers[i] != ids.handlers[j]
  {
  }

  lemma {:induction false} BuiltTry(b: Building, s: Statement, open: Open, continuation: Option<BlockId>)
    requires s.Try? && Fits(b, open, continuation)
    ensures var r := LayTry(b, s, open, continuation); r.Laid? ==> Built(b, open, continuation, r.b, r.out)
    decreases Size(s), 0, 1
  {
    hide Built, Doing, Fits, TryTaken, TryAt, HandlersDone, Free, Sane, Known, Pending, TakeTryIds;
    FitsKnown(b, open, continuation);
    TryIdsTaken(b, s, continuation);
    var (b1, ids) := TakeTryIds(b, s, continuation);
    TryNames(b, s, continuation, b1, ids);
    TryHead(b, s, open, continuation, b1, ids);
    var b2 := Finished(b1, open, Jump(ids.body));
    var inner := b2.(handlers := b.handlers + [ids.handlers]);
    BuiltAll(inner, s.body, Open(ids.body, []), None);
    var r := LayAll(inner, s.body, Open(ids.body, []), None);
    if r.Laid? {
      var next := if s.orelse != [] then ids.orelse else ids.join;
      var b3 := if r.out.Some? then Finished(r.b, r.out.value, Jump(next)) else r.b;
      var b4 := b3.(handlers := b.handlers);
      TryBody(b, open, b2, ids.handlers, ids.body, next, r.b, r.out, b4);
      TryGoesOn(b, s, open, continuation, ids, b2, b4, {ids.body}, true, true, true, true);
      var r4 := if r.out.Some? && s.orelse != [] then LayAll(b4, s.orelse, Open(ids.orelse, []), Some(ids.join))
        else Laid(b4, None);
      TryElse(b, s, open, continuation, b1, ids, b4, r.out.Some?);
      if r4.Laid? {
        TryRest(b, s, open, continuation, b1, ids, r4.b);
      }
    }
  }

  lemma TryHead(b: Building, s: Statement, open: Open, continuation: Option<BlockId>, b1: Building, ids: TryIds)
    requires s.Try? && Fits(b, open, continuation) && TryTaken(b, s, continuation, b1, ids)
    ensures var b2 := Finished(b1, open, Jump(ids.body));
      && TryAt(b, s, open, continuation, ids, b2, true, true) && Free(b2, ids.body)
      && Fits(b2.(handlers := b.handlers + [ids.handlers]), Open(ids.body, []), None)
      && Doing(b, open, b2, Pending(b) + {ids.body}, {})
      && Sane(b2) && b2.loops == b.loops && b2.handlers == b.handlers
  {
    hide TryAt, Free, Doing, Pending;
    TryStarts(b, s, open, continuation, b1, ids);
    HeadDone(b, open, b1, Jump(ids.body), {});
    assert AsSet(Targets(Jump(ids.body))) == {ids.body};
  }

  /** The `else` clause, when the body falls through to it. */
  lemma {:induction false} TryElse(b: Building, s: Statement, open: Open, continuation: Option<BlockId>, b1: Building,
      ids: TryIds, b4: Building, fell: bool)
    requires s.Try? && TryTaken(b, s, continuation, b1, ids) && TryAt(b, s, open, continuation, ids, b4, true, true)
    requires Doing(b, open, b4, Pending(b) + AsSet(ids.handlers)
      + (if fell then {if s.orelse != [] then ids.orelse else ids.join} else {}), {})
    ensures var r := if fell && s.orelse != [] then LayAll(b4, s.orelse, Open(ids.orelse, []), Some(ids.join))
      else Laid(b4, None);
      r.Laid? ==>
        TryAt(b, s, open, continuation, ids, r.b, false, true)
        && Doing(b, open, r.b, Pending(b) + AsSet(ids.handlers) + {ids.join}, {ids.join})
    decreases Size(s), 0, 0
  {
    hide Built, Doing, Fits, TryTaken, TryAt, Sane, Known, Pending, Grows;
    var pending := Pending(b) + AsSet(ids.handlers) + {ids.join};
    TryNames(b, s, continuation, b1, ids);
    if fell && s.orelse != [] {
      ElseFits(b, s, open, continuation, ids, b4);
      BuiltAll(b4, s.orelse, Open(ids.orelse, []), Some(ids.join));
      var r := LayAll(b4, s.orelse, Open(ids.orelse, []), Some(ids.join));
      if r.Laid? {
        SamePending(b, b4);
        DoingOn(b, open, b4, Pending(b) + AsSet(ids.handlers) + {ids.orelse}, {}, Open(ids.orelse, []), ids.join, r.b,
          pending, {ids.join});
        BuiltGrows(b4, Open(ids.orelse, []), Some(ids.join), r.b, None);
        TryGoesOn(b, s, open, continuation, ids, b4, r.b, {ids.orelse}, true, true, false, true);
      }
    } else {
      DoingMore(b, open, b4, Pending(b) + AsSet(ids.handlers)
        + (if fell then {if s.orelse != [] then ids.orelse else ids.join} else {}), {}, pending, {ids.join});
      SelfGrows(b, s, open, continuation, ids, b4);
      TryGoesOn(b, s, open, continuation, ids, b4, b4, {}, true, true, false, true);
    }
  }

  lemma SelfGrows(b: Building, s: Statement, open: Open, continuation: Option<BlockId>, ids: TryIds, b4: Building)
    requires s.Try? && TryAt(b, s, open, continuation, ids, b4, true, true)
    ensures Grows(b4, b4, {}) && b4.loops == b.loops && b4.handlers == b.handlers
  {
  }

  lemma ElseFits(b: Building, s: Statement, open: Open, continuation: Option<BlockId>, ids: TryIds, b4: Building)
    requires s.Try? && TryAt(b, s, open, continuation, ids, b4, true, true) && s.orelse != [] && ids.orelse != ids.join
    requires ids.join == ids.final && (s.finalbody == [] ==> ids.final == ids.after)
    ensures Fits(b4, Open(ids.orelse, []), Some(ids.join)) && b4.loops == b.loops && b4.handlers == b.handlers
  {
  }

  /** The handlers and the `finally` clause. */
  lemma {:induction false} TryRest(b: Building, s: Statement, open: Open, continuation: Option<BlockId>, b1: Building,
      ids: TryIds, b5: Building)
    requires s.Try? && Ready(b, open) && TryTaken(b, s, continuation, b1, ids)
      && TryAt(b, s, open, continuation, ids, b5, false, true)
    requires Doing(b, open, b5, Pending(b) + AsSet(ids.handlers) + {ids.join}, {ids.join})
    ensures var r5 := LayHandlers(b5, s.handlers, ids.handlers, |s.handlers|, ids.join);
      var r6 := if r5.Failed? then r5 else if s.finalbody != []
        then LayAll(r5.b, s.finalbody, Open(ids.final, []), Some(ids.after)) else r5;
      r6.Laid? ==> Built(b, open, continuation, r6.b, if continuation.Some? then None else Some(Open(ids.after, [])))
    decreases Size(s), 0, 0
  {
    hide Built, Doing, Fits, TryTaken, TryAt, HandlersDone, Sane, Known, Pending, Grows, Free, GoesOn;
    TryNames(b, s, continuation, b1, ids);
    HandlersReady(b, s, open, continuation, b1, ids, b5);
    BuiltHandlers(b5, s.handlers, ids.handlers, |s.handlers|, ids.join);
    var r5 := LayHandlers(b5, s.handlers, ids.handlers, |s.handlers|, ids.join);
    if r5.Laid? {
      HandlersOn(b, open, b5, ids.handlers, ids.join, r5.b);
      HandlersGrow(b5, r5.b, ids.handlers, ids.join);
      TryGoesOn(b, s, open, continuation, ids, b5, r5.b, AsSet(ids.handlers), false, true, false, false);
      if s.finalbody != [] {
        FinalFits(b, s, open, continuation, ids, r5.b);
        BuiltAll(r5.b, s.finalbody, Open(ids.final, []), Some(ids.after));
        var r6 := LayAll(r5.b, s.finalbody, Open(ids.final, []), Some(ids.after));
        if r6.Laid? {
          SamePending(b, r5.b);
          DoingOn(b, open, r5.b, Pending(b) + {ids.join}, {ids.join}, Open(ids.final, []), ids.after, r6.b,
            Pending(b) + {ids.after}, {ids.after});
          BuiltGrows(r5.b, Open(ids.final, []), Some(ids.after), r6.b, None);
          AfterIsFree(b, s, open, continuation, b1, ids, r5.b, {ids.final}, r6.b);
          DoingDone(b, open, r6.b, ids.after, continuation);
        }
      } else {
        RestGrows(b, s, open, continuation, ids, r5.b);
        AfterIsFree(b, s, open, continuation, b1, ids, r5.b, {}, r5.b);
        DoingDone(b, open, r5.b, ids.after, continuation);
      }
    }
  }

  lemma HandlersReady(b: Building, s: Statement, open: Open, continuation: Option<BlockId>, b1: Building, ids: TryIds,
      b5: Building)
    requires s.Try? && TryTaken(b, s, continuation, b1, ids) && TryAt(b, s, open, continuation, ids, b5, false, true)
    ensures Sane(b5) && b5.loops == b.loops && b5.handlers == b.handlers && |ids.handlers| == |s.handlers|
    ensures forall i :: 0 <= i < |ids.handlers| ==> Free(b5, ids.handlers[i])
    ensures GoesOn(b5, ids.join, ExceptionTargets(b5)) && ids.final == ids.join
      && (s.finalbody == [] ==> ids.join == ids.after)
  {
  }

  lemma HandlersGrow(b: Building, b': Building, ids: seq<BlockId>, join: BlockId)
    requires HandlersDone(b, b', ids, |ids|, join)
    ensures Grows(b, b', AsSet(ids)) && b'.loops == b.loops && b'.handlers == b.handlers
  {
    assert ids[..|ids|] == ids;
  }

  lemma FinalFits(b: Building, s: Statement, open: Open, continuation: Option<BlockId>, ids: TryIds, b5: Building)
    requires s.Try? && TryAt(b, s, open, continuation, ids, b5, false, false) && s.finalbody != []
      && ids.final != ids.after
    ensures Fits(b5, Open(ids.final, []), Some(ids.after)) && b5.loops == b.loops && b5.handlers == b.handlers
  {
  }

  lemma RestGrows(b: Building, s: Statement, open: Open, continuation: Option<BlockId>, ids: TryIds, b5: Building)
    requires s.Try? && TryAt(b, s, open, continuation, ids, b5, false, false)
    ensures Grows(b5, b5, {}) && b5.loops == b.loops && b5.handlers == b.handlers
  {
  }

  lemma AfterIsFree(b: Building, s: Statement, open: Open, continuation: Option<BlockId>, b1: Building, ids: TryIds,
      b5: Building, mine: set<BlockId>, b6: Building)
    requires s.Try? && TryTaken(b, s, continuation, b1, ids) && TryAt(b, s, open, continuation, ids, b5, false, false)
      && Grows(b5, b6, mine) && ids.after !in mine
    ensures if continuation.Some? then continuation.value == ids.after
            else !Known(b, ids.after) && Known(b6, ids.after) && ids.after !in b6.blocks
  {
  }

  // ---- whole bodies ----

  ghost predicate BlockComplete(g: Blocks, id: BlockId)
    requires id in g
  {
    && g[id].id == id
    && (forall t :: t in Targets(g[id].terminator) ==> t in g)
    && (forall t :: t in g[id].exceptionTargets ==> t in g)
    && (!g[id].terminator.Jump? ==> forall t :: t in Targets(g[id].terminator) && t in g ==>
      t != id && g[t].exceptionTargets == g[id].exceptionTargets)
  }

  /** The graph leads nowhere outside itself, and both targets of a branch are other blocks that
      carry the handlers of the branching block. */
  ghost predicate Complete(g: Blocks) {
    ENTRY in g && forall id {:trigger BlockComplete(g, id)} {:trigger g[id]} :: id in g ==> BlockComplete(g, id)
  }

  lemma BodyComplete(body: seq<Statement>)
    ensures LayBody(body).Laid? ==> Complete(LayBody(body).b.blocks)
  {
    hide Known, Edges, Branches;
    var b := Building(map[], map[], [], []);
    var open := Open(ENTRY, []);
    StartFits();
    BuiltAll(b, body, open, None);
    var r := LayAll(b, body, open, None);
    if r.Laid? {
      assert Pending(b) == {};
      var b' := if r.out.Some? then Finished(r.b, r.out.value, Leave(None)) else r.b;
      if r.out.Some? {
        FinishedAdds(r.b, r.out.value, Leave(None), {}, {});
        AddsOn(b, r.b, b', {ENTRY}, {}, [], {}, {ENTRY}, Pending(b) + Ends(r.out, None), Ends(r.out, None),
          {r.out.value.id}, {}, [], {});
      } else {
        assert Ends(r.out, None) == {} && Pending(b) + {} == {};
      }
      AllComplete(b, b');
    }
  }

  lemma StartFits()
    ensures Fits(Building(map[], map[], [], []), Open(ENTRY, []), None)
  {
  }

  lemma AllComplete(b: Building, b': Building)
    requires b.blocks == map[] && Adds(b, b', {ENTRY}, {}, [], {}) && ENTRY in b'.blocks
    ensures Complete(b'.blocks)
  {
    forall id | id in b'.blocks ensures BlockComplete(b'.blocks, id) {
      assert IsNew(b, b', id);
    }
  }

  // ---- when the layout fails ----

  lemma {:induction false} StraysJoin(a: seq<Statement>, c: seq<Statement>, inLoop: bool)
    ensures StraysAll(a + c, inLoop) <==> StraysAll(a, inLoop) || StraysAll(c, inLoop)
    decreases |c|
  {
    if c == [] {
      assert a + c == a;
    } else {
      assert (a + c)[..|a + c| - 1] == a + c[..|c| - 1];
      StraysJoin(a, c[..|c| - 1], inLoop);
    }
  }

  lemma StraysOne(s: Statement, inLoop: bool)
    ensures StraysAll([s], inLoop) <==> Strays(s, inLoop)
  {
    assert [s][..0] == [];
  }

  lemma StraysInside(s: Statement)
    requires s.While?
    ensures StraysAll(Inside(s), true) <==>
      StraysAll(s.setup, true) || StraysAll(s.orelse, true) || StraysAll(s.body, true)
  {
    StraysJoin(s.setup + [Stop(s)], s.body, true);
    StraysJoin(s.setup, [Stop(s)], true);
    StraysOne(Stop(s), true);
    StraysJoin(s.orelse, [Break], true);
    StraysOne(Break, true);
  }

  /** The layout fails exactly when a break or continue stands outside any loop. */
  lemma {:induction false} FailsStatement(b: Building, s: Statement, open: Open, continuation: Option<BlockId>)
    ensures LayStatement(b, s, open, continuation).Failed? <==> Strays(s, b.loops != [])
    decreases Size(s), 1
  {
    match s {
      case If(_, _, _) => FailsIf(b, s, open, continuation);
      case While(setup, _, _, _) =>
        if setup == [] {
          FailsLoop(b, s, open, continuation);
        } else {
          RewrittenSmaller(s);
          FailsLoop(b, Rewritten(s), open, continuation);
          StraysInside(s);
        }
      case For(_, _, _, _) => FailsLoop(b, s, open, continuation);
      case With(contexts, body) => FailsAll(b, body, Appended(open, Enters(contexts)), None);
      case Try(_, _, _, _) => FailsTry(b, s, open, continuation);
      case _ =>
    }
  }

  lemma {:induction false} FailsAll(b: Building, statements: seq<Statement>, open: Open, continuation: Option<BlockId>)
    ensures LayAll(b, statements, open, continuation).Failed? <==> StraysAll(statements, b.loops != [])
    decreases SizeAll(statements), |statements| + 3
  {
    FailsUpTo(b, statements, |statements|, open, continuation);
    assert statements[..|statements|] == statements;
  }

  lemma {:induction false} FailsUpTo(b: Building, statements: seq<Statement>, k: nat, open: Open,
      continuation: Option<BlockId>)
    requires k <= |statements|
    ensures LayUpTo(b, statements, k, open, continuation).Failed? <==> StraysAll(statements[..k], b.loops != [])
    decreases SizeAll(statements), k + 2
  {
    if k > 0 {
      FailsUpTo(b, statements, k - 1, open, continuation);
      assert statements[..k][..k - 1] == statements[..k - 1];
      var r := LayUpTo(b, statements, k - 1, open, continuation);
      if r.Laid? {
        FailsStatement(r.b, statements[k - 1], r.out.value, if k == |statements| then continuation else None);
      }
    }
  }

  lemma {:induction false} FailsIf(b: Building, s: Statement, open: Open, continuation: Option<BlockId>)
    requires s.If?
    ensures LayIf(b, s, open, continuation).Failed? <==> Strays(s, b.loops != [])
    decreases Size(s), 0
  {
    hide TakeIfIds;
    var (b1, ids) := TakeIfIds(b, s, continuation);
    SameLoops(b, s, continuation);
    var b2 := Finished(b1, open, Branch(s.condition, ids.thenBlock, ids.elseBlock));
    FailsAll(b2, s.body, Open(ids.thenBlock, []), Some(ids.merge));
    var r := LayAll(b2, s.body, Open(ids.thenBlock, []), Some(ids.merge));
    if r.Laid? && s.orelse != [] {
      FailsAll(r.b, s.orelse, Open(ids.elseBlock, []), Some(ids.merge));
    }
  }

  lemma SameLoops(b: Building, s: Statement, continuation: Option<BlockId>)
    ensures s.If? ==>
      TakeIfIds(b, s, continuation).0.loops == b.loops && TakeIfIds(b, s, continuation).0.handlers == b.handlers
    ensures s.While? || s.For? ==>
      TakeLoopIds(b, s, continuation).0.loops == b.loops && TakeLoopIds(b, s, continuation).0.handlers == b.handlers
    ensures s.Try? ==>
      TakeTryIds(b, s, continuation).0.loops == b.loops && TakeTryIds(b, s, continuation).0.handlers == b.handlers
      && |TakeTryIds(b, s, continuation).1.handlers| == |s.handlers|
  {
    if s.Try? {
      NextIdsLength(Counted(b, "try"), "handler", |s.handlers|);
    }
  }

  lemma {:induction false} FailsLoop(b: Building, s: Statement, open: Open, continuation: Option<BlockId>)
    requires s.For? || (s.While? && s.setup == [])
    ensures LayLoop(b, s, open, continuation).Failed? <==> Strays(s, b.loops != [])
    decreases Size(s), 0
  {
    hide TakeLoopIds;
    var (b1, ids) := TakeLoopIds(b, s, continuation);
    SameLoops(b, s, continuation);
    var b2 := LoopHead(b1, s, open, ids);
    var inner := b2.(loops := b.loops + [(ids.header, ids.after)]);
    FailsAll(inner, s.body, Open(ids.body, []), Some(ids.header));
    var r := LayAll(inner, s.body, Open(ids.body, []), Some(ids.header));
    if r.Laid? && s.orelse != [] {
      FailsAll(r.b.(loops := b.loops), s.orelse, Open(ids.exit, []), Some(ids.after));
    }
  }

  lemma {:induction false} FailsTry(b: Building, s: Statement, open: Open, continuation: Option<BlockId>)
    requires s.Try?
    ensures LayTry(b, s, open, continuation).Failed? <==> Strays(s, b.loops != [])
    decreases Size(s), 0
  {
    hide TakeTryIds;
    var (b1, ids) := TakeTryIds(b, s, continuation);
    SameLoops(b, s, continuation);
    var b2 := Finished(b1, open, Jump(ids.body));
    var inner := b2.(handlers := b.handlers + [ids.handlers]);
    FailsAll(inner, s.body, Open(ids.body, []), None);
    var r := LayAll(inner, s.body, Open(ids.body, []), None);
    if r.Laid? {
      var b3 := if r.out.Some? then Finished(r.b, r.out.value, Jump(if s.orelse != [] then ids.orelse else ids.join))
        else r.b;
      var b4 := b3.(handlers := b.handlers);
      FailsAll(b4, s.orelse, Open(ids.orelse, []), Some(ids.join));
      var r4 := if r.out.Some? && s.orelse != [] then LayAll(b4, s.orelse, Open(ids.orelse, []), Some(ids.join))
        else Laid(b4, None);
      if r4.Laid? {
        FailsHandlers(r4.b, s.handlers, ids.handlers, |s.handlers|, ids.join);
        assert s.handlers[..|s.handlers|] == s.handlers;
        var r5 := LayHandlers(r4.b, s.handlers, ids.handlers, |s.handlers|, ids.join);
        if r5.Laid? && s.finalbody != [] {
          FailsAll(r5.b, s.finalbody, Open(ids.final, []), Some(ids.after));
        }
      }
    }
  }

  lemma {:induction false} FailsHandlers(b: Building, handlers: seq<Handler>, ids: seq<BlockId>, k: nat, join: BlockId)
    requires k <= |handlers| == |ids|
    ensures LayHandlers(b, handlers, ids, k, join).Failed? <==> StraysHandlers(handlers[..k], b.loops != [])
    decreases SizeHandlers(handlers), k
  {
    if k > 0 {
      FailsHandlers(b, handlers, ids, k - 1, join);
      assert handlers[..k][..k - 1] == handlers[..k - 1];
      var r := LayHandlers(b, handlers, ids, k - 1, join);
      if r.Laid? {
        FailsAll(r.b, handlers[k - 1].body, Open(ids[k - 1], [EnterHandler(handlers[k - 1].name)]), Some(join));
      }
    }
  }

  lemma BodyFails(body: seq<Statement>)
    ensures LayBody(body).Failed? <==> StraysAll(body, false)
  {
    FailsAll(Building(map[], map[], [], []), body, Open(ENTRY, []), None);
  }
}
