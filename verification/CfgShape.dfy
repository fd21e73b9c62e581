/** What it is for a control-flow graph to hold some statements: where their blocks stand, what each
    holds, where it leads, and which handlers an exception in it goes to. How the blocks are made
    plays no part. */
module CfgShape {
  import opened Options
  import opened Structured
  import opened Layout

  /** A block and how many of its items come before. */
  type Place = (BlockId, nat)

  /** The header of each loop around and the block after it, and the handlers of the innermost `try`
      around. */
  datatype Around = Around(loops: seq<(BlockId, BlockId)>, handlers: seq<BlockId>)

  /** The item stands at the place, in a block whose exceptions go to the handlers around. */
  ghost predicate HasItem(g: Blocks, p: Place, item: Item, a: Around) {
    && p.0 in g && g[p.0].exceptionTargets == a.handlers
    && p.1 < |g[p.0].items| && g[p.0].items[p.1] == item
  }

  /** The block ends at the place, and its exceptions go to the handlers around. */
  ghost predicate EndsIn(g: Blocks, p: Place, t: Exit, a: Around) {
    && p.0 in g && g[p.0].exceptionTargets == a.handlers
    && p.1 == |g[p.0].items| && g[p.0].terminator == t
  }

  ghost predicate Holds(g: Blocks, s: Statement, p: Place, exit: Option<Place>, a: Around)
    decreases Size(s), 2
  {
    match s
    case Simple(text) => HasItem(g, p, Plain(text), a) && exit == Some((p.0, p.1 + 1))
    case Return(v) => EndsIn(g, p, Leave(v), a) && exit == None
    case Raise(e) => EndsIn(g, p, Throw(e), a) && exit == None
    case Break => a.loops != [] && EndsIn(g, p, Jump(a.loops[|a.loops| - 1].1), a) && exit == None
    case Continue => a.loops != [] && EndsIn(g, p, Jump(a.loops[|a.loops| - 1].0), a) && exit == None
    case If(_, _, _) => exit.Some? && HoldsIf(g, s, p, exit.value, a)
    case While(setup, _, _, _) =>
      exit.Some? && (if setup == [] then HoldsLoop(g, s, p, exit.value, a)
                     else (RewrittenSmaller(s); HoldsLoop(g, Rewritten(s), p, exit.value, a)))
    case For(_, _, _, _) => exit.Some? && HoldsLoop(g, s, p, exit.value, a)
    case With(_, _) => HoldsWith(g, s, p, exit, a)
    case Try(_, _, _, _) => exit.Some? && HoldsTry(g, s, p, exit.value, a)
  }

  /** A branch to the two clauses, which meet at `q`. */
  ghost predicate HoldsIf(g: Blocks, s: Statement, p: Place, q: Place, a: Around)
    requires s.If?
    decreases Size(s), 1
  {
    && p.0 in g && g[p.0].terminator.Branch?
    && var t := g[p.0].terminator;
    && EndsIn(g, p, Branch(s.condition, t.thenBlock, t.elseBlock), a)
    && HoldsTo(g, s.body, (t.thenBlock, 0), q, a) && HoldsTo(g, s.orelse, (t.elseBlock, 0), q, a)
  }

  /** The header of a loop with its body and the way out of it. */
  ghost predicate IsHeader(g: Blocks, s: Statement, h: BlockId, body: BlockId, out: BlockId, a: Around)
    requires s.While? || s.For?
  {
    EndsIn(g, (h, 0), if s.While? then Branch(s.condition, body, out) else ForEach(s.target, s.iterable, body, out), a)
  }

  /** A jump to a header, from which the body goes round and the `else` clause leads on to `q`; a
      break goes to `q` at once. */
  ghost predicate HoldsLoop(g: Blocks, s: Statement, p: Place, q: Place, a: Around)
    requires s.For? || (s.While? && s.setup == [])
    decreases Size(s), 1
  {
    && q.1 == 0 && p.0 in g && g[p.0].terminator.Jump?
    && var h := g[p.0].terminator.target;
    && EndsIn(g, p, Jump(h), a)
    && exists body, out ::
         IsHeader(g, s, h, body, out, a)
         && HoldsTo(g, s.body, (body, 0), (h, 0), a.(loops := a.loops + [(h, q.0)]))
         && HoldsTo(g, s.orelse, (out, 0), q, a)
  }

  /** The contexts are entered in order and left in the opposite one. */
  ghost predicate HoldsWith(g: Blocks, s: Statement, p: Place, exit: Option<Place>, a: Around)
    requires s.With?
    decreases Size(s), 1
  {
    var n := |s.contexts|;
    && (forall i {:trigger s.contexts[i]} :: 0 <= i < n ==> HasItem(g, (p.0, p.1 + i), EnterWith(s.contexts[i]), a))
    && exists e: Option<Place> ::
         HoldsUpTo(g, s.body, |s.body|, (p.0, p.1 + n), e, a) && LeavesContexts(g, s.contexts, e, exit, a)
  }

  ghost predicate LeavesContexts(g: Blocks, contexts: seq<string>, e: Option<Place>, exit: Option<Place>, a: Around) {
    var n := |contexts|;
    if e.None? then exit == None
    else
      && exit == Some((e.value.0, e.value.1 + n))
      && forall i {:trigger contexts[i]} :: 0 <= i < n ==>
           HasItem(g, (e.value.0, e.value.1 + (n - 1 - i)), ExitWith(contexts[i]), a)
  }

  /** A jump into the body, whose exceptions go to a block for each handler, in order; those, and the
      body through the `else` clause, go on to `join`, and the `finally` clause from there to `q`. */
  ghost predicate HoldsTry(g: Blocks, s: Statement, p: Place, q: Place, a: Around)
    requires s.Try?
    decreases Size(s), 1
  {
    && p.0 in g && g[p.0].terminator.Jump?
    && var t := g[p.0].terminator.target;
    && EndsIn(g, p, Jump(t), a) && t in g
    && var hs := g[t].exceptionTargets;
    && exists join: Place ::
         HoldsBody(g, s, t, join, a, hs) && HoldsHandlers(g, s, hs, join, a) && HoldsTo(g, s.finalbody, join, q, a)
  }

  /** The body of a `try`, and the `else` clause if the body falls through. */
  ghost predicate HoldsBody(g: Blocks, s: Statement, t: BlockId, join: Place, a: Around, hs: seq<BlockId>)
    requires s.Try?
    decreases Size(s), 0
  {
    var inside := a.(handlers := hs);
    exists e: Option<Place> ::
      HoldsUpTo(g, s.body, |s.body|, (t, 0), e, inside)
      && (e.Some? ==>
            && e.value.0 in g && g[e.value.0].terminator.Jump?
            && EndsIn(g, e.value, Jump(g[e.value.0].terminator.target), inside)
            && HoldsTo(g, s.orelse, (g[e.value.0].terminator.target, 0), join, a))
  }

  /** A block for each handler, which enters it and then does what it says. */
  ghost predicate HoldsHandlers(g: Blocks, s: Statement, hs: seq<BlockId>, join: Place, a: Around)
    requires s.Try?
    decreases Size(s), 0
  {
    && |hs| == |s.handlers|
    && (forall i, j :: 0 <= i < j < |hs| ==> hs[i] != hs[j])
    && forall i {:trigger hs[i]} :: 0 <= i < |hs| ==>
         && HasItem(g, (hs[i], 0), EnterHandler(s.handlers[i].name), a)
         && HoldsTo(g, s.handlers[i].body, (hs[i], 1), join, a)
  }

  /** The first `k` statements, one after the other; what follows a statement that leaves starts a
      block of its own. */
  ghost predicate HoldsUpTo(g: Blocks, statements: seq<Statement>, k: nat, p: Place, e: Option<Place>, a: Around)
    requires k <= |statements|
    decreases SizeAll(statements), k + 3
  {
    if k == 0 then e == Some(p)
    else exists m: Option<Place>, q: Place ::
      HoldsUpTo(g, statements, k - 1, p, m, a) && (if m.Some? then q == m.value else q.1 == 0)
      && Holds(g, statements[k - 1], q, e, a)
  }

  /** The statements from `p`, going on at `q` if they fall through. */
  ghost predicate HoldsTo(g: Blocks, statements: seq<Statement>, p: Place, q: Place, a: Around)
    decreases SizeAll(statements), |statements| + 4
  {
    exists e: Option<Place> :: HoldsUpTo(g, statements, |statements|, p, e, a) && Joins(g, e, q, a)
  }

  ghost predicate Joins(g: Blocks, e: Option<Place>, q: Place, a: Around) {
    e.Some? ==> e.value == q || (q.1 == 0 && EndsIn(g, e.value, Jump(q.0), a))
  }

  /** A whole body: it starts at the entry, under no loop and no `try`, and returns nothing if it falls
      through. */
  ghost predicate HoldsAll(g: Blocks, body: seq<Statement>) {
    var a := Around([], []);
    exists e: Option<Place> ::
      HoldsUpTo(g, body, |body|, (ENTRY, 0), e, a) && (e.Some? ==> EndsIn(g, e.value, Leave(None), a))
  }
}
