/** A control-flow graph that holds some statements runs as they do: it ends in the same way, exceptions
    included, and goes on for as long. */
module CfgRuns {
  import opened Options
  import opened Structured
  import opened Layout
  import opened CfgShape

  // ---- running blocks ----

  /** A run stands before an item of a block, or at its end; or it is over. */
  datatype Config<W> = At(id: BlockId, k: nat, world: W) | Over(outcome: Outcome<W>) | Stuck

  /** Whether what comes next raises: an item, or what the end of the block evaluates. */
  function NextRaises<W>(sem: Meaning<W>, block: CfgBlock, k: nat, w: W): Option<(nat, W)> {
    if k < |block.items| then sem.raises(Running(block.items[k]), w)
    else
      match block.terminator
      case Leave(v) => ReturnRaises(sem, v, w)
      case Throw(e) => sem.raises(Raising(e), w)
      case Jump(_) => None
      case Branch(c, _, _) => TestRaises(sem, c, w)
      case ForEach(name, iterable, _, _) => sem.raises(Taking(name, iterable), w)
  }

  /** An exception goes to the block of its handler, or out of the function. */
  function Caught<W>(handlers: seq<BlockId>, i: nat, w: W): Config<W> {
    if i < |handlers| then At(handlers[i], 0, w) else Over(Uncaught(w))
  }

  function Step<W>(sem: Meaning<W>, g: Blocks, c: Config<W>): Config<W> {
    if !c.At? then c
    else if c.id !in g then Stuck
    else
      var raised := NextRaises(sem, g[c.id], c.k, c.world);
      if raised.Some? then Caught(g[c.id].exceptionTargets, raised.value.0, raised.value.1)
      else if c.k < |g[c.id].items| then At(c.id, c.k + 1, sem.exec(g[c.id].items[c.k], c.world))
      else Onward(sem, g[c.id].terminator, c.world)
  }

  function Onward<W>(sem: Meaning<W>, t: Exit, w: W): Config<W> {
    match t
    case Leave(v) => Over(Returned(v, w))
    case Throw(e) => Over(Raised(e, w))
    case Jump(id) => At(id, 0, w)
    case Branch(c, a, b) => var (yes, w') := Test(sem, c, w); At(if yes then a else b, 0, w')
    case ForEach(name, iterable, body, exit) => var (yes, w') := sem.next(name, iterable, w);
      At(if yes then body else exit, 0, w')
  }

  function Steps<W>(sem: Meaning<W>, g: Blocks, c: Config<W>, n: nat): Config<W> {
    if n == 0 then c else Step(sem, g, Steps(sem, g, c, n - 1))
  }

  ghost predicate Reaches<W>(sem: Meaning<W>, g: Blocks, c: Config<W>, d: Config<W>) {
    exists n: nat :: Steps(sem, g, c, n) == d
  }

  /** The run goes on for at least `n` steps. */
  ghost predicate Lasts<W>(sem: Meaning<W>, g: Blocks, c: Config<W>, n: nat) {
    Steps(sem, g, c, n).At?
  }

  lemma {:induction false} StepsAdd<W>(sem: Meaning<W>, g: Blocks, c: Config<W>, m: nat, n: nat)
    ensures Steps(sem, g, c, m + n) == Steps(sem, g, Steps(sem, g, c, m), n)
  {
    if n > 0 {
      StepsAdd(sem, g, c, m, n - 1);
    }
  }

  lemma {:induction false} LastsLess<W>(sem: Meaning<W>, g: Blocks, c: Config<W>, m: nat, n: nat)
    requires n <= m && Lasts(sem, g, c, m)
    ensures Lasts(sem, g, c, n)
  {
    if n < m {
      LastsLess(sem, g, c, m - 1, n);
    }
  }

  lemma ReachesSelf<W>(sem: Meaning<W>, g: Blocks, c: Config<W>)
    ensures Reaches(sem, g, c, c)
  {
    assert Steps(sem, g, c, 0) == c;
  }

  lemma ReachesStep<W>(sem: Meaning<W>, g: Blocks, c: Config<W>)
    ensures Reaches(sem, g, c, Step(sem, g, c))
  {
    assert Steps(sem, g, c, 0) == c;
    assert Steps(sem, g, c, 1) == Step(sem, g, c);
  }

  lemma ReachesOn<W>(sem: Meaning<W>, g: Blocks, c: Config<W>, d: Config<W>, e: Config<W>)
    requires Reaches(sem, g, c, d) && Reaches(sem, g, d, e)
    ensures Reaches(sem, g, c, e)
  {
    var m: nat :| Steps(sem, g, c, m) == d;
    var n: nat :| Steps(sem, g, d, n) == e;
    StepsAdd(sem, g, c, m, n);
  }

  // ---- what the blocks must do ----

  function There<W>(p: Place, w: W): Config<W> {
    At(p.0, p.1, w)
  }

  /** The run from `c` ends as the statements do: it falls to `exit`, leaves the innermost loop, goes to
      a handler of the innermost `try`, is over, or, if the fuel gave out, goes on at least as long. */
  ghost predicate Matches<W>(sem: Meaning<W>, g: Blocks, c: Config<W>, r: Outcome<W>, exit: Option<Place>, a: Around,
      fuel: nat) {
    match r
    case Fell(w) => exit.Some? && Reaches(sem, g, c, There(exit.value, w))
    case Broke(w) => a.loops != [] && Reaches(sem, g, c, At(a.loops[|a.loops| - 1].1, 0, w))
    case Continued(w) => a.loops != [] && Reaches(sem, g, c, At(a.loops[|a.loops| - 1].0, 0, w))
    case Threw(i, w) => Reaches(sem, g, c, Caught(a.handlers, i, w))
    case OutOfFuel => Lasts(sem, g, c, fuel)
    case _ => Reaches(sem, g, c, Over(r))
  }

  lemma MatchesAfter<W>(sem: Meaning<W>, g: Blocks, c: Config<W>, d: Config<W>, r: Outcome<W>, exit: Option<Place>,
      a: Around, fuel: nat)
    requires Reaches(sem, g, c, d) && Matches(sem, g, d, r, exit, a, fuel)
    ensures Matches(sem, g, c, r, exit, a, fuel)
  {
    match r {
      case Fell(w) => ReachesOn(sem, g, c, d, There(exit.value, w));
      case Broke(w) => ReachesOn(sem, g, c, d, At(a.loops[|a.loops| - 1].1, 0, w));
      case Continued(w) => ReachesOn(sem, g, c, d, At(a.loops[|a.loops| - 1].0, 0, w));
      case Threw(i, w) => ReachesOn(sem, g, c, d, Caught(a.handlers, i, w));
      case OutOfFuel =>
        var m: nat :| Steps(sem, g, c, m) == d;
        StepsAdd(sem, g, c, m, fuel);
        LastsLess(sem, g, c, m + fuel, fuel);
      case _ => ReachesOn(sem, g, c, d, Over(r));
    }
  }

  /** One part after another: the second runs if the first falls through. */
  lemma MatchesThen<W>(sem: Meaning<W>, g: Blocks, c: Config<W>, x: Outcome<W>, middle: Option<Place>, y: Outcome<W>,
      exit: Option<Place>, a: Around, fuel: nat)
    requires Matches(sem, g, c, x, middle, a, fuel)
    requires if x.Fell? then Matches(sem, g, There(middle.value, x.world), y, exit, a, fuel) else y == x
    ensures Matches(sem, g, c, y, exit, a, fuel)
  {
    if x.Fell? {
      MatchesAfter(sem, g, c, There(middle.value, x.world), y, exit, a, fuel);
    }
  }

  /** A step that may raise. One step more takes one unit of fuel more. */
  lemma MatchesStep<W>(sem: Meaning<W>, g: Blocks, p: Place, w: W, raised: Option<(nat, W)>, r: Outcome<W>,
      exit: Option<Place>, a: Around, fuel: nat)
    requires p.0 in g && g[p.0].exceptionTargets == a.handlers && NextRaises(sem, g[p.0], p.1, w) == raised
    requires raised.None? ==> Matches(sem, g, Step(sem, g, There(p, w)), r, exit, a, fuel)
    ensures Matches(sem, g, There(p, w), Unless(raised, r), exit, a, fuel)
    ensures Matches(sem, g, There(p, w), Unless(raised, r), exit, a, fuel + 1)
  {
    var c := There(p, w);
    ReachesStep(sem, g, c);
    if raised.None? {
      MatchesAfter(sem, g, c, Step(sem, g, c), r, exit, a, fuel);
      if r.OutOfFuel? {
        assert Steps(sem, g, c, 0) == c;
        assert Steps(sem, g, c, 1) == Step(sem, g, c);
        StepsAdd(sem, g, c, 1, fuel);
      }
    }
  }

  // ---- which statements ----

  /** No loop in the statements has its `else` clause captured by its rewriting. */
  predicate Tame(s: Statement)
    decreases Size(s), 0
  {
    match s
    case If(_, body, orelse) => TameAll(body) && TameAll(orelse)
    case While(setup, _, body, orelse) => TameAll(setup) && TameAll(body) && TameAll(orelse)
      && (setup != [] ==> !Can(s).breaks && !Can(s).continues)
    case For(_, _, body, orelse) => TameAll(body) && TameAll(orelse)
    case With(_, body) => TameAll(body)
    case Try(body, handlers, orelse, finalbody) =>
      TameAll(body) && TameAll(orelse) && TameAll(finalbody)
      && forall i {:trigger handlers[i]} :: 0 <= i < |handlers| ==> TameAll(handlers[i].body)
    case _ => true
  }

  predicate TameAll(statements: seq<Statement>)
    decreases SizeAll(statements), |statements| + 1
  {
    statements != [] ==> TameAll(statements[..|statements| - 1]) && Tame(statements[|statements| - 1])
  }

  lemma {:induction false} TameEach(statements: seq<Statement>, k: nat)
    requires k < |statements| && TameAll(statements)
    ensures Tame(statements[k])
  {
    if k < |statements| - 1 {
      TameEach(statements[..|statements| - 1], k);
    }
  }

  lemma {:induction false} TameJoin(a: seq<Statement>, c: seq<Statement>)
    requires TameAll(a) && TameAll(c)
    ensures TameAll(a + c)
    decreases |c|
  {
    if c == [] {
      assert a + c == a;
    } else {
      assert (a + c)[..|a + c| - 1] == a + c[..|c| - 1];
      TameJoin(a, c[..|c| - 1]);
    }
  }

  lemma TameRewritten(s: Statement)
    requires s.While? && Tame(s)
    ensures Tame(Rewritten(s))
  {
    assert [Break][..0] == [] && [Stop(s)][..0] == [];
    TameJoin(s.orelse, [Break]);
    TameJoin(s.setup, [Stop(s)]);
    TameJoin(s.setup + [Stop(s)], s.body);
  }

  // ---- items ----

  lemma RunsItem<W>(sem: Meaning<W>, g: Blocks, p: Place, item: Item, a: Around, w: W, fuel: nat)
    requires HasItem(g, p, item, a)
    ensures Matches(sem, g, There(p, w), RunItem(sem, item, w), Some((p.0, p.1 + 1)), a, fuel)
  {
    var raised := sem.raises(Running(item), w);
    if raised.None? {
      ReachesSelf(sem, g, Step(sem, g, There(p, w)));
    }
    MatchesStep(sem, g, p, w, raised, Fell(sem.exec(item, w)), Some((p.0, p.1 + 1)), a, fuel);
  }

  /** Entering the first `k` contexts. */
  lemma {:induction false} RunsEnters<W>(sem: Meaning<W>, g: Blocks, contexts: seq<string>, k: nat, p: Place, a: Around,
      w: W, fuel: nat)
    requires k <= |contexts|
    requires forall i {:trigger contexts[i]} :: 0 <= i < |contexts| ==>
      HasItem(g, (p.0, p.1 + i), EnterWith(contexts[i]), a)
    ensures Matches(sem, g, There(p, w), EnterAll(sem, contexts[..k], w), Some((p.0, p.1 + k)), a, fuel)
  {
    hide HasItem, Matches;
    if k == 0 {
      FallsHere(sem, g, p, w, a, fuel);
    } else {
      RunsEnters(sem, g, contexts, k - 1, p, a, w, fuel);
      assert contexts[..k][..k - 1] == contexts[..k - 1];
      var r := EnterAll(sem, contexts[..k - 1], w);
      var q := (p.0, p.1 + (k - 1));
      if r.Fell? {
        RunsItem(sem, g, q, EnterWith(contexts[k - 1]), a, r.world, fuel);
      }
      MatchesThen(sem, g, There(p, w), r, Some(q), EnterAll(sem, contexts[..k], w), Some((p.0, p.1 + k)), a, fuel);
    }
  }

  lemma FallsHere<W>(sem: Meaning<W>, g: Blocks, p: Place, w: W, a: Around, fuel: nat)
    ensures Matches(sem, g, There(p, w), Fell(w), Some(p), a, fuel)
  {
    ReachesSelf(sem, g, There(p, w));
  }

  /** Leaving the contexts from `k` on. */
  lemma {:induction false} RunsExits<W>(sem: Meaning<W>, g: Blocks, contexts: seq<string>, k: nat, p: Place, a: Around,
      w: W, fuel: nat)
    requires k <= |contexts|
    requires forall i {:trigger contexts[i]} :: 0 <= i < |contexts| ==>
      HasItem(g, (p.0, p.1 + (|contexts| - 1 - i)), ExitWith(contexts[i]), a)
    ensures Matches(sem, g, There(p, w), ExitAll(sem, contexts[k..], w), Some((p.0, p.1 + (|contexts| - k))), a, fuel)
    decreases |contexts| - k
  {
    hide HasItem, Matches;
    if k == |contexts| {
      FallsHere(sem, g, p, w, a, fuel);
    } else {
      RunsExits(sem, g, contexts, k + 1, p, a, w, fuel);
      assert contexts[k..][1..] == contexts[k + 1..];
      var r := ExitAll(sem, contexts[k + 1..], w);
      var q := (p.0, p.1 + (|contexts| - 1 - k));
      if r.Fell? {
        RunsItem(sem, g, q, ExitWith(contexts[k]), a, r.world, fuel);
      }
      MatchesThen(sem, g, There(p, w), r, Some(q), ExitAll(sem, contexts[k..], w),
        Some((p.0, p.1 + (|contexts| - k))), a, fuel);
    }
  }

  // ---- the graph does what the statements do ----

  lemma {:induction false} RunsUpTo<W>(sem: Meaning<W>, g: Blocks, statements: seq<Statement>, k: nat, p: Place,
      e: Option<Place>, a: Around, w: W, fuel: nat)
    requires k <= |statements| && TameAll(statements) && HoldsUpTo(g, statements, k, p, e, a)
    ensures Matches(sem, g, There(p, w), ExecUpTo(sem, statements, k, w, fuel), e, a, fuel)
    decreases fuel, SizeAll(statements), k + 4
  {
    hide Matches, Tame, Holds, TameAll;
    if k == 0 {
      FallsHere(sem, g, p, w, a, fuel);
    } else {
      var m: Option<Place>, q: Place :| HoldsUpTo(g, statements, k - 1, p, m, a)
        && (if m.Some? then q == m.value else q.1 == 0) && Holds(g, statements[k - 1], q, e, a);
      RunsUpTo(sem, g, statements, k - 1, p, m, a, w, fuel);
      var x := ExecUpTo(sem, statements, k - 1, w, fuel);
      if x.Fell? {
        FellSomewhere(sem, g, There(p, w), x, m, a, fuel);
        TameEach(statements, k - 1);
        RunsStatement(sem, g, statements[k - 1], q, e, a, x.world, fuel);
      }
      MatchesThen(sem, g, There(p, w), x, m, ExecUpTo(sem, statements, k, w, fuel), e, a, fuel);
    }
  }

  lemma FellSomewhere<W>(sem: Meaning<W>, g: Blocks, c: Config<W>, x: Outcome<W>, m: Option<Place>, a: Around, fuel: nat)
    requires Matches(sem, g, c, x, m, a, fuel) && x.Fell?
    ensures m.Some?
  {
  }

  lemma {:induction false} RunsTo<W>(sem: Meaning<W>, g: Blocks, statements: seq<Statement>, p: Place, q: Place,
      a: Around, w: W, fuel: nat)
    requires TameAll(statements) && HoldsTo(g, statements, p, q, a)
    ensures Matches(sem, g, There(p, w), ExecAll(sem, statements, w, fuel), Some(q), a, fuel)
    decreases fuel, SizeAll(statements), |statements| + 5
  {
    hide Matches, Tame, TameAll, HoldsUpTo;
    var e: Option<Place> :| HoldsUpTo(g, statements, |statements|, p, e, a) && Joins(g, e, q, a);
    RunsUpTo(sem, g, statements, |statements|, p, e, a, w, fuel);
    var x := ExecAll(sem, statements, w, fuel);
    if x.Fell? {
      FellSomewhere(sem, g, There(p, w), x, e, a, fuel);
      JoinRuns(sem, g, e.value, q, a, x.world, fuel);
    }
    MatchesThen(sem, g, There(p, w), x, e, x, Some(q), a, fuel);
  }

  lemma JoinRuns<W>(sem: Meaning<W>, g: Blocks, p: Place, q: Place, a: Around, w: W, fuel: nat)
    requires Joins(g, Some(p), q, a)
    ensures Matches(sem, g, There(p, w), Fell(w), Some(q), a, fuel)
  {
    FallsHere(sem, g, q, w, a, fuel);
    if p != q {
      MatchesStep(sem, g, p, w, None, Fell(w), Some(q), a, fuel);
    }
  }

  lemma {:induction false} RunsStatement<W>(sem: Meaning<W>, g: Blocks, s: Statement, p: Place, exit: Option<Place>,
      a: Around, w: W, fuel: nat)
    requires Tame(s) && Holds(g, s, p, exit, a)
    ensures Matches(sem, g, There(p, w), Exec(sem, s, w, fuel), exit, a, fuel)
    decreases fuel, Size(s), 3
  {
    hide HoldsIf, HoldsLoop, HoldsWith, HoldsTry;
    match s {
      case Simple(text) => RunsItem(sem, g, p, Plain(text), a, w, fuel);
      case If(_, _, _) => RunsIf(sem, g, s, p, exit.value, a, w, fuel);
      case While(setup, _, _, _) =>
        if setup == [] {
          RunsLoop(sem, g, s, p, exit.value, a, w, fuel);
        } else {
          RewrittenSmaller(s);
          TameRewritten(s);
          RunsLoop(sem, g, Rewritten(s), p, exit.value, a, w, fuel);
          RewritingKeepsMeaning(sem, s, w, fuel);
        }
      case For(_, _, _, _) => RunsLoop(sem, g, s, p, exit.value, a, w, fuel);
      case With(_, _) => RunsWith(sem, g, s, p, exit, a, w, fuel);
      case Try(_, _, _, _) => RunsTry(sem, g, s, p, exit.value, a, w, fuel);
      case _ => RunsLeave(sem, g, s, p, exit, a, w, fuel);
    }
  }

  /** Statements that end their block. */
  lemma RunsLeave<W>(sem: Meaning<W>, g: Blocks, s: Statement, p: Place, exit: Option<Place>, a: Around, w: W, fuel: nat)
    requires (s.Return? || s.Raise? || s.Break? || s.Continue?) && Holds(g, s, p, exit, a)
    ensures Matches(sem, g, There(p, w), Exec(sem, s, w, fuel), exit, a, fuel)
  {
    var raised := NextRaises(sem, g[p.0], p.1, w);
    var r := match s
      case Return(v) => Returned(v, w)
      case Raise(e) => Raised(e, w)
      case Break => Broke(w)
      case _ => Continued(w);
    if raised.None? {
      ReachesSelf(sem, g, Step(sem, g, There(p, w)));
    }
    MatchesStep(sem, g, p, w, raised, r, exit, a, fuel);
  }

  lemma {:induction false} RunsIf<W>(sem: Meaning<W>, g: Blocks, s: Statement, p: Place, q: Place, a: Around, w: W,
      fuel: nat)
    requires s.If? && Tame(s) && HoldsIf(g, s, p, q, a)
    ensures Matches(sem, g, There(p, w), Exec(sem, s, w, fuel), Some(q), a, fuel)
    decreases fuel, Size(s), 2
  {
    hide Matches, HoldsTo, TameAll;
    var t := g[p.0].terminator;
    var (yes, w') := Test(sem, s.condition, w);
    var r := if yes then ExecAll(sem, s.body, w', fuel) else ExecAll(sem, s.orelse, w', fuel);
    if yes {
      RunsTo(sem, g, s.body, (t.thenBlock, 0), q, a, w', fuel);
    } else {
      RunsTo(sem, g, s.orelse, (t.elseBlock, 0), q, a, w', fuel);
    }
    MatchesStep(sem, g, p, w, TestRaises(sem, s.condition, w), r, Some(q), a, fuel);
  }

  lemma {:induction false} RunsWith<W>(sem: Meaning<W>, g: Blocks, s: Statement, p: Place, exit: Option<Place>, a: Around,
      w: W, fuel: nat)
    requires s.With? && Tame(s) && HoldsWith(g, s, p, exit, a)
    ensures Matches(sem, g, There(p, w), Exec(sem, s, w, fuel), exit, a, fuel)
    decreases fuel, Size(s), 2
  {
    hide Matches, HoldsUpTo, TameAll, HasItem;
    var n := |s.contexts|;
    var e: Option<Place> :|
      HoldsUpTo(g, s.body, |s.body|, (p.0, p.1 + n), e, a) && LeavesContexts(g, s.contexts, e, exit, a);
    RunsEnters(sem, g, s.contexts, n, p, a, w, fuel);
    assert s.contexts[..n] == s.contexts && s.contexts[0..] == s.contexts;
    var x := EnterAll(sem, s.contexts, w);
    if x.Fell? {
      RunsUpTo(sem, g, s.body, |s.body|, (p.0, p.1 + n), e, a, x.world, fuel);
      var y := ExecAll(sem, s.body, x.world, fuel);
      if y.Fell? {
        FellSomewhere(sem, g, There((p.0, p.1 + n), x.world), y, e, a, fuel);
        RunsExits(sem, g, s.contexts, 0, e.value, a, y.world, fuel);
      }
      MatchesThen(sem, g, There((p.0, p.1 + n), x.world), y, e, Exec(sem, s, w, fuel), exit, a, fuel);
    }
    MatchesThen(sem, g, There(p, w), x, Some((p.0, p.1 + n)), Exec(sem, s, w, fuel), exit, a, fuel);
  }

  // ---- loops ----

  /** The parts of a loop, named. */
  ghost predicate LoopAt(g: Blocks, s: Statement, h: BlockId, body: BlockId, out: BlockId, q: Place, a: Around)
    requires s.For? || (s.While? && s.setup == [])
  {
    && q.1 == 0 && IsHeader(g, s, h, body, out, a)
    && HoldsTo(g, s.body, (body, 0), (h, 0), a.(loops := a.loops + [(h, q.0)]))
    && HoldsTo(g, s.orelse, (out, 0), q, a)
  }

  /** One turn of the body, and what follows it. */
  lemma {:induction false} LoopTurn<W>(sem: Meaning<W>, g: Blocks, s: Statement, h: BlockId, body: BlockId, out: BlockId,
      q: Place, a: Around, w: W, fuel: nat)
    requires (s.For? || (s.While? && s.setup == [])) && LoopAt(g, s, h, body, out, q, a) && Tame(s) && fuel > 0
    ensures Matches(sem, g, At(body, 0, w), Again(sem, s, ExecAll(sem, s.body, w, fuel - 1), fuel), Some(q), a, fuel - 1)
    decreases fuel, Size(s), 0
  {
    hide Reaches, Lasts, HoldsTo, TameAll;
    var inner := a.(loops := a.loops + [(h, q.0)]);
    RunsTo(sem, g, s.body, (body, 0), (h, 0), inner, w, fuel - 1);
    var x := ExecAll(sem, s.body, w, fuel - 1);
    if x.Fell? || x.Continued? {
      LoopRuns(sem, g, s, h, body, out, q, a, x.world, fuel - 1);
      MatchesAfter(sem, g, At(body, 0, w), At(h, 0, x.world), Exec(sem, s, x.world, fuel - 1), Some(q), a, fuel - 1);
    }
  }

  /** From its header, a loop runs as it should. */
  lemma {:induction false} LoopRuns<W>(sem: Meaning<W>, g: Blocks, s: Statement, h: BlockId, body: BlockId, out: BlockId,
      q: Place, a: Around, w: W, fuel: nat)
    requires (s.For? || (s.While? && s.setup == [])) && LoopAt(g, s, h, body, out, q, a) && Tame(s)
    ensures Matches(sem, g, At(h, 0, w), Exec(sem, s, w, fuel), Some(q), a, fuel)
    decreases fuel, Size(s), 1
  {
    hide Matches, HoldsTo, TameAll;
    if fuel == 0 {
      StartLasts(sem, g, At(h, 0, w), Some(q), a);
    } else {
      SetupFalls(sem, s, w, fuel);
      var (yes, w') := LoopTest(sem, s, w);
      if yes {
        LoopTurn(sem, g, s, h, body, out, q, a, w', fuel);
      } else {
        RunsTo(sem, g, s.orelse, (out, 0), q, a, w', fuel - 1);
      }
      MatchesStep(sem, g, (h, 0), w, LoopRaises(sem, s, w),
        if yes then Again(sem, s, ExecAll(sem, s.body, w', fuel - 1), fuel) else ExecAll(sem, s.orelse, w', fuel - 1),
        Some(q), a, fuel - 1);
    }
  }

  lemma StartLasts<W>(sem: Meaning<W>, g: Blocks, c: Config<W>, exit: Option<Place>, a: Around)
    requires c.At?
    ensures Matches(sem, g, c, OutOfFuel, exit, a, 0)
  {
  }

  function LoopTest<W>(sem: Meaning<W>, s: Statement, w: W): (bool, W)
    requires s.While? || s.For?
  {
    if s.While? then Test(sem, s.condition, w) else sem.next(s.target, s.iterable, w)
  }

  function LoopRaises<W>(sem: Meaning<W>, s: Statement, w: W): Option<(nat, W)>
    requires s.While? || s.For?
  {
    if s.While? then TestRaises(sem, s.condition, w) else sem.raises(Taking(s.target, s.iterable), w)
  }

  lemma SetupFalls<W>(sem: Meaning<W>, s: Statement, w: W, fuel: nat)
    requires fuel > 0 && (s.For? || (s.While? && s.setup == []))
    ensures var (yes, w') := LoopTest(sem, s, w);
      Exec(sem, s, w, fuel) == Unless(LoopRaises(sem, s, w),
        if yes then Again(sem, s, ExecAll(sem, s.body, w', fuel - 1), fuel) else ExecAll(sem, s.orelse, w', fuel - 1))
  {
    if s.While? {
      assert ExecUpTo(sem, s.setup, 0, w, fuel - 1) == Fell(w);
    }
  }

  lemma {:induction false} RunsLoop<W>(sem: Meaning<W>, g: Blocks, s: Statement, p: Place, q: Place, a: Around, w: W,
      fuel: nat)
    requires (s.For? || (s.While? && s.setup == [])) && Tame(s) && HoldsLoop(g, s, p, q, a)
    ensures Matches(sem, g, There(p, w), Exec(sem, s, w, fuel), Some(q), a, fuel)
    decreases fuel, Size(s), 2
  {
    hide Matches, HoldsTo, TameAll;
    var h := g[p.0].terminator.target;
    var body, out :| IsHeader(g, s, h, body, out, a)
      && HoldsTo(g, s.body, (body, 0), (h, 0), a.(loops := a.loops + [(h, q.0)])) && HoldsTo(g, s.orelse, (out, 0), q, a);
    LoopRuns(sem, g, s, h, body, out, q, a, w, fuel);
    MatchesStep(sem, g, p, w, None, Exec(sem, s, w, fuel), Some(q), a, fuel);
  }

  // ---- try ----

  lemma {:induction false} RunsHandled<W>(sem: Meaning<W>, g: Blocks, s: Statement, i: nat, h: BlockId, join: Place,
      a: Around, w: W, fuel: nat)
    requires s.Try? && Tame(s) && i < |s.handlers|
    requires HasItem(g, (h, 0), EnterHandler(s.handlers[i].name), a) && HoldsTo(g, s.handlers[i].body, (h, 1), join, a)
    ensures Matches(sem, g, At(h, 0, w), Handled(sem, s.handlers[i], w, fuel), Some(join), a, fuel)
    decreases fuel, Size(s), 0
  {
    hide Matches, HoldsTo, HasItem, TameAll;
    var x := RunItem(sem, EnterHandler(s.handlers[i].name), w);
    RunsItem(sem, g, (h, 0), EnterHandler(s.handlers[i].name), a, w, fuel);
    if x.Fell? {
      assert SizeAll(s.handlers[i].body) < Size(s);
      RunsTo(sem, g, s.handlers[i].body, (h, 1), join, a, x.world, fuel);
    }
    MatchesThen(sem, g, At(h, 0, w), x, Some((h, 1)), Handled(sem, s.handlers[i], w, fuel), Some(join), a, fuel);
  }

  /** The body, and what comes after it up to the `finally`. */
  lemma {:induction false} RunsGuarded<W>(sem: Meaning<W>, g: Blocks, s: Statement, t: BlockId, join: Place, a: Around,
      hs: seq<BlockId>, w: W, fuel: nat)
    requires s.Try? && Tame(s) && HoldsBody(g, s, t, join, a, hs) && HoldsHandlers(g, s, hs, join, a)
    ensures Matches(sem, g, At(t, 0, w), Guarded(sem, s, w, fuel), Some(join), a, fuel)
    decreases fuel, Size(s), 1
  {
    hide Reaches, Lasts, HoldsTo, HoldsUpTo, TameAll;
    var inside := a.(handlers := hs);
    var e: Option<Place> :| HoldsUpTo(g, s.body, |s.body|, (t, 0), e, inside)
      && (e.Some? ==>
            && e.value.0 in g && g[e.value.0].terminator.Jump?
            && EndsIn(g, e.value, Jump(g[e.value.0].terminator.target), inside)
            && HoldsTo(g, s.orelse, (g[e.value.0].terminator.target, 0), join, a));
    RunsUpTo(sem, g, s.body, |s.body|, (t, 0), e, inside, w, fuel);
    var c := There((t, 0), w);
    match ExecAll(sem, s.body, w, fuel) {
      case Fell(w') =>
        var next := (g[e.value.0].terminator.target, 0);
        RunsTo(sem, g, s.orelse, next, join, a, w', fuel);
        FallsHere(sem, g, next, w', inside, fuel);
        JoinRuns(sem, g, e.value, next, inside, w', fuel);
        ReachesOn(sem, g, c, There(e.value, w'), There(next, w'));
        MatchesAfter(sem, g, c, There(next, w'), ExecAll(sem, s.orelse, w', fuel), Some(join), a, fuel);
      case Threw(i, w') =>
        if i < |s.handlers| {
          RunsHandled(sem, g, s, i, hs[i], join, a, w', fuel);
          MatchesAfter(sem, g, c, At(hs[i], 0, w'), Handled(sem, s.handlers[i], w', fuel), Some(join), a, fuel);
        }
      case _ =>
    }
  }

  lemma {:induction false} RunsTry<W>(sem: Meaning<W>, g: Blocks, s: Statement, p: Place, q: Place, a: Around, w: W,
      fuel: nat)
    requires s.Try? && Tame(s) && HoldsTry(g, s, p, q, a)
    ensures Matches(sem, g, There(p, w), Exec(sem, s, w, fuel), Some(q), a, fuel)
    decreases fuel, Size(s), 2
  {
    hide Matches, HoldsBody, HoldsHandlers, HoldsTo, TameAll;
    var t := g[p.0].terminator.target;
    var hs := g[t].exceptionTargets;
    var join: Place :|
      HoldsBody(g, s, t, join, a, hs) && HoldsHandlers(g, s, hs, join, a) && HoldsTo(g, s.finalbody, join, q, a);
    RunsGuarded(sem, g, s, t, join, a, hs, w, fuel);
    var x := Guarded(sem, s, w, fuel);
    if x.Fell? {
      RunsTo(sem, g, s.finalbody, join, q, a, x.world, fuel);
    }
    MatchesThen(sem, g, At(t, 0, w), x, Some(join), Exec(sem, s, w, fuel), Some(q), a, fuel);
    MatchesStep(sem, g, p, w, None, Exec(sem, s, w, fuel), Some(q), a, fuel);
  }

  // ---- whole bodies ----

  /** How a call of the function ends; falling off its end returns nothing. */
  function Ending<W>(r: Outcome<W>): Option<Outcome<W>> {
    match r
    case Fell(w) => Some(Returned(None, w))
    case Returned(_, _) => Some(r)
    case Raised(_, _) => Some(r)
    case Threw(_, w) => Some(Uncaught(w))
    case Uncaught(_) => Some(r)
    case _ => None
  }

  ghost predicate GraphEnds<W>(sem: Meaning<W>, g: Blocks, w: W, o: Outcome<W>) {
    exists n: nat :: Steps(sem, g, At(ENTRY, 0, w), n) == Over(o)
  }

  ghost predicate BodyEnds<W>(sem: Meaning<W>, body: seq<Statement>, w: W, o: Outcome<W>) {
    exists fuel: nat :: Ending(ExecAll(sem, body, w, fuel)) == Some(o)
  }

  lemma {:induction false} OverStays<W>(sem: Meaning<W>, g: Blocks, c: Config<W>, m: nat, n: nat)
    requires Steps(sem, g, c, m).Over? && m <= n
    ensures Steps(sem, g, c, n) == Steps(sem, g, c, m)
    decreases n
  {
    if m < n {
      OverStays(sem, g, c, m, n - 1);
    }
  }

  /** With enough fuel the statements end as the graph does; with less, the graph goes on. */
  lemma BodyRuns<W>(sem: Meaning<W>, g: Blocks, body: seq<Statement>, w: W, fuel: nat)
    requires HoldsAll(g, body) && TameAll(body)
    ensures var r := ExecAll(sem, body, w, fuel);
      if r.OutOfFuel? then Lasts(sem, g, At(ENTRY, 0, w), fuel)
      else Ending(r).Some? && GraphEnds(sem, g, w, Ending(r).value)
  {
    hide Lasts, HoldsUpTo, TameAll;
    var a := Around([], []);
    var e: Option<Place> :|
      HoldsUpTo(g, body, |body|, (ENTRY, 0), e, a) && (e.Some? ==> EndsIn(g, e.value, Leave(None), a));
    RunsUpTo(sem, g, body, |body|, (ENTRY, 0), e, a, w, fuel);
    var x := ExecAll(sem, body, w, fuel);
    if x.Fell? {
      var d := There(e.value, x.world);
      ReachesStep(sem, g, d);
      ReachesOn(sem, g, At(ENTRY, 0, w), d, Over(Returned(None, x.world)));
    }
  }

  /** A run is over in one way only. */
  lemma OneEnd<W>(sem: Meaning<W>, g: Blocks, c: Config<W>, m: nat, n: nat)
    requires Steps(sem, g, c, m).Over? && Steps(sem, g, c, n).Over?
    ensures Steps(sem, g, c, m) == Steps(sem, g, c, n)
  {
    OverStays(sem, g, c, m, m + n);
    OverStays(sem, g, c, n, m + n);
  }

  /** The graph ends a call in some way exactly when the statements do. */
  lemma GraphRunsAsBody<W>(sem: Meaning<W>, g: Blocks, body: seq<Statement>, w: W, o: Outcome<W>)
    requires HoldsAll(g, body) && TameAll(body)
    ensures GraphEnds(sem, g, w, o) <==> BodyEnds(sem, body, w, o)
  {
    hide HoldsAll, TameAll, ExecAll, Step;
    var c := At(ENTRY, 0, w);
    if GraphEnds(sem, g, w, o) {
      var n: nat :| Steps(sem, g, c, n) == Over(o);
      BodyRuns(sem, g, body, w, n);
      var r := ExecAll(sem, body, w, n);
      var m: nat :| Steps(sem, g, c, m) == Over(Ending(r).value);
      OneEnd(sem, g, c, m, n);
      assert Ending(r) == Some(o);
    }
    if BodyEnds(sem, body, w, o) {
      var fuel: nat :| Ending(ExecAll(sem, body, w, fuel)) == Some(o);
      BodyRuns(sem, g, body, w, fuel);
    }
  }
}
