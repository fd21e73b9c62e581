/** Structured statements and what running them does. Expressions and plain statements are left
    open: they change a world, answer tests, and may raise. An exception goes to one of the handlers
    of the innermost `try` around, or is not caught at all; leaving a `try` early skips its
    `finally`. */
module Structured {
  import opened Options

  /** A test; the builder itself only writes `True` and `Not`. */
  datatype Condition = Opaque(text: string) | True | Not(inner: Condition)

  /** What a block holds. */
  datatype Item =
    | Plain(text: string)
    | EnterWith(context: string)
    | ExitWith(context: string)
    | EnterHandler(handler: string)

  /** `setup` are the statements that compute a loop's condition anew in every iteration; there
      are none when the condition is a plain expression. */
  datatype Statement =
    | Simple(text: string)
    | Return(value: Option<string>)
    | Raise(exception: Option<string>)
    | Break
    | Continue
    | If(condition: Condition, body: seq<Statement>, orelse: seq<Statement>)
    | While(setup: seq<Statement>, condition: Condition, body: seq<Statement>, orelse: seq<Statement>)
    | For(target: string, iterable: string, body: seq<Statement>, orelse: seq<Statement>)
    | With(contexts: seq<string>, body: seq<Statement>)
    | Try(body: seq<Statement>, handlers: seq<Handler>, orelse: seq<Statement>, finalbody: seq<Statement>)

  datatype Handler = Handler(name: string, body: seq<Statement>)

  // ---- size ----

  /** Large enough for the rewriting of a loop to make a statement smaller. */
  function Size(s: Statement): (n: nat)
    ensures n > 0
  {
    match s
    case If(_, body, orelse) => 1 + SizeAll(body) + SizeAll(orelse)
    case While(setup, _, body, orelse) => (if setup == [] then 1 else 4) + SizeAll(setup) + SizeAll(body)
      + SizeAll(orelse)
    case For(_, _, body, orelse) => 1 + SizeAll(body) + SizeAll(orelse)
    case With(_, body) => 1 + SizeAll(body)
    case Try(body, handlers, orelse, finalbody) => 1 + SizeAll(body) + SizeHandlers(handlers) + SizeAll(orelse)
      + SizeAll(finalbody)
    case _ => 1
  }

  function SizeAll(statements: seq<Statement>): (n: nat)
    ensures forall k :: 0 <= k < |statements| ==> Size(statements[k]) <= n
  {
    if statements == [] then 0 else SizeAll(statements[..|statements| - 1]) + Size(statements[|statements| - 1])
  }

  function SizeHandlers(handlers: seq<Handler>): (n: nat)
    ensures forall k :: 0 <= k < |handlers| ==> SizeAll(handlers[k].body) < n
  {
    if handlers == [] then 0 else SizeHandlers(handlers[..|handlers| - 1]) + 1 + SizeAll(handlers[|handlers| - 1].body)
  }

  lemma {:induction false} SizeJoin(a: seq<Statement>, b: seq<Statement>)
    ensures SizeAll(a + b) == SizeAll(a) + SizeAll(b)
    decreases |b|
  {
    if b == [] {
      assert a + b == a;
    } else {
      assert (a + b)[..|a + b| - 1] == a + b[..|b| - 1];
      SizeJoin(a, b[..|b| - 1]);
    }
  }

  // ---- meaning ----

  /** What may raise: running an item, a test, taking an item of an iterable, evaluating what is
      returned or raised. */
  datatype Part =
    | Running(item: Item)
    | Testing(text: string)
    | Taking(target: string, iterable: string)
    | Returning(value: string)
    | Raising(exception: Option<string>)

  /** `raises` says whether a part raises, and then which handler of the innermost `try` is for it,
      counted from 0, and the world it leaves. */
  datatype Meaning<!W> = Meaning(
    exec: (Item, W) -> W,
    test: (string, W) -> (bool, W),
    next: (string, string, W) -> (bool, W),
    raises: (Part, W) -> Option<(nat, W)>)

  /** How running some statements ends. */
  datatype Outcome<W> =
    | Fell(world: W)
    | Broke(world: W)
    | Continued(world: W)
    | Returned(value: Option<string>, world: W)
    | Raised(exception: Option<string>, world: W)
    | Threw(handler: nat, world: W)
    | Uncaught(world: W)
    | OutOfFuel

  function Test<W>(sem: Meaning<W>, c: Condition, w: W): (bool, W) {
    match c
    case Opaque(text) => sem.test(text, w)
    case True => (true, w)
    case Not(inner) => var (b, w') := Test(sem, inner, w); (!b, w')
  }

  /** Whether a test raises. */
  function TestRaises<W>(sem: Meaning<W>, c: Condition, w: W): Option<(nat, W)> {
    match c
    case Opaque(text) => sem.raises(Testing(text), w)
    case True => None
    case Not(inner) => TestRaises(sem, inner, w)
  }

  /** Whether returning raises; there is nothing to evaluate when no value is returned. */
  function ReturnRaises<W>(sem: Meaning<W>, value: Option<string>, w: W): Option<(nat, W)> {
    if value.Some? then sem.raises(Returning(value.value), w) else None
  }

  /** How something ends that may raise first. */
  function Unless<W>(raised: Option<(nat, W)>, otherwise: Outcome<W>): Outcome<W> {
    if raised.Some? then Threw(raised.value.0, raised.value.1) else otherwise
  }

  function RunItem<W>(sem: Meaning<W>, item: Item, w: W): Outcome<W> {
    Unless(sem.raises(Running(item), w), Fell(sem.exec(item, w)))
  }

  function EnterAll<W>(sem: Meaning<W>, contexts: seq<string>, w: W): Outcome<W> {
    if contexts == [] then Fell(w)
    else
      var r := EnterAll(sem, contexts[..|contexts| - 1], w);
      if r.Fell? then RunItem(sem, EnterWith(contexts[|contexts| - 1]), r.world) else r
  }

  /** The contexts are left in the opposite order. */
  function ExitAll<W>(sem: Meaning<W>, contexts: seq<string>, w: W): Outcome<W>
    decreases |contexts|
  {
    if contexts == [] then Fell(w)
    else
      var r := ExitAll(sem, contexts[1..], w);
      if r.Fell? then RunItem(sem, ExitWith(contexts[0]), r.world) else r
  }

  function Exec<W>(sem: Meaning<W>, s: Statement, w: W, fuel: nat): Outcome<W>
    decreases fuel, Size(s), 1
  {
    match s
    case Simple(text) => RunItem(sem, Plain(text), w)
    case Return(v) => Unless(ReturnRaises(sem, v, w), Returned(v, w))
    case Raise(e) => Unless(sem.raises(Raising(e), w), Raised(e, w))
    case Break => Broke(w)
    case Continue => Continued(w)
    case If(c, body, orelse) =>
      var (b, w') := Test(sem, c, w);
      Unless(TestRaises(sem, c, w), if b then ExecAll(sem, body, w', fuel) else ExecAll(sem, orelse, w', fuel))
    case While(setup, c, body, orelse) =>
      if fuel == 0 then OutOfFuel
      else
        var r := ExecAll(sem, setup, w, fuel - 1);
        if !r.Fell? then r
        else
          var (b, w') := Test(sem, c, r.world);
          Unless(TestRaises(sem, c, r.world),
            if b then Again(sem, s, ExecAll(sem, body, w', fuel - 1), fuel) else ExecAll(sem, orelse, w', fuel - 1))
    case For(target, iterable, body, orelse) =>
      if fuel == 0 then OutOfFuel
      else
        var (b, w') := sem.next(target, iterable, w);
        Unless(sem.raises(Taking(target, iterable), w),
          if b then Again(sem, s, ExecAll(sem, body, w', fuel - 1), fuel) else ExecAll(sem, orelse, w', fuel - 1))
    case With(contexts, body) =>
      var e := EnterAll(sem, contexts, w);
      if !e.Fell? then e
      else
        var r := ExecAll(sem, body, e.world, fuel);
        if r.Fell? then ExitAll(sem, contexts, r.world) else r
    case Try(_, _, _, finalbody) =>
      var r := Guarded(sem, s, w, fuel);
      if r.Fell? then ExecAll(sem, finalbody, r.world, fuel) else r
  }

  /** A `try` up to its `finally`: the body and then the `else` clause, or the handler an exception of
      the body is for. */
  function Guarded<W>(sem: Meaning<W>, s: Statement, w: W, fuel: nat): Outcome<W>
    requires s.Try?
    decreases fuel, Size(s), 0
  {
    var r := ExecAll(sem, s.body, w, fuel);
    match r
    case Fell(w') => ExecAll(sem, s.orelse, w', fuel)
    case Threw(i, w') => if i < |s.handlers| then Handled(sem, s.handlers[i], w', fuel) else Uncaught(w')
    case _ => r
  }

  function Handled<W>(sem: Meaning<W>, h: Handler, w: W, fuel: nat): Outcome<W>
    decreases fuel, SizeAll(h.body), |h.body| + 3
  {
    var r := RunItem(sem, EnterHandler(h.name), w);
    if r.Fell? then ExecAll(sem, h.body, r.world, fuel) else r
  }

  /** A loop goes on after its body fell through or continued. */
  function Again<W>(sem: Meaning<W>, loop: Statement, r: Outcome<W>, fuel: nat): Outcome<W>
    requires fuel > 0 && (loop.While? || loop.For?)
    decreases fuel, 0, 0
  {
    match r
    case Fell(w) => Exec(sem, loop, w, fuel - 1)
    case Continued(w) => Exec(sem, loop, w, fuel - 1)
    case Broke(w) => Fell(w)
    case _ => r
  }

  function ExecAll<W>(sem: Meaning<W>, statements: seq<Statement>, w: W, fuel: nat): Outcome<W>
    decreases fuel, SizeAll(statements), |statements| + 2
  {
    ExecUpTo(sem, statements, |statements|, w, fuel)
  }

  /** The first `k` statements. */
  function ExecUpTo<W>(sem: Meaning<W>, statements: seq<Statement>, k: nat, w: W, fuel: nat): Outcome<W>
    requires k <= |statements|
    decreases fuel, SizeAll(statements), k + 1
  {
    if k == 0 then Fell(w)
    else
      var r := ExecUpTo(sem, statements, k - 1, w, fuel);
      if r.Fell? then Exec(sem, statements[k - 1], r.world, fuel) else r
  }

  lemma {:induction false} ExecJoin<W>(sem: Meaning<W>, a: seq<Statement>, b: seq<Statement>, k: nat, w: W, fuel: nat)
    requires k <= |b|
    ensures ExecUpTo(sem, a + b, |a| + k, w, fuel)
         == var r := ExecAll(sem, a, w, fuel); if r.Fell? then ExecUpTo(sem, b, k, r.world, fuel) else r
  {
    if k == 0 {
      ExecPrefix(sem, a, b, |a|, w, fuel);
    } else {
      ExecJoin(sem, a, b, k - 1, w, fuel);
    }
  }

  lemma {:induction false} ExecPrefix<W>(sem: Meaning<W>, a: seq<Statement>, b: seq<Statement>, k: nat, w: W, fuel: nat)
    requires k <= |a|
    ensures ExecUpTo(sem, a + b, k, w, fuel) == ExecUpTo(sem, a, k, w, fuel)
  {
    if k > 0 {
      ExecPrefix(sem, a, b, k - 1, w, fuel);
    }
  }

  // ---- the rewriting of loops whose condition takes statements ----

  /** The loop tests its condition inside; the `else` clause runs before the break. */
  function Rewritten(s: Statement): Statement
    requires s.While?
  {
    While([], True, Inside(s), [])
  }

  function Inside(s: Statement): seq<Statement>
    requires s.While?
  {
    s.setup + [Stop(s)] + s.body
  }

  lemma SizeOne(s: Statement)
    ensures SizeAll([s]) == Size(s)
  {
    assert [s][..0] == [];
  }

  lemma RewrittenSmaller(s: Statement)
    requires s.While? && s.setup != []
    ensures Size(Rewritten(s)) < Size(s)
  {
    SizeJoin(s.setup, [Stop(s)]);
    SizeJoin(s.setup + [Stop(s)], s.body);
    SizeJoin(s.orelse, [Break]);
    SizeOne(Break);
    SizeOne(Stop(s));
  }

  function Stop(s: Statement): Statement
    requires s.While?
  {
    If(Not(s.condition), s.orelse + [Break], [])
  }

  /** How statements may end, whatever their plain tests answer. */
  datatype Ways = Ways(falls: bool, breaks: bool, continues: bool, throws: bool)

  predicate Possible(c: Condition, answer: bool) {
    match c
    case Opaque(_) => true
    case True => answer
    case Not(inner) => Possible(inner, !answer)
  }

  predicate MayRaise(c: Condition) {
    match c
    case Opaque(_) => true
    case True => false
    case Not(inner) => MayRaise(inner)
  }

  function Either(a: Ways, b: Ways): Ways {
    Ways(a.falls || b.falls, a.breaks || b.breaks, a.continues || b.continues, a.throws || b.throws)
  }

  function Then(a: Ways, b: Ways): Ways {
    if a.falls then Ways(b.falls, a.breaks || b.breaks, a.continues || b.continues, a.throws || b.throws) else a
  }

  function When(c: bool, a: Ways): Ways {
    if c then a else Ways(false, false, false, false)
  }

  const FALLS := Ways(true, false, false, false)
  const THROWS := Ways(false, false, false, true)

  function Can(s: Statement): Ways
    decreases Size(s), 1
  {
    match s
    case Simple(_) => Either(FALLS, THROWS)
    case Return(v) => When(v.Some?, THROWS)
    case Raise(_) => THROWS
    case Break => Ways(false, true, false, false)
    case Continue => Ways(false, false, true, false)
    case If(c, body, orelse) => Either(When(MayRaise(c), THROWS),
      Either(When(Possible(c, true), CanAll(body)), When(Possible(c, false), CanAll(orelse))))
    case While(setup, c, body, orelse) => Then(CanAll(setup), Either(When(MayRaise(c), THROWS),
      Either(When(Possible(c, true), CanTurn(CanAll(body))), When(Possible(c, false), CanAll(orelse)))))
    case For(_, _, body, orelse) => Either(THROWS, Either(CanTurn(CanAll(body)), CanAll(orelse)))
    case With(contexts, body) =>
      var items := Either(FALLS, When(contexts != [], THROWS));
      Then(items, Then(CanAll(body), items))
    case Try(_, _, _, finalbody) => Then(CanGuarded(s), CanAll(finalbody))
  }

  /** What one turn of a loop's body makes of the loop. */
  function CanTurn(body: Ways): Ways {
    Ways(body.breaks, false, false, body.throws)
  }

  function CanGuarded(s: Statement): Ways
    requires s.Try?
    decreases Size(s), 0
  {
    var body := CanAll(s.body);
    Either(Then(body.(throws := false), CanAll(s.orelse)), When(body.throws, CanHandlers(s.handlers)))
  }

  function CanHandlers(handlers: seq<Handler>): Ways
    decreases SizeHandlers(handlers), |handlers| + 1
  {
    if handlers == [] then Ways(false, false, false, false)
    else Either(CanHandlers(handlers[..|handlers| - 1]), CanHandle(handlers[|handlers| - 1]))
  }

  function CanHandle(h: Handler): Ways
    decreases SizeAll(h.body), |h.body| + 3
  {
    Then(Either(FALLS, THROWS), CanAll(h.body))
  }

  function CanAll(statements: seq<Statement>): Ways
    decreases SizeAll(statements), |statements| + 2
  {
    if statements == [] then FALLS
    else Then(CanAll(statements[..|statements| - 1]), Can(statements[|statements| - 1]))
  }

  ghost predicate Allowed<W>(r: Outcome<W>, ways: Ways) {
    (r.Fell? ==> ways.falls) && (r.Broke? ==> ways.breaks) && (r.Continued? ==> ways.continues)
      && (r.Threw? ==> ways.throws)
  }

  lemma TestPossible<W>(sem: Meaning<W>, c: Condition, w: W)
    ensures Possible(c, Test(sem, c, w).0) && (TestRaises(sem, c, w).Some? ==> MayRaise(c))
  {
  }

  /** No run ends in a way that is not possible. */
  lemma {:induction false} EndsAllowed<W>(sem: Meaning<W>, s: Statement, w: W, fuel: nat)
    ensures Allowed(Exec(sem, s, w, fuel), Can(s))
    decreases fuel, Size(s), 1
  {
    match s {
      case If(c, body, orelse) =>
        TestPossible(sem, c, w);
        EndAllowed(sem, body, Test(sem, c, w).1, fuel);
        EndAllowed(sem, orelse, Test(sem, c, w).1, fuel);
      case While(_, _, _, _) => WhileAllowed(sem, s, w, fuel);
      case For(_, _, _, _) => ForAllowed(sem, s, w, fuel);
      case With(contexts, body) =>
        ItemsAllowed(sem, contexts, w);
        var e := EnterAll(sem, contexts, w);
        if e.Fell? {
          EndAllowed(sem, body, e.world, fuel);
          var r := ExecAll(sem, body, e.world, fuel);
          if r.Fell? {
            ItemsAllowed(sem, contexts, r.world);
          }
        }
      case Try(_, _, _, finalbody) =>
        GuardedAllowed(sem, s, w, fuel);
        var r := Guarded(sem, s, w, fuel);
        if r.Fell? {
          EndAllowed(sem, finalbody, r.world, fuel);
        }
      case _ =>
    }
  }

  lemma {:induction false} WhileAllowed<W>(sem: Meaning<W>, s: Statement, w: W, fuel: nat)
    requires s.While?
    ensures Allowed(Exec(sem, s, w, fuel), Can(s))
    decreases fuel, Size(s), 0
  {
    var While(setup, c, body, orelse) := s;
    if fuel > 0 {
      EndAllowed(sem, setup, w, fuel - 1);
      var r := ExecAll(sem, setup, w, fuel - 1);
      if r.Fell? {
        TestPossible(sem, c, r.world);
        var (b, w') := Test(sem, c, r.world);
        if b {
          EndAllowed(sem, body, w', fuel - 1);
          var body' := ExecAll(sem, body, w', fuel - 1);
          if body'.Fell? || body'.Continued? {
            EndsAllowed(sem, s, body'.world, fuel - 1);
          }
          assert Exec(sem, s, w, fuel) == Unless(TestRaises(sem, c, r.world), Again(sem, s, body', fuel));
        } else {
          EndAllowed(sem, orelse, w', fuel - 1);
        }
      }
    }
  }

  lemma {:induction false} ForAllowed<W>(sem: Meaning<W>, s: Statement, w: W, fuel: nat)
    requires s.For?
    ensures Allowed(Exec(sem, s, w, fuel), Can(s))
    decreases fuel, Size(s), 0
  {
    var For(target, iterable, body, orelse) := s;
    if fuel > 0 {
      var (b, w') := sem.next(target, iterable, w);
      if b {
        EndAllowed(sem, body, w', fuel - 1);
        var body' := ExecAll(sem, body, w', fuel - 1);
        if body'.Fell? || body'.Continued? {
          EndsAllowed(sem, s, body'.world, fuel - 1);
        }
        assert Exec(sem, s, w, fuel) == Unless(sem.raises(Taking(target, iterable), w), Again(sem, s, body', fuel));
      } else {
        EndAllowed(sem, orelse, w', fuel - 1);
      }
    }
  }

  lemma ItemsAllowed<W>(sem: Meaning<W>, contexts: seq<string>, w: W)
    ensures Allowed(EnterAll(sem, contexts, w), Either(FALLS, When(contexts != [], THROWS)))
    ensures Allowed(ExitAll(sem, contexts, w), Either(FALLS, When(contexts != [], THROWS)))
    decreases |contexts|
  {
    if contexts != [] {
      ItemsAllowed(sem, contexts[..|contexts| - 1], w);
      ItemsAllowed(sem, contexts[1..], w);
    }
  }

  lemma {:induction false} GuardedAllowed<W>(sem: Meaning<W>, s: Statement, w: W, fuel: nat)
    requires s.Try?
    ensures Allowed(Guarded(sem, s, w, fuel), CanGuarded(s))
    decreases fuel, Size(s), 0
  {
    EndAllowed(sem, s.body, w, fuel);
    match ExecAll(sem, s.body, w, fuel) {
      case Fell(w') => EndAllowed(sem, s.orelse, w', fuel);
      case Threw(i, w') =>
        if i < |s.handlers| {
          HandledAllowed(sem, s.handlers[i], w', fuel);
          OneOfHandlers(s.handlers, i);
          AllowedMore(Guarded(sem, s, w, fuel), CanHandle(s.handlers[i]), CanHandlers(s.handlers));
          AllowedMore(Guarded(sem, s, w, fuel), CanHandlers(s.handlers), CanGuarded(s));
        }
      case _ =>
    }
  }

  lemma AllowedMore<W>(r: Outcome<W>, a: Ways, b: Ways)
    requires Allowed(r, a) && Either(b, a) == b
    ensures Allowed(r, b)
  {
  }

  lemma {:induction false} HandledAllowed<W>(sem: Meaning<W>, h: Handler, w: W, fuel: nat)
    ensures Allowed(Handled(sem, h, w, fuel), CanHandle(h))
    decreases fuel, SizeAll(h.body), |h.body| + 3
  {
    var r := RunItem(sem, EnterHandler(h.name), w);
    if r.Fell? {
      EndAllowed(sem, h.body, r.world, fuel);
    }
  }

  /** What one handler can do, some can. */
  lemma {:induction false} OneOfHandlers(handlers: seq<Handler>, i: nat)
    requires i < |handlers|
    ensures Either(CanHandlers(handlers), CanHandle(handlers[i])) == CanHandlers(handlers)
  {
    if i < |handlers| - 1 {
      OneOfHandlers(handlers[..|handlers| - 1], i);
    }
  }

  lemma ExecLast<W>(sem: Meaning<W>, statements: seq<Statement>, w: W, fuel: nat)
    requires statements != []
    ensures var n := |statements| - 1;
      ExecAll(sem, statements, w, fuel)
      == var r := ExecAll(sem, statements[..n], w, fuel); if r.Fell? then Exec(sem, statements[n], r.world, fuel) else r
  {
    var n := |statements| - 1;
    ExecPrefix(sem, statements[..n], [statements[n]], n, w, fuel);
    assert statements[..n] + [statements[n]] == statements;
  }

  lemma {:induction false} EndAllowed<W>(sem: Meaning<W>, statements: seq<Statement>, w: W, fuel: nat)
    ensures Allowed(ExecAll(sem, statements, w, fuel), CanAll(statements))
    decreases fuel, SizeAll(statements), |statements| + 2
  {
    if statements == [] {
      assert ExecUpTo(sem, statements, 0, w, fuel) == Fell(w);
    } else {
      var n := |statements| - 1;
      EndAllowed(sem, statements[..n], w, fuel);
      ExecLast(sem, statements, w, fuel);
      var r := ExecAll(sem, statements[..n], w, fuel);
      if r.Fell? {
        EndsAllowed(sem, statements[n], r.world, fuel);
      }
    }
  }

  lemma ExecOne<W>(sem: Meaning<W>, s: Statement, w: W, fuel: nat)
    ensures ExecUpTo(sem, [s], 1, w, fuel) == Exec(sem, s, w, fuel)
  {
    assert ExecUpTo(sem, [s], 0, w, fuel) == Fell(w);
  }

  lemma RewrittenRuns<W>(sem: Meaning<W>, s: Statement, w: W, fuel: nat)
    requires s.While? && fuel > 0
    ensures Exec(sem, Rewritten(s), w, fuel) == Again(sem, Rewritten(s), ExecAll(sem, Inside(s), w, fuel - 1), fuel)
  {
    assert ExecAll(sem, [], w, fuel - 1) == Fell(w);
  }

  /** One iteration of the loop as rewritten. */
  function Iteration<W>(sem: Meaning<W>, s: Statement, w: W, fuel: nat): Outcome<W>
    requires s.While?
  {
    var r := ExecAll(sem, s.setup, w, fuel);
    if !r.Fell? then r
    else
      var (b, w') := Test(sem, s.condition, r.world);
      Unless(TestRaises(sem, s.condition, r.world),
        if b then ExecAll(sem, s.body, w', fuel) else BreakAfter(ExecAll(sem, s.orelse, w', fuel)))
  }

  function BreakAfter<W>(r: Outcome<W>): Outcome<W> {
    if r.Fell? then Broke(r.world) else r
  }

  lemma RewrittenStep<W>(sem: Meaning<W>, s: Statement, w: W, fuel: nat)
    requires s.While? && fuel > 0
    ensures ExecAll(sem, Inside(s), w, fuel - 1) == Iteration(sem, s, w, fuel - 1)
  {
    var first := s.setup + [Stop(s)];
    ExecJoin(sem, first, s.body, |s.body|, w, fuel - 1);
    ExecJoin(sem, s.setup, [Stop(s)], 1, w, fuel - 1);
    var r := ExecAll(sem, s.setup, w, fuel - 1);
    if r.Fell? {
      ExecOne(sem, Stop(s), r.world, fuel - 1);
      StopRuns(sem, s, r.world, fuel - 1);
    }
  }

  lemma StopRuns<W>(sem: Meaning<W>, s: Statement, w: W, fuel: nat)
    requires s.While?
    ensures var (b, w') := Test(sem, s.condition, w);
      Exec(sem, Stop(s), w, fuel) == Unless(TestRaises(sem, s.condition, w),
        if b then Fell(w') else BreakAfter(ExecAll(sem, s.orelse, w', fuel)))
  {
    var (b, w') := Test(sem, s.condition, w);
    assert ExecAll(sem, [], w', fuel) == Fell(w');
    ExecJoin(sem, s.orelse, [Break], 1, w', fuel);
    var e := ExecAll(sem, s.orelse, w', fuel);
    if e.Fell? {
      ExecOne(sem, Break, e.world, fuel);
    }
  }

  /** When the loop cannot break or continue the loop around it, its rewriting runs as it does. */
  lemma {:induction false} RewritingKeepsMeaning<W>(sem: Meaning<W>, s: Statement, w: W, fuel: nat)
    requires s.While? && !Can(s).breaks && !Can(s).continues
    ensures Exec(sem, Rewritten(s), w, fuel) == Exec(sem, s, w, fuel)
    decreases fuel
  {
    if fuel > 0 {
      RewrittenRuns(sem, s, w, fuel);
      RewrittenStep(sem, s, w, fuel);
      var r := ExecAll(sem, s.setup, w, fuel - 1);
      EndAllowed(sem, s.setup, w, fuel - 1);
      if r.Fell? {
        TestPossible(sem, s.condition, r.world);
        var (b, w') := Test(sem, s.condition, r.world);
        EndAllowed(sem, s.orelse, w', fuel - 1);
        if b {
          var body' := ExecAll(sem, s.body, w', fuel - 1);
          if body'.Fell? || body'.Continued? {
            RewritingKeepsMeaning(sem, s, body'.world, fuel - 1);
          }
        }
      }
    }
  }

  /** As rewritten, the loop takes every break and continue for itself. */
  lemma {:induction false} RewrittenNeverEscapes<W>(sem: Meaning<W>, s: Statement, w: W, fuel: nat)
    requires s.While?
    ensures var r := Exec(sem, Rewritten(s), w, fuel); !r.Broke? && !r.Continued?
    decreases fuel
  {
    if fuel > 0 {
      RewrittenRuns(sem, s, w, fuel);
      var r := ExecAll(sem, Inside(s), w, fuel - 1);
      if r.Fell? || r.Continued? {
        RewrittenNeverEscapes(sem, s, r.world, fuel - 1);
      }
    }
  }

  // ---- and when it can, some run tells them apart ----

  /** What a script has in store for what comes next: to go well, a test being true or false, or to
      raise into a handler. */
  datatype Cue = Yes | No | Into(handler: nat)

  /** Everything follows a list of cues. */
  function Script(): Meaning<seq<Cue>> {
    Meaning((item, w: seq<Cue>) => if w == [] then [] else w[1..],
            (text, w: seq<Cue>) => if w == [] then (false, []) else (w[0].Yes?, w[1..]),
            (target, iterable, w: seq<Cue>) => if w == [] then (false, []) else (w[0].Yes?, w[1..]),
            (part, w: seq<Cue>) => if w != [] && w[0].Into? then Some((w[0].handler, w[1..])) else None)
  }

  datatype Way = ToFall | ToBreak | ToContinue | ToThrow(handler: nat)

  predicate CanWay(ways: Ways, way: Way) {
    match way
    case ToFall => ways.falls
    case ToBreak => ways.breaks
    case ToContinue => ways.continues
    case ToThrow(_) => ways.throws
  }

  ghost predicate Ends(r: Outcome<seq<Cue>>, way: Way, w: seq<Cue>) {
    match way
    case ToFall => r == Fell(w)
    case ToBreak => r == Broke(w)
    case ToContinue => r == Continued(w)
    case ToThrow(i) => r == Threw(i, w)
  }

  /** Cues that lead through the statement to the given end. */
  ghost predicate Leads(s: Statement, way: Way, cues: seq<Cue>) {
    forall rest, fuel: nat {:trigger Exec(Script(), s, cues + rest, fuel)} :: fuel >= Size(s) ==>
      Ends(Exec(Script(), s, cues + rest, fuel), way, rest)
  }

  ghost predicate LeadsAll(statements: seq<Statement>, way: Way, cues: seq<Cue>) {
    forall rest, fuel: nat {:trigger ExecAll(Script(), statements, cues + rest, fuel)} ::
      fuel >= SizeAll(statements) ==> Ends(ExecAll(Script(), statements, cues + rest, fuel), way, rest)
  }

  lemma CueFirst(cue: Cue, rest: seq<Cue>)
    ensures ([cue] + rest)[0] == cue && ([cue] + rest)[1..] == rest
  {
  }

  lemma Answer(c: Condition, answer: bool) returns (cues: seq<Cue>)
    requires Possible(c, answer)
    ensures forall rest {:trigger Test(Script(), c, cues + rest)} ::
      Test(Script(), c, cues + rest) == (answer, rest) && TestRaises(Script(), c, cues + rest) == None
  {
    match c {
      case Opaque(_) =>
        cues := [if answer then Yes else No];
        forall rest
          ensures Test(Script(), c, cues + rest) == (answer, rest) && TestRaises(Script(), c, cues + rest) == None {
          CueFirst(cues[0], rest);
        }
      case True =>
        cues := [];
        forall rest
          ensures Test(Script(), c, cues + rest) == (answer, rest) && TestRaises(Script(), c, cues + rest) == None {
          assert cues + rest == rest;
        }
      case Not(inner) =>
        cues := Answer(inner, !answer);
        forall rest
          ensures Test(Script(), c, cues + rest) == (answer, rest) && TestRaises(Script(), c, cues + rest) == None {
          assert Test(Script(), inner, cues + rest) == (!answer, rest);
        }
    }
  }

  lemma TestThrows(c: Condition, i: nat, rest: seq<Cue>)
    requires MayRaise(c)
    ensures TestRaises(Script(), c, [Into(i)] + rest) == Some((i, rest))
  {
    CueFirst(Into(i), rest);
  }

  lemma ItemRuns(item: Item, rest: seq<Cue>)
    ensures RunItem(Script(), item, [Yes] + rest) == Fell(rest)
    ensures forall i :: RunItem(Script(), item, [Into(i)] + rest) == Threw(i, rest)
  {
    CueFirst(Yes, rest);
    forall i ensures RunItem(Script(), item, [Into(i)] + rest) == Threw(i, rest) {
      CueFirst(Into(i), rest);
    }
  }

  function Times(n: nat): (cues: seq<Cue>)
    ensures |cues| == n
  {
    if n == 0 then [] else [Yes] + Times(n - 1)
  }

  lemma {:induction false} EntersRun(contexts: seq<string>, rest: seq<Cue>)
    ensures EnterAll(Script(), contexts, Times(|contexts|) + rest) == Fell(rest)
  {
    if contexts == [] {
      assert Times(0) + rest == rest;
    } else {
      var less := contexts[..|contexts| - 1];
      TimesTurn(|less|, rest);
      EntersRun(less, [Yes] + rest);
      ItemRuns(EnterWith(contexts[|contexts| - 1]), rest);
    }
  }

  lemma {:induction false} TimesTurn(n: nat, rest: seq<Cue>)
    ensures Times(n + 1) + rest == Times(n) + ([Yes] + rest)
  {
    if n > 0 {
      TimesTurn(n - 1, rest);
      assert Times(n + 1) + rest == [Yes] + (Times(n) + rest);
      assert Times(n) + ([Yes] + rest) == [Yes] + (Times(n - 1) + ([Yes] + rest));
    }
  }

  lemma {:induction false} ExitsRun(contexts: seq<string>, rest: seq<Cue>)
    ensures ExitAll(Script(), contexts, Times(|contexts|) + rest) == Fell(rest)
    decreases |contexts|
  {
    if contexts == [] {
      assert Times(0) + rest == rest;
    } else {
      var less := contexts[1..];
      TimesTurn(|less|, rest);
      ExitsRun(less, [Yes] + rest);
      ItemRuns(ExitWith(contexts[0]), rest);
    }
  }

  lemma {:induction false} EnterThrows(contexts: seq<string>, i: nat, rest: seq<Cue>)
    requires contexts != []
    ensures EnterAll(Script(), contexts, [Into(i)] + rest) == Threw(i, rest)
  {
    var less := contexts[..|contexts| - 1];
    if less == [] {
      assert EnterAll(Script(), less, [Into(i)] + rest) == Fell([Into(i)] + rest);
      ItemRuns(EnterWith(contexts[0]), rest);
    } else {
      EnterThrows(less, i, rest);
    }
  }

  lemma {:induction false} Led(s: Statement, way: Way) returns (cues: seq<Cue>)
    requires CanWay(Can(s), way)
    ensures Leads(s, way, cues)
    decreases Size(s), 2
  {
    match s {
      case If(c, body, orelse) => cues := LedIf(s, way);
      case While(_, _, _, _) => cues := LedWhile(s, way);
      case For(_, _, _, _) => cues := LedFor(s, way);
      case With(_, _) => cues := LedWith(s, way);
      case Try(_, _, _, _) => cues := LedTry(s, way);
      case _ => cues := LedPlain(s, way);
    }
  }

  lemma LedPlain(s: Statement, way: Way) returns (cues: seq<Cue>)
    requires s.Simple? || s.Return? || s.Raise? || s.Break? || s.Continue?
    requires CanWay(Can(s), way)
    ensures Leads(s, way, cues)
  {
    cues := if way.ToThrow? then [Into(way.handler)] else if way.ToFall? then [Yes] else [];
    forall rest, fuel: nat | fuel >= Size(s) ensures Ends(Exec(Script(), s, cues + rest, fuel), way, rest) {
      if way.ToThrow? {
        CueFirst(cues[0], rest);
      } else if way.ToFall? {
        ItemRuns(Plain(s.text), rest);
      } else {
        assert cues + rest == rest;
      }
    }
  }

  lemma {:induction false} LedIf(s: Statement, way: Way) returns (cues: seq<Cue>)
    requires s.If? && CanWay(Can(s), way)
    ensures Leads(s, way, cues)
    decreases Size(s), 1
  {
    if way.ToThrow? && MayRaise(s.condition) {
      cues := [Into(way.handler)];
      forall rest, fuel: nat | fuel >= Size(s) ensures Ends(Exec(Script(), s, cues + rest, fuel), way, rest) {
        TestThrows(s.condition, way.handler, rest);
      }
    } else {
      var b := Possible(s.condition, true) && CanWay(CanAll(s.body), way);
      var test := Answer(s.condition, b);
      var rest' := LedAll(if b then s.body else s.orelse, way);
      cues := test + rest';
      forall rest, fuel: nat | fuel >= Size(s) ensures Ends(Exec(Script(), s, cues + rest, fuel), way, rest) {
        assert cues + rest == test + (rest' + rest);
        assert Test(Script(), s.condition, test + (rest' + rest)) == (b, rest' + rest);
        assert Ends(ExecAll(Script(), if b then s.body else s.orelse, rest' + rest, fuel), way, rest);
      }
    }
  }

  /** How one side of a loop's test ends the loop, the way being led to. */
  function SideWay(b: bool, way: Way): Way {
    if b && way.ToFall? then ToBreak else way
  }

  lemma {:induction false} LedSide(s: Statement, way: Way) returns (b: bool, cues: seq<Cue>)
    requires s.While? || s.For?
    requires var yes, no := s.For? || Possible(s.condition, true), s.For? || Possible(s.condition, false);
      CanWay(Either(When(yes, CanTurn(CanAll(s.body))), When(no, CanAll(s.orelse))), way)
    ensures s.While? ==> Possible(s.condition, b)
    ensures LeadsAll(if b then s.body else s.orelse, SideWay(b, way), cues)
    ensures b ==> !way.ToBreak? && !way.ToContinue?
    decreases Size(s), 0
  {
    b := (s.For? || Possible(s.condition, true)) && CanWay(CanTurn(CanAll(s.body)), way);
    cues := LedAll(if b then s.body else s.orelse, SideWay(b, way));
  }

  lemma {:induction false} LedWhile(s: Statement, way: Way) returns (cues: seq<Cue>)
    requires s.While? && CanWay(Can(s), way)
    ensures Leads(s, way, cues)
    decreases Size(s), 1
  {
    var setup := CanAll(s.setup);
    if !way.ToFall? && CanWay(setup, way) {
      cues := LedAll(s.setup, way);
      forall rest, fuel: nat | fuel >= Size(s) ensures Ends(Exec(Script(), s, cues + rest, fuel), way, rest) {
        assert Ends(ExecAll(Script(), s.setup, cues + rest, fuel - 1), way, rest);
      }
    } else if way.ToThrow? && MayRaise(s.condition) {
      var first := LedAll(s.setup, ToFall);
      cues := first + [Into(way.handler)];
      forall rest, fuel: nat | fuel >= Size(s) ensures Ends(Exec(Script(), s, cues + rest, fuel), way, rest) {
        assert cues + rest == first + ([Into(way.handler)] + rest);
        assert Ends(ExecAll(Script(), s.setup, first + ([Into(way.handler)] + rest), fuel - 1), ToFall,
          [Into(way.handler)] + rest);
        TestThrows(s.condition, way.handler, rest);
      }
    } else {
      var first := LedAll(s.setup, ToFall);
      var b, rest' := LedSide(s, way);
      var test := Answer(s.condition, b);
      cues := first + test + rest';
      forall rest, fuel: nat | fuel >= Size(s) ensures Ends(Exec(Script(), s, cues + rest, fuel), way, rest) {
        assert cues + rest == first + (test + (rest' + rest));
        assert Ends(ExecAll(Script(), s.setup, first + (test + (rest' + rest)), fuel - 1), ToFall,
          test + (rest' + rest));
        assert Test(Script(), s.condition, test + (rest' + rest)) == (b, rest' + rest);
        assert Ends(ExecAll(Script(), if b then s.body else s.orelse, rest' + rest, fuel - 1), SideWay(b, way), rest);
      }
    }
  }

  lemma {:induction false} LedFor(s: Statement, way: Way) returns (cues: seq<Cue>)
    requires s.For? && CanWay(Can(s), way)
    ensures Leads(s, way, cues)
    decreases Size(s), 1
  {
    if way.ToThrow? {
      cues := [Into(way.handler)];
      forall rest, fuel: nat | fuel >= Size(s) ensures Ends(Exec(Script(), s, cues + rest, fuel), way, rest) {
        CueFirst(cues[0], rest);
      }
    } else {
      var b, rest' := LedSide(s, way);
      var first := if b then Yes else No;
      cues := [first] + rest';
      forall rest, fuel: nat | fuel >= Size(s) ensures Ends(Exec(Script(), s, cues + rest, fuel), way, rest) {
        assert cues + rest == [first] + (rest' + rest);
        CueFirst(first, rest' + rest);
        assert Ends(ExecAll(Script(), if b then s.body else s.orelse, rest' + rest, fuel - 1), SideWay(b, way), rest);
      }
    }
  }

  lemma {:induction false} LedWith(s: Statement, way: Way) returns (cues: seq<Cue>)
    requires s.With? && CanWay(Can(s), way)
    ensures Leads(s, way, cues)
    decreases Size(s), 1
  {
    var n := |s.contexts|;
    if way.ToThrow? && s.contexts != [] {
      cues := [Into(way.handler)];
      forall rest, fuel: nat | fuel >= Size(s) ensures Ends(Exec(Script(), s, cues + rest, fuel), way, rest) {
        EnterThrows(s.contexts, way.handler, rest);
      }
    } else {
      var inside := LedAll(s.body, way);
      var last := if way.ToFall? then Times(n) else [];
      cues := Times(n) + inside + last;
      forall rest, fuel: nat | fuel >= Size(s) ensures Ends(Exec(Script(), s, cues + rest, fuel), way, rest) {
        assert cues + rest == Times(n) + (inside + (last + rest));
        EntersRun(s.contexts, inside + (last + rest));
        assert Ends(ExecAll(Script(), s.body, inside + (last + rest), fuel), way, last + rest);
        ExitsRun(s.contexts, rest);
        if !way.ToFall? {
          assert last + rest == rest;
        }
      }
    }
  }

  ghost predicate LeadsGuarded(s: Statement, way: Way, cues: seq<Cue>)
    requires s.Try?
  {
    forall rest, fuel: nat {:trigger Guarded(Script(), s, cues + rest, fuel)} :: fuel >= Size(s) ==>
      Ends(Guarded(Script(), s, cues + rest, fuel), way, rest)
  }

  lemma {:induction false} LedTry(s: Statement, way: Way) returns (cues: seq<Cue>)
    requires s.Try? && CanWay(Can(s), way)
    ensures Leads(s, way, cues)
    decreases Size(s), 1
  {
    if !way.ToFall? && CanWay(CanGuarded(s), way) {
      cues := LedGuarded(s, way);
      forall rest, fuel: nat | fuel >= Size(s) ensures Ends(Exec(Script(), s, cues + rest, fuel), way, rest) {
        assert Ends(Guarded(Script(), s, cues + rest, fuel), way, rest);
      }
    } else {
      var a := LedGuarded(s, ToFall);
      var b := LedAll(s.finalbody, way);
      cues := a + b;
      forall rest, fuel: nat | fuel >= Size(s) ensures Ends(Exec(Script(), s, cues + rest, fuel), way, rest) {
        assert cues + rest == a + (b + rest);
        assert Ends(Guarded(Script(), s, a + (b + rest), fuel), ToFall, b + rest);
        assert Ends(ExecAll(Script(), s.finalbody, b + rest, fuel), way, rest);
      }
    }
  }

  lemma {:induction false} LedGuarded(s: Statement, way: Way) returns (cues: seq<Cue>)
    requires s.Try? && CanWay(CanGuarded(s), way)
    ensures LeadsGuarded(s, way, cues)
    decreases Size(s), 0
  {
    var body := CanAll(s.body);
    if (way.ToBreak? || way.ToContinue?) && CanWay(body, way) {
      cues := LedAll(s.body, way);
      forall rest, fuel: nat | fuel >= Size(s) ensures Ends(Guarded(Script(), s, cues + rest, fuel), way, rest) {
        assert Ends(ExecAll(Script(), s.body, cues + rest, fuel), way, rest);
      }
    } else if body.falls && CanWay(CanAll(s.orelse), way) {
      var a := LedAll(s.body, ToFall);
      var b := LedAll(s.orelse, way);
      cues := a + b;
      forall rest, fuel: nat | fuel >= Size(s) ensures Ends(Guarded(Script(), s, cues + rest, fuel), way, rest) {
        assert cues + rest == a + (b + rest);
        assert Ends(ExecAll(Script(), s.body, a + (b + rest), fuel), ToFall, b + rest);
        assert Ends(ExecAll(Script(), s.orelse, b + rest, fuel), way, rest);
      }
    } else {
      var i := HandlerFor(s.handlers, way);
      var a := LedAll(s.body, ToThrow(i));
      var b := LedHandled(s.handlers[i], way);
      cues := a + b;
      forall rest, fuel: nat | fuel >= Size(s) ensures Ends(Guarded(Script(), s, cues + rest, fuel), way, rest) {
        assert cues + rest == a + (b + rest);
        assert Ends(ExecAll(Script(), s.body, a + (b + rest), fuel), ToThrow(i), b + rest);
        assert Ends(Handled(Script(), s.handlers[i], b + rest, fuel), way, rest);
      }
    }
  }

  lemma {:induction false} HandlerFor(handlers: seq<Handler>, way: Way) returns (i: nat)
    requires CanWay(CanHandlers(handlers), way)
    ensures i < |handlers| && CanWay(CanHandle(handlers[i]), way)
  {
    var n := |handlers| - 1;
    if CanWay(CanHandle(handlers[n]), way) {
      i := n;
    } else {
      i := HandlerFor(handlers[..n], way);
    }
  }

  lemma {:induction false} LedHandled(h: Handler, way: Way) returns (cues: seq<Cue>)
    requires CanWay(CanHandle(h), way)
    ensures forall rest, fuel: nat {:trigger Handled(Script(), h, cues + rest, fuel)} :: fuel >= SizeAll(h.body) ==>
      Ends(Handled(Script(), h, cues + rest, fuel), way, rest)
    decreases SizeAll(h.body), |h.body| + 4
  {
    if way.ToThrow? {
      cues := [Into(way.handler)];
      forall rest, fuel: nat | fuel >= SizeAll(h.body) ensures Ends(Handled(Script(), h, cues + rest, fuel), way, rest) {
        ItemRuns(EnterHandler(h.name), rest);
      }
    } else {
      var inside := LedAll(h.body, way);
      cues := [Yes] + inside;
      forall rest, fuel: nat | fuel >= SizeAll(h.body) ensures Ends(Handled(Script(), h, cues + rest, fuel), way, rest) {
        assert cues + rest == [Yes] + (inside + rest);
        ItemRuns(EnterHandler(h.name), inside + rest);
        assert Ends(ExecAll(Script(), h.body, inside + rest, fuel), way, rest);
      }
    }
  }

  lemma {:induction false} LedAll(statements: seq<Statement>, way: Way) returns (cues: seq<Cue>)
    requires CanWay(CanAll(statements), way)
    ensures LeadsAll(statements, way, cues)
    decreases SizeAll(statements), |statements| + 3
  {
    if statements == [] {
      cues := [];
      forall rest, fuel: nat ensures Ends(ExecAll(Script(), statements, cues + rest, fuel), way, rest) {
        assert cues + rest == rest;
      }
    } else {
      var n := |statements| - 1;
      var init, last := statements[..n], statements[n];
      var early := !way.ToFall? && CanWay(CanAll(init), way);
      var a := LedAll(init, if early then way else ToFall);
      var b := [];
      if !early {
        b := Led(last, way);
      }
      cues := a + b;
      forall rest, fuel: nat | fuel >= SizeAll(statements)
        ensures Ends(ExecAll(Script(), statements, cues + rest, fuel), way, rest) {
        assert cues + rest == a + (b + rest);
        assert Ends(ExecAll(Script(), init, a + (b + rest), fuel), if early then way else ToFall, b + rest);
        ExecPrefix(Script(), init, [last], n, cues + rest, fuel);
        assert init + [last] == statements;
        if early {
          assert b + rest == rest;
        } else {
          assert Ends(Exec(Script(), last, b + rest, fuel), way, rest);
        }
      }
    }
  }

  /** The rewriting is wrong exactly for the loops that can break or continue the loop around
      them: for each of those some script ends the two differently. */
  lemma RewritingCaptures(s: Statement) returns (cues: seq<Cue>, fuel: nat)
    requires s.While? && (Can(s).breaks || Can(s).continues)
    ensures Exec(Script(), Rewritten(s), cues, fuel) != Exec(Script(), s, cues, fuel)
    ensures !Exec(Script(), s, cues, fuel).OutOfFuel?
  {
    var way := if Can(s).breaks then ToBreak else ToContinue;
    cues := Led(s, way);
    fuel := Size(s);
    assert cues + [] == cues;
    assert Ends(Exec(Script(), s, cues + [], fuel), way, []);
    RewrittenNeverEscapes(Script(), s, cues, fuel);
  }

  lemma {:induction false} PlainFalls(statements: seq<Statement>, k: nat)
    requires k <= |statements| && forall t :: t in statements ==> t.Simple?
    ensures var ways := CanAll(statements[..k]); ways.falls && !ways.breaks && !ways.continues
  {
    if k > 0 {
      PlainFalls(statements, k - 1);
      assert statements[..k][..k - 1] == statements[..k - 1];
    }
  }

  /** Where the condition's statements are plain, only the `else` clause decides whether the loop can
      break or continue the loop around it. */
  lemma OnlyElseEscapes(s: Statement)
    requires s.While? && s.condition.Opaque? && forall t :: t in s.setup ==> t.Simple?
    ensures Can(s).breaks == CanAll(s.orelse).breaks && Can(s).continues == CanAll(s.orelse).continues
  {
    PlainFalls(s.setup, |s.setup|);
    assert s.setup[..|s.setup|] == s.setup;
  }

  /** `while` with a condition that takes a statement, and `else: break`, inside a loop: as written
      it breaks that loop when the test fails, and rewritten it goes on. */
  lemma BreakInElseCaptured(body: seq<Statement>)
    ensures var s := While([Simple("found = search()")], Opaque("found"), body, [Break]);
      Exec(Script(), s, [Yes, No], 1) == Broke([]) && Exec(Script(), Rewritten(s), [Yes, No], 1) == Fell([])
  {
    var s := While([Simple("found = search()")], Opaque("found"), body, [Break]);
    ItemRuns(Plain("found = search()"), [No]);
    assert [Yes] + [No] == [Yes, No];
    ExecOne(Script(), s.setup[0], [Yes, No], 0);
    ExecOne(Script(), Break, [], 0);
    assert ExecAll(Script(), s.setup, [Yes, No], 0) == Fell([No]);
    assert ExecAll(Script(), s.orelse, [], 0) == Broke([]);
    assert [No][1..] == [];
    assert Test(Script(), s.condition, [No]) == (false, []);
    RewrittenRuns(Script(), s, [Yes, No], 1);
    RewrittenStep(Script(), s, [Yes, No], 1);
  }
}
