/** Laying structured statements out as basic blocks, as a function of the builder's state. A
    block collects items while it is open; finishing it gives it a terminator and the handlers
    in force. */
module Layout {
  import opened Graphs
  import opened Options
  import opened Structured

  type BlockId = Node

  const ENTRY := Node("entry", 0)

  datatype Exit =
    | Leave(value: Option<string>)
    | Throw(exception: Option<string>)
    | Branch(condition: Condition, thenBlock: BlockId, elseBlock: BlockId)
    | Jump(target: BlockId)
    | ForEach(name: string, iterable: string, body: BlockId, exit: BlockId)

  datatype CfgBlock = CfgBlock(id: BlockId, items: seq<Item>, terminator: Exit, exceptionTargets: seq<BlockId>)

  type Blocks = map<BlockId, CfgBlock>

  function Targets(t: Exit): seq<BlockId> {
    match t
    case Branch(_, a, b) => [a, b]
    case Jump(a) => [a]
    case ForEach(_, _, a, b) => [a, b]
    case _ => []
  }

  /** A block still collecting items. */
  datatype Open = Open(id: BlockId, items: seq<Item>)

  /** `loops` are the header of each loop around and the block after it. */
  datatype Building = Building(blocks: Blocks, counters: map<string, nat>, loops: seq<(BlockId, BlockId)>,
    handlers: seq<seq<BlockId>>)

  /** The block left open, if control stays in the statements; or a break or continue outside
      any loop. */
  datatype Laid = Laid(b: Building, out: Option<Open>) | Failed(keyword: string)

  function Count(b: Building, kind: string): nat {
    if kind in b.counters then b.counters[kind] else 0
  }

  function Next(b: Building, kind: string): BlockId {
    Node(kind, Count(b, kind) + 1)
  }

  function Counted(b: Building, kind: string): Building {
    b.(counters := b.counters[kind := Count(b, kind) + 1])
  }

  function ExceptionTargets(b: Building): seq<BlockId> {
    if b.handlers == [] then [] else b.handlers[|b.handlers| - 1]
  }

  function Finished(b: Building, open: Open, terminator: Exit): Building {
    b.(blocks := b.blocks[open.id := CfgBlock(open.id, open.items, terminator, ExceptionTargets(b))])
  }

  function Appended(open: Open, items: seq<Item>): Open {
    open.(items := open.items + items)
  }

  function Enters(contexts: seq<string>): seq<Item> {
    seq(|contexts|, i requires 0 <= i < |contexts| => EnterWith(contexts[i]))
  }

  function Exits(contexts: seq<string>): seq<Item> {
    seq(|contexts|, i requires 0 <= i < |contexts| => ExitWith(contexts[|contexts| - 1 - i]))
  }

  // ---- which statements leave no block open, and which fail ----

  predicate Leaves(s: Statement, continued: bool)
    decreases Size(s), 0
  {
    match s
    case Simple(_) => false
    case With(_, body) => LeavesAll(body)
    case Return(_) => true
    case Raise(_) => true
    case Break => true
    case Continue => true
    case _ => continued
  }

  predicate LeavesAll(statements: seq<Statement>)
    decreases SizeAll(statements), 1
  {
    statements != [] && Leaves(statements[|statements| - 1], false)
  }

  /** A break or continue stands outside any loop. The `else` of a `try` whose body never falls
      through is not looked at. */
  predicate Strays(s: Statement, inLoop: bool)
    decreases Size(s), 0
  {
    match s
    case Break => !inLoop
    case Continue => !inLoop
    case If(_, body, orelse) => StraysAll(body, inLoop) || StraysAll(orelse, inLoop)
    case While(setup, _, body, orelse) =>
      if setup == [] then StraysAll(body, true) || StraysAll(orelse, inLoop)
      else StraysAll(setup, true) || StraysAll(orelse, true) || StraysAll(body, true)
    case For(_, _, body, orelse) => StraysAll(body, true) || StraysAll(orelse, inLoop)
    case With(_, body) => StraysAll(body, inLoop)
    case Try(body, handlers, orelse, finalbody) =>
      StraysAll(body, inLoop) || (!LeavesAll(body) && StraysAll(orelse, inLoop)) || StraysHandlers(handlers, inLoop)
        || StraysAll(finalbody, inLoop)
    case _ => false
  }

  predicate StraysAll(statements: seq<Statement>, inLoop: bool)
    decreases SizeAll(statements), |statements| + 1
  {
    statements != [] && (StraysAll(statements[..|statements| - 1], inLoop)
      || Strays(statements[|statements| - 1], inLoop))
  }

  predicate StraysHandlers(handlers: seq<Handler>, inLoop: bool)
    decreases SizeHandlers(handlers), |handlers| + 1
  {
    handlers != [] && (StraysHandlers(handlers[..|handlers| - 1], inLoop)
      || StraysAll(handlers[|handlers| - 1].body, inLoop))
  }

  // ---- the layout ----

  function LayStatement(b: Building, s: Statement, open: Open, continuation: Option<BlockId>): (r: Laid)
    ensures r.Laid? ==>
      r.b.loops == b.loops && r.b.handlers == b.handlers && (r.out.None? <==> Leaves(s, continuation.Some?))
    decreases Size(s), 1
  {
    match s
    case Simple(text) => Laid(b, Some(Appended(open, [Plain(text)])))
    case Return(v) => Laid(Finished(b, open, Leave(v)), None)
    case Raise(e) => Laid(Finished(b, open, Throw(e)), None)
    case Break => if b.loops == [] then Failed("break") else Laid(Finished(b, open, Jump(b.loops[|b.loops| - 1].1)),
      None)
    case Continue => if b.loops == [] then Failed("continue")
      else Laid(Finished(b, open, Jump(b.loops[|b.loops| - 1].0)), None)
    case If(_, _, _) => LayIf(b, s, open, continuation)
    case While(setup, _, _, _) =>
      if setup == [] then LayLoop(b, s, open, continuation)
      else
        RewrittenSmaller(s);
        LayLoop(b, Rewritten(s), open, continuation)
    case For(_, _, _, _) => LayLoop(b, s, open, continuation)
    case With(contexts, body) =>
      var r := LayAll(b, body, Appended(open, Enters(contexts)), None);
      if r.Failed? || r.out.None? then r else Laid(r.b, Some(Appended(r.out.value, Exits(contexts))))
    case Try(_, _, _, _) => LayTry(b, s, open, continuation)
  }

  /** All the statements. If the last block is still open, it is given a jump to the continuation, when there is one. */
  function LayAll(b: Building, statements: seq<Statement>, open: Open, continuation: Option<BlockId>): (r: Laid)
    ensures r.Laid? ==>
      r.b.loops == b.loops && r.b.handlers == b.handlers
      && (r.out.None? <==> continuation.Some? || LeavesAll(statements))
    decreases SizeAll(statements), |statements| + 3
  {
    var r := LayUpTo(b, statements, |statements|, open, continuation);
    if r.Laid? && r.out.Some? && continuation.Some? then Laid(Finished(r.b, r.out.value, Jump(continuation.value)),
      None)
    else r
  }

  /** The first `k` statements; what follows a statement that leaves starts a dead block. */
  function LayUpTo(b: Building, statements: seq<Statement>, k: nat, open: Open,
      continuation: Option<BlockId>): (r: Laid)
    requires k <= |statements|
    ensures r.Laid? ==> r.b.loops == b.loops && r.b.handlers == b.handlers
    ensures r.Laid? ==> (r.out.None? <==> 0 < k == |statements| && Leaves(statements[k - 1], continuation.Some?))
    decreases SizeAll(statements), k + 2
  {
    if k == 0 then Laid(b, Some(open))
    else
      var r := LayUpTo(b, statements, k - 1, open, continuation);
      if r.Failed? then r
      else
        var r' := LayStatement(r.b, statements[k - 1], r.out.value, if k == |statements| then continuation else None);
        if r'.Laid? && r'.out.None? && k < |statements|
          then Laid(Counted(r'.b, "dead"), Some(Open(Next(r'.b, "dead"), [])))
        else r'
  }

  /** The blocks of an `if`; without an `else` clause the second target is where the two meet. */
  datatype IfIds = IfIds(merge: BlockId, thenBlock: BlockId, elseBlock: BlockId)

  function TakeIfIds(b: Building, s: Statement, continuation: Option<BlockId>): (Building, IfIds)
    requires s.If?
  {
    var (b1, merge) := if continuation.Some? then (b, continuation.value) else (Counted(b, "merge"), Next(b, "merge"));
    var b2 := Counted(b1, "then");
    if s.orelse != [] then (Counted(b2, "else"), IfIds(merge, Next(b1, "then"), Next(b2, "else")))
    else (b2, IfIds(merge, Next(b1, "then"), merge))
  }

  function LayIf(b: Building, s: Statement, open: Open, continuation: Option<BlockId>): (r: Laid)
    requires s.If?
    ensures r.Laid? ==> r.b.loops == b.loops && r.b.handlers == b.handlers && (r.out.None? <==> continuation.Some?)
    decreases Size(s), 0
  {
    var (b1, ids) := TakeIfIds(b, s, continuation);
    var b2 := Finished(b1, open, Branch(s.condition, ids.thenBlock, ids.elseBlock));
    var r := LayAll(b2, s.body, Open(ids.thenBlock, []), Some(ids.merge));
    if r.Failed? then r
    else
      var r' := if s.orelse != [] then LayAll(r.b, s.orelse, Open(ids.elseBlock, []), Some(ids.merge)) else r;
      if r'.Failed? then r' else Laid(r'.b, if continuation.Some? then None else Some(Open(ids.merge, [])))
  }

  function LoopExit(s: Statement, body: BlockId, exit: BlockId): Exit
    requires s.While? || s.For?
  {
    if s.While? then Branch(s.condition, body, exit) else ForEach(s.target, s.iterable, body, exit)
  }

  /** The blocks of a loop; without an `else` clause it exits to the block after it. */
  datatype LoopIds = LoopIds(header: BlockId, body: BlockId, after: BlockId, exit: BlockId)

  function TakeLoopIds(b: Building, s: Statement, continuation: Option<BlockId>): (Building, LoopIds)
    requires s.While? || s.For?
  {
    var b1 := Counted(b, "loop");
    var b2 := Counted(b1, "body");
    var (b3, after) := if continuation.Some? then (b2, continuation.value) else (Counted(b2, "exit"), Next(b2, "exit"));
    if s.orelse != [] then (Counted(b3, "else"), LoopIds(Next(b, "loop"), Next(b1, "body"), after, Next(b3, "else")))
    else (b3, LoopIds(Next(b, "loop"), Next(b1, "body"), after, after))
  }

  /** The blocks before and at the header. */
  function LoopHead(b: Building, s: Statement, open: Open, ids: LoopIds): Building
    requires s.While? || s.For?
  {
    Finished(Finished(b, open, Jump(ids.header)), Open(ids.header, []), LoopExit(s, ids.body, ids.exit))
  }

  function LayLoop(b: Building, s: Statement, open: Open, continuation: Option<BlockId>): (r: Laid)
    requires s.While? || s.For?
    ensures r.Laid? ==> r.b.loops == b.loops && r.b.handlers == b.handlers && (r.out.None? <==> continuation.Some?)
    decreases Size(s), 0
  {
    var (b1, ids) := TakeLoopIds(b, s, continuation);
    var b2 := LoopHead(b1, s, open, ids);
    var r := LayAll(b2.(loops := b.loops + [(ids.header, ids.after)]), s.body, Open(ids.body, []), Some(ids.header));
    if r.Failed? then r
    else
      var b3 := r.b.(loops := b.loops);
      var r' := if s.orelse != [] then LayAll(b3, s.orelse, Open(ids.exit, []), Some(ids.after)) else Laid(b3, None);
      if r'.Failed? then r' else Laid(r'.b, if continuation.Some? then None else Some(Open(ids.after, [])))
  }

  function NextIds(b: Building, kind: string, n: nat): (Building, seq<BlockId>) {
    if n == 0 then (b, [])
    else
      var (b', ids) := NextIds(b, kind, n - 1);
      (Counted(b', kind), ids + [Next(b', kind)])
  }

  lemma NextIdsLength(b: Building, kind: string, n: nat)
    ensures |NextIds(b, kind, n).1| == n
    ensures NextIds(b, kind, n).0 == b.(counters := NextIds(b, kind, n).0.counters)
  {
  }

  /** The blocks of a `try`. */
  datatype TryIds = TryIds(body: BlockId, handlers: seq<BlockId>, orelse: BlockId, final: BlockId, after: BlockId,
    join: BlockId)

  /** Their ids, in the order they are taken; an id not needed is the block after. */
  function TakeTryIds(b: Building, s: Statement, continuation: Option<BlockId>): (Building, TryIds)
    requires s.Try?
  {
    var (b1, body) := (Counted(b, "try"), Next(b, "try"));
    var (b2, handlers) := NextIds(b1, "handler", |s.handlers|);
    var b3 := if s.orelse != [] then Counted(b2, "else") else b2;
    var b4 := if s.finalbody != [] then Counted(b3, "finally") else b3;
    var (b5, after) := if continuation.Some? then (b4, continuation.value)
      else (Counted(b4, "after"), Next(b4, "after"));
    var join := if s.finalbody != [] then Next(b3, "finally") else after;
    (b5, TryIds(body, handlers, if s.orelse != [] then Next(b2, "else") else after, join, after, join))
  }

  function LayTry(b: Building, s: Statement, open: Open, continuation: Option<BlockId>): (r: Laid)
    requires s.Try?
    ensures r.Laid? ==> r.b.loops == b.loops && r.b.handlers == b.handlers && (r.out.None? <==> continuation.Some?)
    decreases Size(s), 0
  {
    NextIdsLength(Counted(b, "try"), "handler", |s.handlers|);
    var (b1, ids) := TakeTryIds(b, s, continuation);
    var b2 := Finished(b1, open, Jump(ids.body));
    var r := LayAll(b2.(handlers := b.handlers + [ids.handlers]), s.body, Open(ids.body, []), None);
    if r.Failed? then r
    else
      var b3 := if r.out.Some? then Finished(r.b, r.out.value, Jump(if s.orelse != [] then ids.orelse else ids.join))
        else r.b;
      var b4 := b3.(handlers := b.handlers);
      var r4 := if r.out.Some? && s.orelse != [] then LayAll(b4, s.orelse, Open(ids.orelse, []), Some(ids.join))
        else Laid(b4, None);
      if r4.Failed? then r4
      else
        var r5 := LayHandlers(r4.b, s.handlers, ids.handlers, |s.handlers|, ids.join);
        if r5.Failed? then r5
        else
          var r6 := if s.finalbody != [] then LayAll(r5.b, s.finalbody, Open(ids.final, []), Some(ids.after)) else r5;
          if r6.Failed? then r6 else Laid(r6.b, if continuation.Some? then None else Some(Open(ids.after, [])))
  }

  /** The first `k` handlers. */
  function LayHandlers(b: Building, handlers: seq<Handler>, ids: seq<BlockId>, k: nat, join: BlockId): (r: Laid)
    requires k <= |handlers| == |ids|
    ensures r.Laid? ==> r.b.loops == b.loops && r.b.handlers == b.handlers
    decreases SizeHandlers(handlers), k
  {
    if k == 0 then Laid(b, None)
    else
      var r := LayHandlers(b, handlers, ids, k - 1, join);
      if r.Failed? then r
      else LayAll(r.b, handlers[k - 1].body, Open(ids[k - 1], [EnterHandler(handlers[k - 1].name)]), Some(join))
  }

  /** A whole function body, from the entry. */
  function LayBody(body: seq<Statement>): Laid {
    var r := LayAll(Building(map[], map[], [], []), body, Open(ENTRY, []), None);
    if r.Laid? && r.out.Some? then Laid(Finished(r.b, r.out.value, Leave(None)), None) else r
  }

  // ---- the builder only adds blocks, each finished once ----

  ghost predicate Known(b: Building, id: BlockId) {
    id == ENTRY || 1 <= id.number <= Count(b, id.name)
  }

  ghost predicate Sane(b: Building) {
    forall id :: id in b.blocks ==> Known(b, id) && b.blocks[id].id == id
  }

  /** From `b` on only blocks of `mine`, or with ids not taken before, were finished. */
  ghost predicate Grows(b: Building, b': Building, mine: set<BlockId>) {
    && Sane(b')
    && (forall kind :: Count(b, kind) <= Count(b', kind))
    && (forall id :: id in b.blocks ==> id in b'.blocks && b'.blocks[id] == b.blocks[id])
    && (forall id :: id in b'.blocks ==> id in b.blocks || id in mine || !Known(b, id))
  }

  /** The open block was finished, or is still open; its items only grew. */
  ghost predicate Kept(b': Building, open: Open, out: Option<Open>) {
    || (open.id in b'.blocks && open.items <= b'.blocks[open.id].items)
    || (out.Some? && out.value.id == open.id && open.items <= out.value.items)
  }

  ghost predicate OutOk(b: Building, b': Building, open: Open, out: Option<Open>) {
    out.Some? ==>
      out.value.id !in b'.blocks && Known(b', out.value.id) && (out.value.id == open.id || !Known(b, out.value.id))
  }

  ghost predicate Ready(b: Building, open: Open) {
    Sane(b) && Known(b, open.id) && open.id !in b.blocks
  }

  /** What laying out does to the state, whatever is laid out. */
  ghost predicate Frame(b: Building, open: Open, b': Building, out: Option<Open>) {
    Grows(b, b', {open.id}) && Kept(b', open, out) && OutOk(b, b', open, out)
  }

  lemma GrowsOn(b: Building, b1: Building, b2: Building, mine: set<BlockId>, mine': set<BlockId>)
    requires Grows(b, b1, mine) && Grows(b1, b2, mine')
    requires forall id :: id in mine' ==> id in mine || !Known(b, id)
    ensures Grows(b, b2, mine)
  {
  }

  lemma CountedGrows(b: Building, kind: string)
    requires Sane(b)
    ensures Grows(b, Counted(b, kind), {}) && !Known(b, Next(b, kind)) && Known(Counted(b, kind), Next(b, kind))
      && Next(b, kind) !in b.blocks
    ensures Counted(b, kind).blocks == b.blocks
  {
  }

  lemma FinishedGrows(b: Building, open: Open, terminator: Exit)
    requires Ready(b, open)
    ensures Grows(b, Finished(b, open, terminator), {open.id}) && Frame(b, open, Finished(b, open, terminator), None)
  {
  }

  /** Changing the loops and handlers in force changes nothing of this. */
  lemma SameButContext(b: Building, b': Building, c: Building, c': Building, mine: set<BlockId>)
    requires Grows(b, b', mine) && b.blocks == c.blocks && b.counters == c.counters && b'.blocks == c'.blocks
      && b'.counters == c'.counters
    ensures Grows(c, c', mine)
  {
    forall id ensures Known(b, id) == Known(c, id) && Known(b', id) == Known(c', id) {
    }
    forall kind ensures Count(b, kind) == Count(c, kind) && Count(b', kind) == Count(c', kind) {
    }
  }
}
