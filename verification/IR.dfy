/** The intermediate representation, before and after SSA conversion, and one abstract machine
    that runs both forms. What an operation computes, and how it changes the world, is left
    open. */
module IR {
  import opened Graphs
  import opened Options

  type BlockId = Node
  type Value = nat

  datatype Literal =
    | NoneLiteral
    | BoolLiteral(b: bool)
    | IntLiteral(i: int)
    | FloatLiteral(r: real)
    | TextLiteral(s: string)

  /** What an operation does. Constants, arithmetic and comparisons are told apart; every
      other instruction is its kind. */
  datatype Op =
    | Constant(literal: Literal)
    | BinaryOp(operator: string)
    | UnaryOp(operator: string)
    | Compare(operator: string)
    | Other(kind: string)

  datatype Instruction =
    | LoadLocal(result: Value, name: string)
    | StoreLocal(name: string, value: Value)
    | Operation(outcome: Option<Value>, op: Op, operands: seq<Value>)
    | Phi(result: Value, name: string, incoming: seq<(Value, BlockId)>)
    | Undefined(result: Value, name: string)

  datatype Terminator =
    | Return(values: seq<Value>)
    | Raise(values: seq<Value>)
    | Branch(condition: Value, thenBlock: BlockId, elseBlock: BlockId)
    | Jump(target: BlockId)
    | ForNext(iterated: Value, name: string, body: BlockId, exit: BlockId, result: Option<Value>)

  datatype Block = Block(id: BlockId, instructions: seq<Instruction>, terminator: Terminator,
    exceptionTargets: seq<BlockId>)

  datatype Function = Function(parameters: seq<Value>, entry: BlockId, blocks: seq<Block>)

  /** The value an instruction makes. */
  function Result(i: Instruction): Option<Value> {
    match i
    case LoadLocal(r, _) => Some(r)
    case StoreLocal(_, _) => None
    case Operation(r, _, _) => r
    case Phi(r, _, _) => Some(r)
    case Undefined(r, _) => Some(r)
  }

  function ResultOf(t: Terminator): Option<Value> {
    if t.ForNext? then t.result else None
  }

  function Targets(terminator: Terminator): seq<BlockId> {
    match terminator
    case Return(_) => []
    case Raise(_) => []
    case Branch(_, t, e) => [t, e]
    case Jump(t) => [t]
    case ForNext(_, _, b, e, _) => [b, e]
  }

  /** The targets of the terminator, then the exception edges not among them. */
  function Successors(block: Block): seq<BlockId> {
    Targets(block.terminator) + NewTargets(block.exceptionTargets, Targets(block.terminator))
  }

  function NewTargets(targets: seq<BlockId>, found: seq<BlockId>): (r: seq<BlockId>)
    ensures forall t :: t in r <==> t in targets && t !in found
  {
    if targets == [] then []
    else if targets[0] in found then NewTargets(targets[1..], found)
    else [targets[0]] + NewTargets(targets[1..], found + [targets[0]])
  }

  function Find(blocks: seq<Block>, id: BlockId): Option<Block> {
    if blocks == [] then None
    else if blocks[0].id == id then Some(blocks[0])
    else Find(blocks[1..], id)
  }

  // ---- the machine ----

  /** The meaning the machine is given: operations, truth tests, iteration steps, and the
      reading of a local that was never assigned. */
  datatype Semantics<!V, !W> = Semantics(
    apply: (Op, seq<V>, W) -> (V, W),
    truth: V -> bool,
    next: (V, W) -> (Option<V>, W),
    undefined: string -> V)

  /** What can be observed of a run: each operation with the values it reads and computes,
      and the values each terminator reads. */
  datatype Event<V> =
    | Did(op: Op, read: seq<V>, computed: V)
    | Left(read: seq<V>)

  datatype State<V, W> = State(env: map<Value, V>, locals: map<string, V>, world: W, trace: seq<Event<V>>)

  function Get<V, W>(sem: Semantics<V, W>, env: map<Value, V>, v: Value): V {
    if v in env then env[v] else sem.undefined("")
  }

  function GetAll<V, W>(sem: Semantics<V, W>, env: map<Value, V>, vs: seq<Value>): seq<V> {
    seq(|vs|, i requires 0 <= i < |vs| => Get(sem, env, vs[i]))
  }

  function Local<V, W>(sem: Semantics<V, W>, locals: map<string, V>, name: string): V {
    if name in locals then locals[name] else sem.undefined(name)
  }

  /** One instruction. The phis of a block have all been read on entry. */
  function Do<V, W>(sem: Semantics<V, W>, i: Instruction, s: State<V, W>): State<V, W> {
    match i
    case LoadLocal(r, n) => s.(env := s.env[r := Local(sem, s.locals, n)])
    case StoreLocal(n, v) => s.(locals := s.locals[n := Get(sem, s.env, v)])
    case Operation(r, op, vs) =>
      var read := GetAll(sem, s.env, vs);
      var (x, w) := sem.apply(op, read, s.world);
      State(if r.Some? then s.env[r.value := x] else s.env, s.locals, w, s.trace + [Did(op, read, x)])
    case Phi(_, _, _) => s
    case Undefined(r, n) => s.(env := s.env[r := sem.undefined(n)])
  }

  function DoAll<V, W>(sem: Semantics<V, W>, code: seq<Instruction>, s: State<V, W>): State<V, W> {
    if code == [] then s else Do(sem, code[|code| - 1], DoAll(sem, code[..|code| - 1], s))
  }

  /** The value a phi lists for a predecessor. */
  function From(incoming: seq<(Value, BlockId)>, pred: BlockId): Option<Value> {
    if incoming == [] then None
    else if incoming[0].1 == pred then Some(incoming[0].0)
    else From(incoming[1..], pred)
  }

  /** Entering from `pred` reads every phi in the values of before. */
  function ReadPhis<V, W>(sem: Semantics<V, W>, code: seq<Instruction>, pred: BlockId, before: map<Value, V>,
      env: map<Value, V>): map<Value, V> {
    if code == [] then env
    else
      var v := if code[0].Phi? then From(code[0].incoming, pred) else None;
      ReadPhis(sem, code[1..], pred, before, if v.Some? then env[code[0].result := Get(sem, before, v.value)] else env)
  }

  /** A run: at the end of a block, before its terminator; over; or led out of the graph. */
  datatype Config<V, W> =
    | At(block: BlockId, state: State<V, W>)
    | Over(state: State<V, W>)
    | Stuck

  /** At the end of a block the run follows its terminator, or a statement of the block raised
      into a handler. */
  datatype Choice = Follow | Raises(handler: BlockId)

  function Enter<V, W>(sem: Semantics<V, W>, f: Function, pred: BlockId, target: BlockId, s: State<V, W>): Config<V,
      W> {
    match Find(f.blocks, target)
    case None => Stuck
    case Some(b) => At(target, DoAll(sem, b.instructions, s.(env := ReadPhis(sem, b.instructions, pred, s.env, s.env))))
  }

  function Leave<V, W>(sem: Semantics<V, W>, f: Function, b: Block, s: State<V, W>): Config<V, W> {
    match b.terminator
    case Return(vs) => Over(s.(trace := s.trace + [Left(GetAll(sem, s.env, vs))]))
    case Raise(vs) => Over(s.(trace := s.trace + [Left(GetAll(sem, s.env, vs))]))
    case Jump(t) => Enter(sem, f, b.id, t, s.(trace := s.trace + [Left([])]))
    case Branch(c, t, e) =>
      var x := Get(sem, s.env, c);
      Enter(sem, f, b.id, if sem.truth(x) then t else e, s.(trace := s.trace + [Left([x])]))
    case ForNext(it, n, body, exit, r) =>
      var x := Get(sem, s.env, it);
      var (item, w) := sem.next(x, s.world);
      var s' := s.(world := w, trace := s.trace + [Left([x])]);
      if item.None? then Enter(sem, f, b.id, exit, s')
      else if r.Some? then Enter(sem, f, b.id, body, s'.(env := s'.env[r.value := item.value]))
      else Enter(sem, f, b.id, body, s'.(locals := s'.locals[n := item.value]))
  }

  function Move<V, W>(sem: Semantics<V, W>, f: Function, c: Config<V, W>, choice: Choice): Config<V, W> {
    if !c.At? then c
    else
      match Find(f.blocks, c.block)
      case None => Stuck
      case Some(b) =>
        if choice.Follow? then Leave(sem, f, b, c.state)
        else if choice.handler in b.exceptionTargets then Enter(sem, f, b.id, choice.handler, c.state)
        else Stuck
  }

  function Start<V, W>(sem: Semantics<V, W>, f: Function, arguments: map<Value, V>, w: W): Config<V, W> {
    match Find(f.blocks, f.entry)
    case None => Stuck
    case Some(b) => At(f.entry, DoAll(sem, b.instructions, State(arguments, map[], w, [])))
  }

  /** The values a call passes. */
  function Bind<V>(parameters: seq<Value>, arguments: seq<V>): map<Value, V>
    requires |arguments| == |parameters|
  {
    if parameters == [] then map[]
    else
      var last := |parameters| - 1;
      Bind(parameters[..last], arguments[..last])[parameters[last] := arguments[last]]
  }

  /** The run that makes the given choices. */
  function Run<V, W>(sem: Semantics<V, W>, f: Function, arguments: map<Value, V>, w: W, choices: seq<Choice>): Config<V,
      W> {
    if choices == [] then Start(sem, f, arguments, w)
    else Move(sem, f, Run(sem, f, arguments, w, choices[..|choices| - 1]), choices[|choices| - 1])
  }

  /** Two runs that cannot be told apart from outside. */
  ghost predicate SameOutside<V, W>(c: Config<V, W>, d: Config<V, W>) {
    match (c, d)
    case (At(b, s), At(b', s')) => b == b' && s.world == s'.world && s.trace == s'.trace
    case (Over(s), Over(s')) => s.world == s'.world && s.trace == s'.trace
    case (Stuck, Stuck) => true
    case _ => false
  }
}
