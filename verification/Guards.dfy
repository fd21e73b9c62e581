/** The conditions that hold at a sink because of the branches that dominate it. */
module Guards {
  import opened Graphs
  import opened Options
  import opened Trees
  import opened DominatorTrees
  import opened IR
  import opened SSAForm
  import opened SSAProperties

  /** The condition of a branch, and the answer it must have given last. */
  datatype Guard = Guard(condition: Value, truth: bool)

  /** A walk that keeps off a node. */
  ghost predicate WalkOff(succ: Table, p: seq<Node>, a: Node, b: Node, off: Node) {
    WalkTo(succ, p, a, b) && off !in p
  }

  ghost predicate ReachesOff(succ: Table, a: Node, b: Node, off: Node) {
    exists p :: WalkOff(succ, p, a, b, off)
  }

  // ---- the search ----

  /** Every walk from `start` off `off` to `target` has a node waiting to be looked at, if the
      rest of it was not looked at yet. */
  ghost predicate Open(succ: Table, seen: set<Node>, pending: seq<Node>, off: Node) {
    forall a, b :: a in seen && Edge(succ, a, b) && b != off ==> b in seen || b in pending
  }

  lemma {:induction false} OpenReaches(succ: Table, seen: set<Node>, pending: seq<Node>, p: seq<Node>, a: Node, b: Node,
      off: Node)
    requires Open(succ, seen, pending, off) && WalkOff(succ, p, a, b, off) && a in seen && b !in seen
    ensures pending != []
    decreases |p|
  {
    if |p| > 1 && p[1] in seen {
      assert p[1..][0] == p[1];
      forall i | 0 <= i < |p[1..]| - 1 ensures Edge(succ, p[1..][i], p[1..][i + 1]) {
        assert Edge(succ, p[i + 1], p[i + 1 + 1]);
      }
      assert Edge(succ, p[0], p[0 + 1]);
      SeenInTable(succ, p, 1);
      OpenReaches(succ, seen, pending, p[1..], p[1], b, off);
    } else if |p| > 1 {
      assert Edge(succ, p[0], p[0 + 1]);
    }
  }

  lemma SeenInTable(succ: Table, p: seq<Node>, i: nat)
    requires IsWalk(succ, p) && i < |p| && (i + 1 < |p| || p[i] in succ)
    ensures p[i] in succ
  {
    if i + 1 < |p| {
      assert Edge(succ, p[i], p[i + 1]);
    }
  }

  /** Whether some walk from `start` gets to `target` off `avoiding`. */
  method Reaches(succ: Table, start: Node, target: Node, avoiding: Node) returns (r: bool)
    requires Closed(succ) && start in succ && target != avoiding
    ensures r <==> ReachesOff(succ, start, target, avoiding)
  {
    hide Open, ReachesOff;
    var seen: set<Node>, pending := {}, [start];
    NothingSeen(succ, start, avoiding);
    while pending != []
      invariant seen <= succ.Keys && target !in seen
      invariant forall x :: x in seen ==> ReachesOff(succ, start, x, avoiding)
      invariant forall x :: x in pending ==> x in succ && Near(succ, start, x, avoiding)
      invariant Open(succ, seen, pending, avoiding) && (start in seen || start in pending || start == avoiding)
      decreases succ.Keys - seen, |pending|
    {
      var block := pending[|pending| - 1];
      ghost var before := pending;
      pending := pending[..|pending| - 1];
      assert before == pending + [block];
      if block == target {
        NearReaches(succ, start, block, avoiding);
        return true;
      }
      if block in seen || block == avoiding {
        OpenWithout(succ, seen, pending, block, avoiding);
      } else {
        NearReaches(succ, start, block, avoiding);
        NextNear(succ, start, block, avoiding);
        OpenMore(succ, seen, pending, block, avoiding);
        assert block in succ.Keys - seen;
        seen := seen + {block};
        pending := pending + succ[block];
      }
    }
    r := false;
    if ReachesOff(succ, start, target, avoiding) {
      NoneLeft(succ, seen, start, target, avoiding);
    }
  }

  /** The start, or one step from a node reached. */
  ghost predicate Near(succ: Table, start: Node, x: Node, off: Node) {
    x == start || exists y :: ReachesOff(succ, start, y, off) && Edge(succ, y, x)
  }

  lemma NearReaches(succ: Table, start: Node, x: Node, off: Node)
    requires start in succ && Near(succ, start, x, off) && x != off
    ensures ReachesOff(succ, start, x, off)
  {
    if x == start {
      assert WalkOff(succ, [start], start, x, off);
    } else {
      var y :| ReachesOff(succ, start, y, off) && Edge(succ, y, x);
      var p :| WalkOff(succ, p, start, y, off);
      WalkExtend(succ, p, x);
      assert WalkOff(succ, p + [x], start, x, off);
    }
  }

  lemma NextNear(succ: Table, start: Node, x: Node, off: Node)
    requires ReachesOff(succ, start, x, off) && Closed(succ) && x in succ
    ensures forall y :: y in succ[x] ==> y in succ && Near(succ, start, y, off)
  {
    forall y | y in succ[x] ensures y in succ && Near(succ, start, y, off) {
      assert Edge(succ, x, y);
    }
  }

  lemma NothingSeen(succ: Table, start: Node, off: Node)
    ensures Open(succ, {}, [start], off) && Near(succ, start, start, off)
  {
  }

  lemma OpenWithout(succ: Table, seen: set<Node>, pending: seq<Node>, x: Node, off: Node)
    requires Open(succ, seen, pending + [x], off) && (x in seen || x == off)
    ensures Open(succ, seen, pending, off)
  {
  }

  lemma OpenMore(succ: Table, seen: set<Node>, pending: seq<Node>, x: Node, off: Node)
    requires Open(succ, seen, pending + [x], off) && x in succ
    ensures Open(succ, seen + {x}, pending + succ[x], off)
  {
    forall a, b | a in seen + {x} && Edge(succ, a, b) && b != off ensures b in seen + {x} || b in pending + succ[x] {
      if a in seen {
        assert b in seen || b in pending + [x];
      }
    }
  }

  lemma NoneLeft(succ: Table, seen: set<Node>, start: Node, target: Node, off: Node)
    requires Open(succ, seen, [], off) && (start in seen || start == off) && target !in seen
    ensures !ReachesOff(succ, start, target, off)
  {
    if ReachesOff(succ, start, target, off) {
      var p :| WalkOff(succ, p, start, target, off);
      assert p[0] == start;
      OpenReaches(succ, seen, [], p, start, target, off);
    }
  }

  // ---- guards ----

  /** Exactly one side of a branch dominating the sink leads to it without coming back. */
  ghost predicate IsGuard(f: Function, sink: BlockId, d: BlockId, g: Guard) {
    var succ := SuccessorTable(f.blocks);
    && StrictlyDominates(succ, f.entry, d, sink) && Find(f.blocks, d).Some?
    && var t := Find(f.blocks, d).value.terminator;
    && t.Branch? && g.condition == t.condition
    && ReachesOff(succ, t.thenBlock, sink, d) != ReachesOff(succ, t.elseBlock, sink, d)
    && g.truth == ReachesOff(succ, t.thenBlock, sink, d)
  }

  /** Climbing on from `from` no longer meets `d`. */
  ghost predicate Passed(tree: DominatorTree, from: Option<BlockId>, d: BlockId)
    requires IsTree(tree.root, tree.depth, tree.idom)
  {
    !(from.Some? && from.value in tree.idom && d in Anc(tree.root, tree.depth, tree.idom, from.value))
  }

  /** The guards of the dominators climbed past. */
  ghost predicate GuardsAbove(f: Function, tree: DominatorTree, sink: BlockId, from: Option<BlockId>, found: seq<Guard>)
    requires IsTree(tree.root, tree.depth, tree.idom)
  {
    forall g :: g in found <==> exists d :: IsGuard(f, sink, d, g) && Passed(tree, from, d)
  }

  /** Climbs from the sink, one dominator at a time. */
  method GuardsOf(f: Function, tree: DominatorTree, sink: BlockId) returns (found: seq<Guard>)
    requires tree.Of(SuccessorTable(f.blocks)) && tree.root == f.entry && sink in tree.idom
    ensures forall g :: g in found <==> exists d :: IsGuard(f, sink, d, g)
  {
    hide DominatorTree.Of, SuccessorTable, IsGuard, Anc, Edge;
    var succ := SuccessorTable(f.blocks);
    TreeFacts(f, tree);
    found := [];
    var dominator := tree.idom[sink];
    AllAbove(f, tree, sink);
    while dominator.Some?
      invariant dominator.Some? ==>
        dominator.value in tree.idom && StrictlyDominates(succ, f.entry, dominator.value, sink)
      invariant GuardsAbove(f, tree, sink, dominator, found)
      decreases if dominator.Some? then tree.depth[dominator.value] + 1 else 0
    {
      var d := dominator.value;
      DominatorFound(f, tree, d);
      ghost var before := found;
      var terminator := Find(f.blocks, d).value.terminator;
      if terminator.Branch? {
        var thenReaches := Reaches(succ, terminator.thenBlock, sink, d);
        var elseReaches := Reaches(succ, terminator.elseBlock, sink, d);
        if thenReaches != elseReaches {
          found := found + [Guard(terminator.condition, thenReaches)];
        }
      }
      ClimbedOne(f, tree, sink, d, before, found);
      dominator := tree.idom[d];
    }
  }

  lemma TreeFacts(f: Function, tree: DominatorTree)
    requires tree.Of(SuccessorTable(f.blocks))
    ensures IsTree(tree.root, tree.depth, tree.idom) && Closed(SuccessorTable(f.blocks))
  {
  }

  lemma DominatorFound(f: Function, tree: DominatorTree, d: BlockId)
    requires tree.Of(SuccessorTable(f.blocks)) && d in tree.idom
    ensures Find(f.blocks, d).Some?
    ensures forall t :: t in Targets(Find(f.blocks, d).value.terminator) ==> t in SuccessorTable(f.blocks)
    ensures tree.idom[d].Some? ==>
      tree.idom[d].value in tree.idom && tree.idom[d].value in tree.depth && d in tree.depth
      && tree.depth[tree.idom[d].value] < tree.depth[d]
  {
    var succ := SuccessorTable(f.blocks);
    assert Graphs.Reaches(succ, tree.root, d);
    var p :| WalkTo(succ, p, tree.root, d);
    InTable(succ, p);
    forall t | t in Targets(Find(f.blocks, d).value.terminator) ensures t in succ {
      assert Edge(succ, d, t);
    }
    if d != tree.root {
      assert HasParent(tree.depth, tree.idom, d);
    }
  }

  lemma InTable(succ: Table, p: seq<Node>)
    requires Closed(succ) && IsWalk(succ, p)
    ensures p[|p| - 1] in succ
  {
    if |p| > 1 {
      assert Edge(succ, p[|p| - 2], p[|p| - 2 + 1]);
    }
  }

  lemma AllAbove(f: Function, tree: DominatorTree, sink: BlockId)
    requires tree.Of(SuccessorTable(f.blocks)) && tree.root == f.entry && sink in tree.idom
    ensures GuardsAbove(f, tree, sink, tree.idom[sink], [])
    ensures tree.idom[sink].Some? ==>
      tree.idom[sink].value in tree.idom && StrictlyDominates(SuccessorTable(f.blocks), f.entry, tree.idom[sink].value,
      sink)
  {
    hide SuccessorTable;
    var succ := SuccessorTable(f.blocks);
    forall g, d | IsGuard(f, sink, d, g) ensures !Passed(tree, tree.idom[sink], d) && tree.idom[sink].Some?
      && tree.idom[sink].value in tree.idom && d in Anc(tree.root, tree.depth, tree.idom, tree.idom[sink].value) {
      AboveParent(tree, succ, sink, d);
    }
    if sink != tree.root {
      ParentIsClosest(tree, succ, sink, sink);
      assert HasParent(tree.depth, tree.idom, sink);
    }
  }

  /** A strict dominator is above the parent. */
  lemma AboveParent(tree: DominatorTree, succ: Table, b: BlockId, d: BlockId)
    requires tree.Of(succ) && b in tree.idom && StrictlyDominates(succ, tree.root, d, b)
    ensures b != tree.root && tree.idom[b].Some? && tree.idom[b].value in tree.idom
      && d in Anc(tree.root, tree.depth, tree.idom, tree.idom[b].value)
  {
    assert Graphs.Dominates(succ, tree.root, d, b) <==> d in Anc(tree.root, tree.depth, tree.idom, b);
    if b != tree.root {
      assert HasParent(tree.depth, tree.idom, b);
    }
  }

  lemma ClimbedOne(f: Function, tree: DominatorTree, sink: BlockId, d: BlockId, before: seq<Guard>, found: seq<Guard>)
    requires tree.Of(SuccessorTable(f.blocks)) && tree.root == f.entry && d in tree.idom && sink in tree.idom
    requires StrictlyDominates(SuccessorTable(f.blocks), f.entry, d, sink) && Find(f.blocks, d).Some?
    requires GuardsAbove(f, tree, sink, Some(d), before)
    requires var t := Find(f.blocks, d).value.terminator; var succ := SuccessorTable(f.blocks);
      found == if t.Branch? && ReachesOff(succ, t.thenBlock, sink, d) != ReachesOff(succ, t.elseBlock, sink, d)
               then before + [Guard(t.condition, ReachesOff(succ, t.thenBlock, sink, d))] else before
    ensures GuardsAbove(f, tree, sink, tree.idom[d], found)
    ensures tree.idom[d].Some? ==>
      tree.idom[d].value in tree.idom && StrictlyDominates(SuccessorTable(f.blocks), f.entry, tree.idom[d].value, sink)
  {
    hide SuccessorTable, ReachesOff, Find, Passed, DominatorTree.Of;
    var succ := SuccessorTable(f.blocks);
    TreeFacts(f, tree);
    UpFrom(tree, succ, sink, d);
    forall c ensures Passed(tree, tree.idom[d], c) <==> c == d || Passed(tree, Some(d), c) {
      PassedOne(tree, succ, sink, d, c);
    }
    forall g ensures g in found <==> g in before || IsGuard(f, sink, d, g) {
    }
  }

  lemma PassedOne(tree: DominatorTree, succ: Table, sink: BlockId, d: BlockId, c: BlockId)
    requires tree.Of(succ) && d in tree.idom && sink in tree.idom && StrictlyDominates(succ, tree.root, d, sink)
    ensures Passed(tree, tree.idom[d], c) <==> c == d || Passed(tree, Some(d), c)
  {
    UpFrom(tree, succ, sink, d);
  }

  lemma UpFrom(tree: DominatorTree, succ: Table, sink: BlockId, d: BlockId)
    requires tree.Of(succ) && d in tree.idom && sink in tree.idom && StrictlyDominates(succ, tree.root, d, sink)
    ensures if d == tree.root then tree.idom[d] == None && Anc(tree.root, tree.depth, tree.idom, d) == {d}
            else tree.idom[d].Some? && tree.idom[d].value in tree.idom
                 && Anc(tree.root, tree.depth, tree.idom, d) == {d} + Anc(tree.root, tree.depth, tree.idom,
                   tree.idom[d].value)
                 && d !in Anc(tree.root, tree.depth, tree.idom, tree.idom[d].value)
                 && StrictlyDominates(succ, tree.root, tree.idom[d].value, sink)
  {
    if d != tree.root {
      assert HasParent(tree.depth, tree.idom, d);
      var up := tree.idom[d].value;
      if d in Anc(tree.root, tree.depth, tree.idom, up) {
        AncBasics(tree.root, tree.depth, tree.idom, up, d);
      }
      AboveParent(tree, succ, sink, d);
      assert d in Anc(tree.root, tree.depth, tree.idom, sink);
      AncBasics(tree.root, tree.depth, tree.idom, sink, d);
      RootAbove(tree.root, tree.depth, tree.idom, up);
      assert Graphs.Dominates(succ, tree.root, up, sink) <==> up in Anc(tree.root, tree.depth, tree.idom, sink);
    }
  }

  // ---- runs ----

  /** The blocks a run visits. */
  ghost function Visited<V, W>(sem: Semantics<V, W>, f: Function, arguments: map<Value, V>, w: W,
      choices: seq<Choice>): seq<BlockId> {
    var c := Run(sem, f, arguments, w, choices);
    var here := if c.At? then c.block else f.entry;
    if choices == [] then [here] else Visited(sem, f, arguments, w, choices[..|choices| - 1]) + [here]
  }

  lemma {:induction false} VisitedAt<V, W>(sem: Semantics<V, W>, f: Function, arguments: map<Value, V>, w: W,
      choices: seq<Choice>, i: nat)
    requires i <= |choices| && Run(sem, f, arguments, w, choices).At?
    ensures |Visited(sem, f, arguments, w, choices)| == |choices| + 1
    ensures var c := Run(sem, f, arguments, w, choices[..i]);
      c.At? && c.block == Visited(sem, f, arguments, w, choices)[i]
    decreases |choices|
  {
    hide Move;
    if choices != [] {
      var n := |choices| - 1;
      var before := choices[..n];
      AtBefore(sem, f, arguments, w, choices);
      VisitedAt(sem, f, arguments, w, before, if i <= n then i else n);
      if i <= n {
        assert before[..i] == choices[..i];
      } else {
        assert choices[..i] == choices;
      }
    }
  }

  lemma AtBefore<V, W>(sem: Semantics<V, W>, f: Function, arguments: map<Value, V>, w: W, choices: seq<Choice>)
    requires choices != [] && Run(sem, f, arguments, w, choices).At?
    ensures Run(sem, f, arguments, w, choices[..|choices| - 1]).At?
  {
  }

  /** The blocks visited are a walk from the entry. */
  lemma {:induction false} VisitedWalks<V, W>(sem: Semantics<V, W>, f: Function, arguments: map<Value, V>, w: W,
      choices: seq<Choice>)
    requires Connected(f) && Run(sem, f, arguments, w, choices).At?
    ensures WalkTo(SuccessorTable(f.blocks), Visited(sem, f, arguments, w, choices), f.entry,
      Run(sem, f, arguments, w, choices).block)
  {
    hide Connected, Move, SuccessorTable;
    if choices == [] {
      EntryInTable(f);
    } else {
      var n := |choices| - 1;
      var before := choices[..n];
      AtBefore(sem, f, arguments, w, choices);
      MovesAlong(sem, f, Run(sem, f, arguments, w, before), choices[n]);
      VisitedWalks(sem, f, arguments, w, before);
      var p := Visited(sem, f, arguments, w, before);
      var to := Run(sem, f, arguments, w, choices).block;
      hide Run, Visited;
      WalkExtend(SuccessorTable(f.blocks), p, to);
    }
  }

  lemma VisitedIsWalk<V, W>(sem: Semantics<V, W>, f: Function, arguments: map<Value, V>, w: W, choices: seq<Choice>)
    requires Connected(f) && Run(sem, f, arguments, w, choices).At?
    ensures |Visited(sem, f, arguments, w, choices)| == |choices| + 1
    ensures WalkTo(SuccessorTable(f.blocks), Visited(sem, f, arguments, w, choices), f.entry,
      Run(sem, f, arguments, w, choices).block)
    ensures forall i :: 0 <= i <= |choices| ==>
      Run(sem, f, arguments, w, choices[..i]).At? && Run(sem, f, arguments, w, choices[..i]).block
      == Visited(sem, f, arguments, w, choices)[i]
  {
    hide Connected, Run, Visited, SuccessorTable;
    VisitedWalks(sem, f, arguments, w, choices);
    VisitedAt(sem, f, arguments, w, choices, 0);
    forall i | 0 <= i <= |choices| ensures Run(sem, f, arguments, w, choices[..i]).At?
      && Run(sem, f, arguments, w, choices[..i]).block == Visited(sem, f, arguments, w, choices)[i] {
      VisitedAt(sem, f, arguments, w, choices, i);
    }
  }

  lemma EntryInTable(f: Function)
    requires Connected(f)
    ensures f.entry in SuccessorTable(f.blocks)
  {
  }

  /** A move that ends in a block went over an edge: after a branch to the side its condition
      chose, or into a handler. */
  lemma MovesAlong<V, W>(sem: Semantics<V, W>, f: Function, c: Config<V, W>, choice: Choice)
    requires Move(sem, f, c, choice).At?
    ensures c.At? && Find(f.blocks, c.block).Some?
      && Edge(SuccessorTable(f.blocks), c.block, Move(sem, f, c, choice).block)
    ensures Find(f.blocks, Move(sem, f, c, choice).block).Some?
    ensures var t := Find(f.blocks, c.block).value.terminator; choice.Follow? && t.Branch? ==>
      Move(sem, f, c, choice).block == if sem.truth(Get(sem, c.state.env, t.condition)) then t.thenBlock
        else t.elseBlock
    ensures choice.Raises? ==>
      Move(sem, f, c, choice).block == choice.handler
      && choice.handler in Find(f.blocks, c.block).value.exceptionTargets
  {
    hide DoAll, ReadPhis;
    var b := Find(f.blocks, c.block).value;
    var d := Move(sem, f, c, choice);
    if choice.Follow? {
      FollowsTarget(sem, f, b, c.state);
    }
    assert d.block in Successors(b);
  }

  lemma FollowsTarget<V, W>(sem: Semantics<V, W>, f: Function, b: Block, s: State<V, W>)
    requires Leave(sem, f, b, s).At?
    ensures Leave(sem, f, b, s).block in Targets(b.terminator) && Find(f.blocks, Leave(sem, f, b, s).block).Some?
  {
  }

  // ---- a value is remade only where it is defined ----

  /** Going from `p` into `b` makes `v` anew. */
  ghost predicate Remakes(f: Function, p: BlockId, b: BlockId, v: Value)
    requires Find(f.blocks, p).Some? && Find(f.blocks, b).Some?
  {
    || v in Results(Find(f.blocks, b).value.instructions)
    || (var t := Find(f.blocks, p).value.terminator; t.ForNext? && t.body == b && t.result == Some(v))
  }

  lemma {:induction false} CodeKeeps<V, W>(sem: Semantics<V, W>, code: seq<Instruction>, s: State<V, W>, v: Value)
    requires v !in Results(code)
    ensures Get(sem, DoAll(sem, code, s).env, v) == Get(sem, s.env, v)
  {
    if code != [] {
      CodeKeeps(sem, code[..|code| - 1], s, v);
    }
  }

  lemma {:induction false} PhisKeep<V, W>(sem: Semantics<V, W>, code: seq<Instruction>, p: BlockId,
      before: map<Value, V>, env: map<Value, V>, v: Value)
    requires forall k :: 0 <= k < |code| ==> Result(code[k]) != Some(v)
    ensures Get(sem, ReadPhis(sem, code, p, before, env), v) == Get(sem, env, v)
    decreases |code|
  {
    if code != [] {
      var x := if code[0].Phi? then From(code[0].incoming, p) else None;
      assert Result(code[0]) != Some(v);
      PhisKeep(sem, code[1..], p, before, if x.Some? then env[code[0].result := Get(sem, before, x.value)] else env, v);
    }
  }

  lemma EnterKeeps<V, W>(sem: Semantics<V, W>, f: Function, p: BlockId, b: BlockId, s: State<V, W>, v: Value)
    requires Find(f.blocks, b).Some? && v !in Results(Find(f.blocks, b).value.instructions)
    ensures Enter(sem, f, p, b, s).At? && Get(sem, Enter(sem, f, p, b, s).state.env, v) == Get(sem, s.env, v)
  {
    hide DoAll, ReadPhis;
    var code := Find(f.blocks, b).value.instructions;
    InResults(code, v);
    PhisKeep(sem, code, p, s.env, s.env, v);
    CodeKeeps(sem, code, s.(env := ReadPhis(sem, code, p, s.env, s.env)), v);
  }

  lemma MoveKeeps<V, W>(sem: Semantics<V, W>, f: Function, c: Config<V, W>, choice: Choice, v: Value)
    requires Move(sem, f, c, choice).At? && c.At? && Find(f.blocks, c.block).Some?
      && Find(f.blocks, Move(sem, f, c, choice).block).Some?
    requires !Remakes(f, c.block, Move(sem, f, c, choice).block, v)
    requires OwnBodies(f)
    ensures Get(sem, Move(sem, f, c, choice).state.env, v) == Get(sem, c.state.env, v)
  {
    hide DoAll, ReadPhis, Results;
    var b := Find(f.blocks, c.block).value;
    var s := c.state;
    var t := Move(sem, f, c, choice).block;
    if choice.Raises? {
      EnterKeeps(sem, f, b.id, choice.handler, s, v);
    } else {
      match b.terminator {
        case Jump(x) => EnterKeeps(sem, f, b.id, x, s.(trace := s.trace + [Left([])]), v);
        case Branch(_, _, _) =>
          var x := Get(sem, s.env, b.terminator.condition);
          EnterKeeps(sem, f, b.id, t, s.(trace := s.trace + [Left([x])]), v);
        case ForNext(it, n, body, exit, r) =>
          var x := Get(sem, s.env, it);
          var (item, w) := sem.next(x, s.world);
          var s' := s.(world := w, trace := s.trace + [Left([x])]);
          if item.None? {
            EnterKeeps(sem, f, b.id, exit, s', v);
          } else {
            assert OwnBody(f, c.block);
            EnterKeeps(sem, f, b.id, body, s'.(env := s'.env[r.value := item.value]), v);
          }
      }
    }
  }

  ghost predicate OwnBodies(f: Function) {
    forall h {:trigger OwnBody(f, h)} :: Find(f.blocks, h).Some? && Find(f.blocks, h).value.terminator.ForNext? ==>
      OwnBody(f, h)
  }

  /** What is available at the end of `a` is made at a place that dominates `a`. */
  ghost predicate MadeAt(f: Function, x: BlockId, v: Value) {
    Find(f.blocks, x).Some? && (v in Results(Find(f.blocks, x).value.instructions) || ItemOf(f, x, v))
  }

  lemma AvailableMadeAt(f: Function, a: BlockId, v: Value) returns (x: BlockId)
    requires AvailableAtEnd(f, a, v) && v !in f.parameters && IsSSA(f)
    ensures MadeAt(f, x, v) && Dominates(SuccessorTable(f.blocks), f.entry, x, a)
  {
    var code := Find(f.blocks, a).value.instructions;
    assert code[..|code|] == code;
    if c :| DefinedAbove(f, c, a, v) {
      x := c;
    } else {
      x := a;
    }
  }

  /** There is one such place, and a run that makes the value anew enters it. */
  lemma RemadeThere(f: Function, p: BlockId, b: BlockId, x: BlockId, v: Value)
    requires IsSSA(f) && Connected(f) && Find(f.blocks, p).Some? && Find(f.blocks, b).Some?
      && Edge(SuccessorTable(f.blocks), p, b)
    requires Remakes(f, p, b, v) && MadeAt(f, x, v)
    ensures b == x
  {
    hide UsesAvailable, NoLocals, SuccessorTable, Results;
    if v in Results(Find(f.blocks, b).value.instructions) {
      assert HomeOf(f, v, b);
      if v in Results(Find(f.blocks, x).value.instructions) {
        OneHome(f, v, b, x);
      } else {
        var h :| Find(f.blocks, h).Some? && var t := Find(f.blocks, h).value.terminator; t.ForNext? && t.body == x && t.result == Some(v);
        ItemHome(f, h);
        OneHome(f, v, b, h);
        ItemIsNoResult(f, h);
      }
    } else {
      ItemHome(f, p);
      if v in Results(Find(f.blocks, x).value.instructions) {
        assert HomeOf(f, v, x);
        OneHome(f, v, p, x);
        ItemIsNoResult(f, p);
      } else {
        var h :| Find(f.blocks, h).Some? && var t := Find(f.blocks, h).value.terminator; t.ForNext? && t.body == x && t.result == Some(v);
        ItemHome(f, h);
        OneHome(f, v, p, h);
      }
    }
  }

  lemma ItemIsNoResult(f: Function, h: BlockId)
    requires Distinct(Definitions(f)) && DistinctIds(f.blocks) && Find(f.blocks, h).Some?
      && ResultOf(Find(f.blocks, h).value.terminator).Some?
    ensures ResultOf(Find(f.blocks, h).value.terminator).value !in Results(Find(f.blocks, h).value.instructions)
  {
    var k := FindWhere(f.blocks, h);
    SliceDistinct(f.parameters, AllDefined(f.blocks));
    BlockSlice(f.blocks, k);
    SlicesApart(Results(f.blocks[k].instructions), [ResultOf(f.blocks[k].terminator).value]);
  }

  lemma NotRemade(f: Function, p: BlockId, b: BlockId, v: Value)
    requires IsSSA(f) && Connected(f) && v in f.parameters && Find(f.blocks, p).Some? && Find(f.blocks, b).Some?
    ensures !Remakes(f, p, b, v)
  {
    hide UsesAvailable, NoLocals;
    if v in Results(Find(f.blocks, b).value.instructions) {
      OneHome(f, v, b, b);
    }
    if ResultOf(Find(f.blocks, p).value.terminator) == Some(v) {
      ItemHome(f, p);
      OneHome(f, v, p, p);
    }
  }

  /** The walk visits `a`, a dominator of its end, for the last time at position `i`. */
  ghost predicate LastVisited(f: Function, p: seq<BlockId>, i: nat, a: BlockId) {
    && i < |p| && WalkTo(SuccessorTable(f.blocks), p, f.entry, p[|p| - 1]) && p[i] == a && a !in p[i + 1..]
    && Dominates(SuccessorTable(f.blocks), f.entry, a, p[|p| - 1])
  }

  /** Since the last visit of `a`, a dominator of where the run is, what `a` could read has not
      been made anew. */
  lemma {:induction false} StillCurrent<V, W>(sem: Semantics<V, W>, f: Function, arguments: map<Value, V>, w: W,
      choices: seq<Choice>, i: nat, k: nat, a: BlockId, v: Value)
    requires IsSSA(f) && Connected(f) && Run(sem, f, arguments, w, choices).At? && AvailableAtEnd(f, a, v)
    requires i <= k <= |choices|
    requires LastVisited(f, Visited(sem, f, arguments, w, choices), i, a)
    ensures Run(sem, f, arguments, w, choices[..i]).At? && Run(sem, f, arguments, w, choices[..k]).At?
    ensures Get(sem, Run(sem, f, arguments, w, choices[..k]).state.env, v)
      == Get(sem, Run(sem, f, arguments, w, choices[..i]).state.env, v)
    decreases k
  {
    hide IsSSA, Connected, SuccessorTable, Run, Remakes, Move, AvailableAtEnd, LastVisited, IsWalk, Visited;
    BodiesOwned(f);
    VisitedIsWalk(sem, f, arguments, w, choices);
    if i < k {
      StillCurrent(sem, f, arguments, w, choices, i, k - 1, a, v);
      RunStep(sem, f, arguments, w, choices, k);
      var c := Run(sem, f, arguments, w, choices[..k - 1]);
      MovesAlong(sem, f, c, choices[k - 1]);
      NotRemadeAt(f, Visited(sem, f, arguments, w, choices), i, k, a, v);
      MoveKeeps(sem, f, c, choices[k - 1], v);
    }
  }

  lemma RunStep<V, W>(sem: Semantics<V, W>, f: Function, arguments: map<Value, V>, w: W, choices: seq<Choice>, k: nat)
    requires 0 < k <= |choices|
    ensures Run(sem, f, arguments, w, choices[..k]) == Move(sem, f, Run(sem, f, arguments, w, choices[..k - 1]),
      choices[k - 1])
  {
    assert choices[..k][..k - 1] == choices[..k - 1];
  }

  lemma BodiesOwned(f: Function)
    requires Connected(f)
    ensures OwnBodies(f)
  {
  }

  lemma NotRemadeAt(f: Function, p: seq<BlockId>, i: nat, k: nat, a: BlockId, v: Value)
    requires IsSSA(f) && Connected(f) && AvailableAtEnd(f, a, v) && i < k < |p| && LastVisited(f, p, i, a)
    requires Find(f.blocks, p[k - 1]).Some? && Find(f.blocks, p[k]).Some?
    ensures !Remakes(f, p[k - 1], p[k], v)
  {
    hide IsSSA, SuccessorTable, Remakes, AvailableAtEnd, MadeAt;
    if v in f.parameters {
      NotRemade(f, p[k - 1], p[k], v);
    } else {
      var x := AvailableMadeAt(f, a, v);
      assert Edge(SuccessorTable(f.blocks), p[k - 1], p[k - 1 + 1]);
      NotRevisited(SuccessorTable(f.blocks), f.entry, p, i, k, x, a, p[|p| - 1]);
      if Remakes(f, p[k - 1], p[k], v) {
        RemadeThere(f, p[k - 1], p[k], x, v);
      }
    }
  }

  // ---- guards are real ----

  lemma LastVisit(p: seq<BlockId>, a: BlockId) returns (i: nat)
    requires a in p
    ensures i < |p| && p[i] == a && a !in p[i + 1..]
  {
    i := |p| - 1;
    while p[i] != a
      invariant i < |p| && a !in p[i + 1..] && a in p[..i + 1]
      decreases i
    {
      assert p[..i + 1] == p[..i] + [p[i]];
      assert p[i..] == [p[i]] + p[i + 1..];
      i := i - 1;
    }
  }

  lemma SuffixOff(succ: Table, p: seq<BlockId>, i: nat, a: BlockId)
    requires Closed(succ) && IsWalk(succ, p) && i + 1 < |p| && a !in p[i + 1..]
    ensures ReachesOff(succ, p[i + 1], p[|p| - 1], a)
  {
    WalkSuffix(succ, p, i + 1);
    assert WalkOff(succ, p[i + 1..], p[i + 1], p[|p| - 1], a);
  }

  lemma StepOff(succ: Table, t: BlockId, h: BlockId, b: BlockId, a: BlockId)
    requires Closed(succ) && ReachesOff(succ, h, b, a) && Edge(succ, t, h) && t != a
    ensures ReachesOff(succ, t, b, a)
  {
    var p :| WalkOff(succ, p, h, b, a);
    var q := [t] + p;
    forall i | 0 <= i < |q| - 1 ensures Edge(succ, q[i], q[i + 1]) {
      if i > 0 {
        assert Edge(succ, p[i - 1], p[i - 1 + 1]);
      }
    }
    assert WalkOff(succ, q, t, b, a);
  }

  /** The run left the guarding branch for the last time by the side that leads to the sink. */
  lemma LeftByGuard<V, W>(sem: Semantics<V, W>, f: Function, c: Config<V, W>, choice: Choice, sink: BlockId, d: BlockId,
      g: Guard)
    requires Connected(f) && BranchesCarry(f) && IsGuard(f, sink, d, g) && c.At? && c.block == d
      && Move(sem, f, c, choice).At?
    requires ReachesOff(SuccessorTable(f.blocks), Move(sem, f, c, choice).block, sink, d)
    ensures sem.truth(Get(sem, c.state.env, g.condition)) == g.truth
  {
    hide Move, ReachesOff, SuccessorTable;
    MovesAlong(sem, f, c, choice);
    var t := Find(f.blocks, d).value.terminator;
    if choice.Raises? {
      assert BranchCarries(f, d);
      HandlerEdge(f, t.thenBlock, choice.handler);
      HandlerEdge(f, t.elseBlock, choice.handler);
      StepOff(SuccessorTable(f.blocks), t.thenBlock, choice.handler, sink, d);
      StepOff(SuccessorTable(f.blocks), t.elseBlock, choice.handler, sink, d);
    }
  }

  lemma HandlerEdge(f: Function, t: BlockId, h: BlockId)
    requires Find(f.blocks, t).Some? && h in Find(f.blocks, t).value.exceptionTargets
    ensures Edge(SuccessorTable(f.blocks), t, h)
  {
  }

  /** In every run that is at the sink, each guard's condition currently has the guard's truth. */
  lemma GuardsAreReal<V, W>(sem: Semantics<V, W>, f: Function, arguments: map<Value, V>, w: W, choices: seq<Choice>,
      sink: BlockId, d: BlockId, g: Guard)
    requires IsSSA(f) && Connected(f) && BranchesCarry(f) && IsGuard(f, sink, d, g)
    requires Run(sem, f, arguments, w, choices).At? && Run(sem, f, arguments, w, choices).block == sink
    ensures sem.truth(Get(sem, Run(sem, f, arguments, w, choices).state.env, g.condition)) == g.truth
  {
    hide IsSSA, Connected, SuccessorTable, Run, Move, ReachesOff, BranchesCarry, Visited, IsGuard, LastVisited,
      AvailableAtEnd;
    VisitedIsWalk(sem, f, arguments, w, choices);
    var p := Visited(sem, f, arguments, w, choices);
    assert choices[..|choices|] == choices;
    var i := GuardVisited(f, p, sink, d, g);
    StillCurrent(sem, f, arguments, w, choices, i, |choices|, d, g.condition);
    RunStep(sem, f, arguments, w, choices, i + 1);
    LeftByGuard(sem, f, Run(sem, f, arguments, w, choices[..i]), choices[i], sink, d, g);
  }

  /** A run at the sink has visited the guarding branch, and left it for the sink. */
  lemma GuardVisited(f: Function, p: seq<BlockId>, sink: BlockId, d: BlockId, g: Guard) returns (i: nat)
    requires IsSSA(f) && Connected(f) && IsGuard(f, sink, d, g) && WalkTo(SuccessorTable(f.blocks), p, f.entry, sink)
    ensures i + 1 < |p| && p[i] == d && LastVisited(f, p, i, d) && AvailableAtEnd(f, d, g.condition)
    ensures ReachesOff(SuccessorTable(f.blocks), p[i + 1], sink, d)
  {
    hide IsSSA, ReachesOff, SuccessorTable, AvailableAtEnd;
    i := LastVisit(p, d);
    GuardIsAvailable(f, d);
    SuffixOff(SuccessorTable(f.blocks), p, i, d);
  }

  lemma GuardIsAvailable(f: Function, d: BlockId)
    requires IsSSA(f) && Find(f.blocks, d).Some? && Find(f.blocks, d).value.terminator.Branch?
    ensures AvailableAtEnd(f, d, Find(f.blocks, d).value.terminator.condition)
  {
    assert UsesAvailable(f, d);
    assert Find(f.blocks, d).value.terminator.condition in Reads(Find(f.blocks, d).value.terminator);
  }
}
