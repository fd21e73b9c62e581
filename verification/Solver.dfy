/** The worklist solver. States are kept per edge and overwritten, not joined; for a monotone
    problem of finite height it still ends with the least states that its flow allows, whatever
    the order of the blocks. */
module Solver {
  import opened Graphs

  type BlockId = Node

  /** The source of the initial state. */
  const START := Node("<entry>", 0)

  /** The states arriving at a block, by the block they come from. */
  type Arriving<S> = map<BlockId, S>

  type Edges<S> = map<BlockId, Arriving<S>>

  /** A problem, with the order its flow keeps: `rank` bounds how often a state can grow, and
      `ok` says what the states on an edge satisfy. */
  datatype Problem<!S(==)> = Problem(
    initial: S,
    flow: (BlockId, Arriving<S>) -> Arriving<S>,
    ghost leq: (S, S) -> bool,
    ghost rank: S -> nat,
    ghost height: nat,
    ghost ok: (BlockId, BlockId, S) -> bool)

  // ---- laws ----

  ghost predicate Below<S(!new)>(p: Problem<S>, a: Arriving<S>, b: Arriving<S>) {
    forall x :: x in a ==> x in b && p.leq(a[x], b[x])
  }

  ghost predicate AllOk<S(!new)>(p: Problem<S>, b: BlockId, a: Arriving<S>) {
    a != map[] && forall x :: x in a ==> p.ok(x, b, a[x])
  }

  /** What a block sends goes to blocks, and keeps `ok`. */
  ghost predicate SendsOk<S(!new)>(p: Problem<S>, blocks: set<BlockId>, b: BlockId, a: Arriving<S>) {
    forall t :: t in p.flow(b, a) ==> t in blocks && p.ok(b, t, p.flow(b, a)[t])
  }

  ghost predicate Lawful<S(!new)>(p: Problem<S>, blocks: set<BlockId>) {
    && (forall a {:trigger p.leq(a, a)} :: p.leq(a, a))
    && (forall a, b, c {:trigger p.leq(a, b), p.leq(b, c)} :: p.leq(a, b) && p.leq(b, c) ==> p.leq(a, c))
    && (forall b, t, a, c {:trigger p.ok(b, t, a), p.ok(b, t, c)} ::
          p.ok(b, t, a) && p.ok(b, t, c) && p.leq(a, c) && a != c ==> p.rank(a) < p.rank(c))
    && (forall b, t, a {:trigger p.ok(b, t, a)} :: p.ok(b, t, a) ==> p.rank(a) <= p.height)
    && (forall b, a {:trigger SendsOk(p, blocks, b, a)} :: b in blocks && AllOk(p, b, a) ==> SendsOk(p, blocks, b, a))
    && (forall b, a, a' {:trigger Below(p, p.flow(b, a), p.flow(b, a'))} ::
          b in blocks && AllOk(p, b, a) && AllOk(p, b, a') && Below(p, a, a') ==> Below(p, p.flow(b, a), p.flow(b, a')))
    && START !in blocks
  }

  // ---- what a solution is ----

  /** The state `b` sends to `t` is the one recorded. */
  ghost predicate Recorded<S(!new)>(p: Problem<S>, e: Edges<S>, b: BlockId, t: BlockId)
    requires b in e
  {
    t in p.flow(b, e[b]) ==> t in e && b in e[t] && e[t][b] == p.flow(b, e[b])[t]
  }

  /** The initial state arrives at the starts; every state recorded was sent. */
  ghost predicate Sent<S(!new)>(p: Problem<S>, starts: set<BlockId>, e: Edges<S>, t: BlockId, b: BlockId)
    requires t in e && b in e[t]
  {
    if b == START then t in starts && e[t][b] == p.initial
    else b in e && t in p.flow(b, e[b]) && p.leq(e[t][b], p.flow(b, e[b])[t])
  }

  ghost predicate WellFormed<S(!new)>(p: Problem<S>, blocks: set<BlockId>, starts: set<BlockId>, e: Edges<S>) {
    && (forall b :: b in e ==> b in blocks && AllOk(p, b, e[b]))
    && (forall b :: b in starts ==> b in e && START in e[b])
    && (forall t, b {:trigger Sent(p, starts, e, t, b)} :: t in e && b in e[t] ==> Sent(p, starts, e, t, b))
  }

  /** Nothing more is sent. */
  ghost predicate Settled<S(!new)>(p: Problem<S>, e: Edges<S>) {
    forall b, t {:trigger Recorded(p, e, b, t)} :: b in e ==> Recorded(p, e, b, t)
  }

  /** States that allow everything sent from them. */
  ghost predicate Allows<S(!new)>(p: Problem<S>, blocks: set<BlockId>, starts: set<BlockId>, f: Edges<S>) {
    && (forall b :: b in f ==> b in blocks && AllOk(p, b, f[b]))
    && (forall b :: b in starts ==> b in f && START in f[b] && p.leq(p.initial, f[b][START]))
    && (forall b, t {:trigger AllowsOne(p, f, b, t)} :: b in f ==> AllowsOne(p, f, b, t))
  }

  ghost predicate AllowsOne<S(!new)>(p: Problem<S>, f: Edges<S>, b: BlockId, t: BlockId)
    requires b in f
  {
    t in p.flow(b, f[b]) ==> t in f && b in f[t] && p.leq(p.flow(b, f[b])[t], f[t][b])
  }

  ghost predicate EdgesBelow<S(!new)>(p: Problem<S>, e: Edges<S>, f: Edges<S>) {
    forall b {:trigger Below(p, e[b], f[b])} {:trigger b in e} :: b in e ==> b in f && Below(p, e[b], f[b])
  }

  ghost predicate Least<S(!new)>(p: Problem<S>, blocks: set<BlockId>, starts: set<BlockId>, e: Edges<S>) {
    forall f {:trigger Allows(p, blocks, starts, f)} :: Allows(p, blocks, starts, f) ==> EdgesBelow(p, e, f)
  }

  /** A way from a start to `b` along recorded edges. */
  ghost predicate Trace<S>(starts: set<BlockId>, e: Edges<S>, w: seq<BlockId>, b: BlockId) {
    && w != [] && w[0] in starts && w[|w| - 1] == b
    && (forall i :: 0 <= i < |w| ==> w[i] in e)
    && forall i :: 0 < i < |w| ==> w[i - 1] in e[w[i]]
  }

  ghost predicate Traced<S>(starts: set<BlockId>, e: Edges<S>) {
    forall b {:trigger b in e} :: b in e ==> exists w :: Trace(starts, e, w, b)
  }

  /** The least solution: what flows is recorded, and nothing else is. */
  ghost predicate IsSolution<S(!new)>(p: Problem<S>, blocks: set<BlockId>, starts: set<BlockId>, e: Edges<S>) {
    WellFormed(p, blocks, starts, e) && Settled(p, e) && Least(p, blocks, starts, e) && Traced(starts, e)
  }

  lemma TracedMore<S>(starts: set<BlockId>, e: Edges<S>, b: BlockId, t: BlockId, s: S)
    requires Traced(starts, e) && b in e
    ensures Traced(starts, Put(e, b, t, s))
  {
    hide Trace, Put;
    var e' := Put(e, b, t, s);
    PutKeys(e, b, t, s);
    forall c | c in e' ensures exists w :: Trace(starts, e', w, c) {
      var near := if c in e then c else b;
      var w :| Trace(starts, e, w, near);
      TraceStays(starts, e, e', w, near);
      if c !in e {
        TraceOn(starts, e', w, b, t);
      }
    }
  }

  lemma PutKeys<S>(e: Edges<S>, b: BlockId, t: BlockId, s: S)
    ensures var e' := Put(e, b, t, s);
      e'.Keys == e.Keys + {t} && b in e'[t] && forall c :: c in e ==> e[c].Keys <= e'[c].Keys
  {
  }

  lemma TraceStays<S>(starts: set<BlockId>, e: Edges<S>, e': Edges<S>, w: seq<BlockId>, c: BlockId)
    requires Trace(starts, e, w, c) && forall x :: x in e ==> x in e' && e[x].Keys <= e'[x].Keys
    ensures Trace(starts, e', w, c)
  {
  }

  lemma TraceOn<S>(starts: set<BlockId>, e: Edges<S>, w: seq<BlockId>, b: BlockId, t: BlockId)
    requires Trace(starts, e, w, b) && t in e && b in e[t]
    ensures Trace(starts, e, w + [t], t)
  {
  }

  /** A solution allows what is sent from it. */
  lemma SolutionAllows<S(!new)>(p: Problem<S>, blocks: set<BlockId>, starts: set<BlockId>, e: Edges<S>)
    requires Lawful(p, blocks) && WellFormed(p, blocks, starts, e) && Settled(p, e)
    ensures Allows(p, blocks, starts, e)
  {
    forall b | b in starts ensures p.leq(p.initial, e[b][START]) {
      assert Sent(p, starts, e, b, START);
    }
    forall b, t | b in e ensures AllowsOne(p, e, b, t) {
      assert Recorded(p, e, b, t);
    }
  }

  /** There is one solution, so the order in which blocks are taken does not matter. */
  lemma SolutionIsUnique<S(!new)>(p: Problem<S>, blocks: set<BlockId>, starts: set<BlockId>, e: Edges<S>, f: Edges<S>)
    requires Lawful(p, blocks) && IsSolution(p, blocks, starts, e) && IsSolution(p, blocks, starts, f)
    ensures e == f
  {
    SolutionAllows(p, blocks, starts, e);
    SolutionAllows(p, blocks, starts, f);
    SameBothWays(p, blocks, e, f);
  }

  lemma SameBothWays<S(!new)>(p: Problem<S>, blocks: set<BlockId>, e: Edges<S>, f: Edges<S>)
    requires Lawful(p, blocks) && EdgesBelow(p, e, f) && EdgesBelow(p, f, e)
    requires (forall b :: b in e ==> AllOk(p, b, e[b])) && (forall b :: b in f ==> AllOk(p, b, f[b]))
    ensures e == f
  {
    forall b | b in e ensures b in f && e[b] == f[b] {
      assert Below(p, e[b], f[b]) && Below(p, f[b], e[b]);
      forall x | x in e[b] ensures x in f[b] && e[b][x] == f[b][x] {
        assert p.leq(e[b][x], f[b][x]) && p.leq(f[b][x], e[b][x]) && p.ok(x, b, e[b][x]) && p.ok(x, b, f[b][x]);
      }
      assert e[b].Keys == f[b].Keys;
    }
    assert e.Keys == f.Keys;
  }

  // ---- the measure ----

  /** How much the states on all edges can still grow. */
  ghost function Slack<S>(p: Problem<S>, e: Edges<S>, pairs: set<(BlockId, BlockId)>): nat {
    if pairs == {} then 0
    else
      var x :| x in pairs;
      Room(p, e, x) + Slack(p, e, pairs - {x})
  }

  ghost function Room<S>(p: Problem<S>, e: Edges<S>, x: (BlockId, BlockId)): nat {
    if x.1 in e && x.0 in e[x.1] && p.rank(e[x.1][x.0]) <= p.height then p.height - p.rank(e[x.1][x.0])
      else p.height + 1
  }

  lemma {:induction false} SlackLess<S>(p: Problem<S>, e: Edges<S>, f: Edges<S>, pairs: set<(BlockId, BlockId)>,
      y: (BlockId, BlockId))
    requires forall x :: x in pairs && x != y ==> Room(p, f, x) == Room(p, e, x)
    requires Room(p, f, y) < Room(p, e, y)
    ensures y in pairs ==> Slack(p, f, pairs) < Slack(p, e, pairs)
    ensures y !in pairs ==> Slack(p, f, pairs) == Slack(p, e, pairs)
    decreases |pairs|
  {
    if pairs != {} {
      var x :| x in pairs && Slack(p, e, pairs) == Room(p, e, x) + Slack(p, e, pairs - {x})
        && Slack(p, f, pairs) == Room(p, f, x) + Slack(p, f, pairs - {x});
      SlackLess(p, e, f, pairs - {x}, y);
    }
  }

  // ---- solving ----

  function AsSet(s: seq<BlockId>): set<BlockId> {
    set b | b in s
  }

  ghost function Pairs(blocks: set<BlockId>): set<(BlockId, BlockId)> {
    set b, t | b in blocks + {START} && t in blocks :: (b, t)
  }

  function Put<S>(e: Edges<S>, b: BlockId, t: BlockId, s: S): Edges<S> {
    e[t := (if t in e then e[t] else map[])[b := s]]
  }

  /** Blocks not waiting have nothing new to send. */
  ghost predicate Quiet<S(!new)>(p: Problem<S>, e: Edges<S>, waiting: set<BlockId>) {
    forall b, t {:trigger Recorded(p, e, b, t)} :: b in e && b !in waiting ==> Recorded(p, e, b, t)
  }

  /** What `b` sent to `t` is recorded. */
  lemma PutOne<S(!new)>(p: Problem<S>, blocks: set<BlockId>, starts: set<BlockId>, e: Edges<S>, b: BlockId,
      a: Arriving<S>, t: BlockId)
    requires Lawful(p, blocks) && WellFormed(p, blocks, starts, e) && Least(p, blocks, starts, e)
    requires b in e && AllOk(p, b, a) && Below(p, a, e[b]) && (forall f :: Allows(p, blocks, starts, f) ==>
      b in f && Below(p, a, f[b]))
    requires t in p.flow(b, a) && (t in e && b in e[t] ==> p.leq(e[t][b], p.flow(b, a)[t]))
    ensures var e' := Put(e, b, t, p.flow(b, a)[t]);
      WellFormed(p, blocks, starts, e') && EdgesBelow(p, e, e') && Least(p, blocks, starts, e')
  {
    hide Lawful, Least, Sent, AllOk, Below, EdgesBelow;
    var e' := Put(e, b, t, p.flow(b, a)[t]);
    PutBelow(p, blocks, e, b, a, t);
    forall x, c | x in e' && c in e'[x] ensures Sent(p, starts, e', x, c) {
      if x == t && c == b {
        PutSent(p, blocks, starts, e', b, a, t);
      } else {
        assert Sent(p, starts, e, x, c);
        StillSent(p, blocks, starts, e, e', x, c);
      }
    }
    StartsStay(p, starts, e, e');
    PutLeast(p, blocks, starts, e, b, a, t);
  }

  lemma StartsStay<S(!new)>(p: Problem<S>, starts: set<BlockId>, e: Edges<S>, e': Edges<S>)
    requires EdgesBelow(p, e, e') && forall b :: b in starts ==> b in e && START in e[b]
    ensures forall b :: b in starts ==> b in e' && START in e'[b]
  {
  }

  lemma PutSent<S(!new)>(p: Problem<S>, blocks: set<BlockId>, starts: set<BlockId>, e: Edges<S>, b: BlockId,
      a: Arriving<S>, t: BlockId)
    requires Lawful(p, blocks) && b in e && b in blocks && AllOk(p, b, a) && AllOk(p, b, e[b]) && Below(p, a, e[b])
    requires t in p.flow(b, a) && t in e && b in e[t] && e[t][b] == p.flow(b, a)[t]
    ensures Sent(p, starts, e, t, b)
  {
    assert Below(p, p.flow(b, a), p.flow(b, e[b]));
  }

  lemma StillSent<S(!new)>(p: Problem<S>, blocks: set<BlockId>, starts: set<BlockId>, e: Edges<S>, e': Edges<S>,
      x: BlockId, c: BlockId)
    requires Lawful(p, blocks) && x in e && c in e[x] && Sent(p, starts, e, x, c) && EdgesBelow(p, e, e')
    requires (forall b :: b in e ==> b in blocks && AllOk(p, b, e[b]))
      && (forall b :: b in e' ==> b in blocks && AllOk(p, b, e'[b]))
    requires x in e' && c in e'[x] && e'[x][c] == e[x][c]
    ensures Sent(p, starts, e', x, c)
  {
    if c != START {
      assert Below(p, e[c], e'[c]);
      assert Below(p, p.flow(c, e[c]), p.flow(c, e'[c]));
    }
  }

  lemma PutBelow<S(!new)>(p: Problem<S>, blocks: set<BlockId>, e: Edges<S>, b: BlockId, a: Arriving<S>, t: BlockId)
    requires Lawful(p, blocks) && (forall x :: x in e ==> x in blocks && AllOk(p, x, e[x])) && b in e && AllOk(p, b, a)
      && Below(p, a, e[b])
    requires t in p.flow(b, a) && (t in e && b in e[t] ==> p.leq(e[t][b], p.flow(b, a)[t]))
    ensures var e' := Put(e, b, t, p.flow(b, a)[t]);
      EdgesBelow(p, e, e') && (forall x :: x in e' ==> x in blocks && AllOk(p, x, e'[x])) && Below(p, a, e'[b])
  {
    var e' := Put(e, b, t, p.flow(b, a)[t]);
    assert SendsOk(p, blocks, b, a);
    forall x | x in e ensures Below(p, e[x], e'[x]) {
      forall y | y in e[x] ensures p.leq(e[x][y], e'[x][y]) {
      }
    }
    assert Below(p, e[b], e'[b]);
    forall x | x in e' ensures x in blocks && AllOk(p, x, e'[x]) {
      if x in e {
        assert AllOk(p, x, e[x]);
      }
      if x == t {
        assert b in e'[x];
      }
    }
  }

  /** What `b` sends now is below what it sends in any assignment allowed. */
  lemma SentBelow<S(!new)>(p: Problem<S>, blocks: set<BlockId>, starts: set<BlockId>, f: Edges<S>, b: BlockId,
      a: Arriving<S>, t: BlockId)
    requires Lawful(p, blocks) && Allows(p, blocks, starts, f) && b in blocks && AllOk(p, b, a)
    requires b in f && Below(p, a, f[b]) && t in p.flow(b, a)
    ensures t in f && b in f[t] && p.leq(p.flow(b, a)[t], f[t][b])
  {
    hide AllOk;
    assert Below(p, p.flow(b, a), p.flow(b, f[b]));
    assert AllowsOne(p, f, b, t);
  }

  lemma PutUnder<S(!new)>(p: Problem<S>, e: Edges<S>, f: Edges<S>, b: BlockId, t: BlockId, s: S)
    requires EdgesBelow(p, e, f) && t in f && b in f[t] && p.leq(s, f[t][b])
    ensures EdgesBelow(p, Put(e, b, t, s), f)
  {
    var e' := Put(e, b, t, s);
    forall x | x in e' ensures x in f && Below(p, e'[x], f[x]) {
      if x in e {
        assert Below(p, e[x], f[x]);
      }
    }
  }

  lemma PutLeast<S(!new)>(p: Problem<S>, blocks: set<BlockId>, starts: set<BlockId>, e: Edges<S>, b: BlockId,
      a: Arriving<S>, t: BlockId)
    requires Lawful(p, blocks) && Least(p, blocks, starts, e) && b in blocks && AllOk(p, b, a)
    requires forall f :: Allows(p, blocks, starts, f) ==> b in f && Below(p, a, f[b])
    requires t in p.flow(b, a)
    ensures Least(p, blocks, starts, Put(e, b, t, p.flow(b, a)[t]))
  {
    hide Lawful, Allows, AllOk, EdgesBelow, Put, Below;
    forall f | Allows(p, blocks, starts, f) ensures EdgesBelow(p, Put(e, b, t, p.flow(b, a)[t]), f) {
      SentBelow(p, blocks, starts, f, b, a, t);
      PutUnder(p, e, f, b, t, p.flow(b, a)[t]);
    }
  }

  lemma LeastBelow<S(!new)>(p: Problem<S>, blocks: set<BlockId>, starts: set<BlockId>, e: Edges<S>, b: BlockId)
    requires Least(p, blocks, starts, e) && b in e
    ensures forall f :: Allows(p, blocks, starts, f) ==> b in f && Below(p, e[b], f[b])
  {
    forall f | Allows(p, blocks, starts, f) ensures b in f && Below(p, e[b], f[b]) {
      assert EdgesBelow(p, e, f);
    }
  }

  /** Only the block whose states changed may have more to send. */
  lemma StillQuiet<S(!new)>(p: Problem<S>, e: Edges<S>, b: BlockId, t: BlockId, s: S, waiting: set<BlockId>,
      waiting': set<BlockId>)
    requires Quiet(p, e, waiting) && b in waiting && waiting + {t} <= waiting'
    ensures Quiet(p, Put(e, b, t, s), waiting')
  {
    var e' := Put(e, b, t, s);
    forall x, y | x in e' && x !in waiting' ensures Recorded(p, e', x, y) {
      assert Recorded(p, e, x, y);
    }
  }

  lemma PutShrinks<S(!new)>(p: Problem<S>, blocks: set<BlockId>, e: Edges<S>, b: BlockId, t: BlockId, s: S)
    requires Lawful(p, blocks) && b in blocks && t in blocks && p.ok(b, t, s)
    requires t in e && b in e[t] ==> p.ok(b, t, e[t][b]) && p.leq(e[t][b], s) && e[t][b] != s
    ensures Slack(p, Put(e, b, t, s), Pairs(blocks)) < Slack(p, e, Pairs(blocks))
  {
    SlackLess(p, e, Put(e, b, t, s), Pairs(blocks), (b, t));
  }

  /** The position of the block to take next: the first in block order. */
  method First(worklist: seq<BlockId>, order: seq<BlockId>) returns (m: nat)
    requires worklist != [] && forall b :: b in worklist ==> b in order
    ensures m < |worklist| && forall k :: 0 <= k < |worklist| ==>
      Position(order, worklist[m]) <= Position(order, worklist[k])
  {
    m := 0;
    for n := 1 to |worklist|
      invariant m < |worklist|
      invariant forall k :: 0 <= k < n ==> Position(order, worklist[m]) <= Position(order, worklist[k])
    {
      if Position(order, worklist[n]) < Position(order, worklist[m]) {
        m := n;
      }
    }
  }

  function Position(order: seq<BlockId>, b: BlockId): nat
    requires b in order
  {
    if order[0] == b then 0 else 1 + Position(order[1..], b)
  }

  /** The states at the start: the initial one, at each start. */
  lemma InitialSolution<S(!new)>(p: Problem<S>, blocks: set<BlockId>, starts: set<BlockId>)
    requires Lawful(p, blocks) && starts <= blocks && forall s :: s in starts ==> p.ok(START, s, p.initial)
    ensures var e := map s | s in starts :: map[START := p.initial];
      WellFormed(p, blocks, starts, e) && Least(p, blocks, starts, e) && Quiet(p, e, starts) && Traced(starts, e)
  {
    var e := map s | s in starts :: map[START := p.initial];
    forall b | b in e ensures exists w :: Trace(starts, e, w, b) {
      assert Trace(starts, e, [b], b);
    }
    forall b | b in e ensures AllOk(p, b, e[b]) {
      assert START in e[b];
    }
    forall f | Allows(p, blocks, starts, f) ensures EdgesBelow(p, e, f) {
      forall b | b in e ensures b in f && Below(p, e[b], f[b]) {
      }
    }
  }

  /** Solves the problem from the starts. */
  method Solve<S(!new, ==)>(p: Problem<S>, order: seq<BlockId>, starts: seq<BlockId>) returns (incoming: Edges<S>)
    requires Lawful(p, AsSet(order)) && (forall s :: s in starts ==> s in order && p.ok(START, s, p.initial))
    ensures IsSolution(p, AsSet(order), AsSet(starts), incoming)
  {
    hide Lawful, WellFormed, Least, Quiet, Traced, Slack, Pairs, Position;
    ghost var blocks, from := AsSet(order), AsSet(starts);
    incoming := map s | s in AsSet(starts) :: map[START := p.initial];
    InitialSolution(p, blocks, from);
    var worklist := Once(starts);
    while worklist != []
      invariant WellFormed(p, blocks, from, incoming) && Least(p, blocks, from, incoming) && Traced(from, incoming)
      invariant Quiet(p, incoming, AsSet(worklist)) && AsSet(worklist) <= incoming.Keys
      decreases Slack(p, incoming, Pairs(blocks)), |worklist|
    {
      InBlocks(p, blocks, from, incoming);
      forall b | b in worklist ensures b in order {
        assert b in AsSet(worklist);
      }
      var m := First(worklist, order);
      var block := worklist[m];
      assert block in AsSet(worklist);
      var others := worklist[..m] + worklist[m + 1..];
      assert AsSet(worklist) == AsSet(others) + {block};
      worklist, incoming := Send(p, blocks, from, block, incoming, others);
    }
    assert AsSet(worklist) == {};
    NoneWaiting(p, incoming);
  }

  /** Sends what flows out of one block, and lets the blocks that learn from it wait. */
  method Send<S(!new, ==)>(p: Problem<S>, ghost blocks: set<BlockId>, ghost starts: set<BlockId>, block: BlockId,
      incoming0: Edges<S>, worklist0: seq<BlockId>)
    returns (worklist: seq<BlockId>, incoming: Edges<S>)
    requires Lawful(p, blocks) && WellFormed(p, blocks, starts, incoming0) && Least(p, blocks, starts, incoming0)
    requires block in incoming0 && Quiet(p, incoming0, AsSet(worklist0) + {block}) && AsSet(worklist0) <= incoming0.Keys
      && Traced(starts, incoming0)
    ensures WellFormed(p, blocks, starts, incoming) && Least(p, blocks, starts, incoming) && Traced(starts, incoming)
    ensures Quiet(p, incoming, AsSet(worklist)) && AsSet(worklist) <= incoming.Keys
    ensures Slack(p, incoming, Pairs(blocks)) < Slack(p, incoming0, Pairs(blocks))
      || (incoming == incoming0 && worklist == worklist0)
  {
    hide Lawful, WellFormed, Least, Quiet, Traced, Slack, Pairs, Below, AllOk, Recorded, Allows;
    worklist, incoming := worklist0, incoming0;
    var a := incoming[block];
    var sends := p.flow(block, a);
    SendsGrow(p, blocks, starts, incoming0, block);
    LeastBelow(p, blocks, starts, incoming0, block);
    var rest := sends.Keys;
    while rest != {}
      invariant rest <= sends.Keys && block in incoming
      invariant WellFormed(p, blocks, starts, incoming) && Least(p, blocks, starts, incoming)
        && Traced(starts, incoming)
      invariant Below(p, a, incoming[block]) && (block !in worklist ==> incoming[block] == a)
      invariant Quiet(p, incoming, AsSet(worklist) + {block}) && AsSet(worklist) <= incoming.Keys
      invariant forall t :: t in sends && t !in rest ==>
        t in incoming && block in incoming[t] && incoming[t][block] == sends[t]
      invariant forall t :: t in rest && t in incoming && block in incoming[t] ==> p.leq(incoming[t][block], sends[t])
      invariant Slack(p, incoming, Pairs(blocks)) < Slack(p, incoming0, Pairs(blocks))
        || (incoming == incoming0 && worklist == worklist0)
    {
      var t :| t in rest;
      rest := rest - {t};
      if !(t in incoming && block in incoming[t] && incoming[t][block] == sends[t]) {
        PutOne(p, blocks, starts, incoming, block, a, t);
        OldOk(p, blocks, starts, incoming0, block, incoming, t);
        PutShrinks(p, blocks, incoming, block, t, sends[t]);
        TracedMore(starts, incoming, block, t, sends[t]);
        GrownOn(p, blocks, a, incoming, Put(incoming, block, t, sends[t]), block);
        ghost var before, waiting := incoming, AsSet(worklist) + {block};
        incoming := Put(incoming, block, t, sends[t]);
        if t !in worklist {
          worklist := worklist + [t];
        }
        StillQuiet(p, before, block, t, sends[t], waiting, AsSet(worklist) + {block});
      }
    }
    BlockDone(p, incoming, block, a, worklist);
  }

  /** What a block sent before is no more than it sends now. */
  lemma SendsGrow<S(!new)>(p: Problem<S>, blocks: set<BlockId>, starts: set<BlockId>, e: Edges<S>, b: BlockId)
    requires Lawful(p, blocks) && WellFormed(p, blocks, starts, e) && b in e
    ensures b in blocks && AllOk(p, b, e[b]) && Below(p, e[b], e[b]) && SendsOk(p, blocks, b, e[b])
    ensures forall t :: t in p.flow(b, e[b]) && t in e && b in e[t] ==> p.leq(e[t][b], p.flow(b, e[b])[t])
  {
    assert SendsOk(p, blocks, b, e[b]);
    forall t | t in p.flow(b, e[b]) && t in e && b in e[t] ensures p.leq(e[t][b], p.flow(b, e[b])[t]) {
      assert Sent(p, starts, e, t, b);
    }
  }

  lemma OldOk<S(!new)>(p: Problem<S>, blocks: set<BlockId>, starts: set<BlockId>, e0: Edges<S>, b: BlockId, e: Edges<S>,
      t: BlockId)
    requires WellFormed(p, blocks, starts, e) && b in e0 && SendsOk(p, blocks, b, e0[b]) && t in p.flow(b, e0[b])
      && b in e
    ensures b in blocks && t in blocks && p.ok(b, t, p.flow(b, e0[b])[t])
      && (t in e && b in e[t] ==> p.ok(b, t, e[t][b]))
  {
  }

  lemma GrownOn<S(!new)>(p: Problem<S>, blocks: set<BlockId>, a: Arriving<S>, e: Edges<S>, e': Edges<S>, b: BlockId)
    requires Lawful(p, blocks) && b in e && Below(p, a, e[b]) && EdgesBelow(p, e, e')
    ensures b in e' && Below(p, a, e'[b])
  {
    assert Below(p, e[b], e'[b]);
    forall x | x in a ensures x in e'[b] && p.leq(a[x], e'[b][x]) {
      assert p.leq(a[x], e[b][x]) && p.leq(e[b][x], e'[b][x]);
    }
  }

  lemma BlockDone<S(!new)>(p: Problem<S>, e: Edges<S>, b: BlockId, a: Arriving<S>, worklist: seq<BlockId>)
    requires b in e && Quiet(p, e, AsSet(worklist) + {b}) && (b !in worklist ==> e[b] == a)
    requires forall t :: t in p.flow(b, a) ==> t in e && b in e[t] && e[t][b] == p.flow(b, a)[t]
    ensures Quiet(p, e, AsSet(worklist))
  {
    forall x, t | x in e && x !in AsSet(worklist) ensures Recorded(p, e, x, t) {
      if x != b {
        assert Recorded(p, e, x, t);
      }
    }
  }

  lemma NoneWaiting<S(!new)>(p: Problem<S>, e: Edges<S>)
    requires Quiet(p, e, {})
    ensures Settled(p, e)
  {
  }

  lemma InBlocks<S(!new)>(p: Problem<S>, blocks: set<BlockId>, starts: set<BlockId>, e: Edges<S>)
    requires WellFormed(p, blocks, starts, e)
    ensures e.Keys <= blocks
  {
  }

  /** The starts, each once. */
  method Once(s: seq<BlockId>) returns (r: seq<BlockId>)
    ensures AsSet(r) == AsSet(s)
  {
    r := [];
    for k := 0 to |s|
      invariant forall b :: b in r <==> b in s[..k]
    {
      assert s[..k + 1] == s[..k] + [s[k]];
      if s[k] !in r {
        r := r + [s[k]];
      }
    }
    assert s[..|s|] == s;
  }
}
