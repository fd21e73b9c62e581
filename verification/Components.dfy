/** Strongly connected components by depth-first search with indices and low links: what holds
    at every step of the search, in whatever form it is written. */
module Components {
  import opened Graphs

  lemma ReachesSelf(succ: Table, a: Node)
    requires a in succ
    ensures Reaches(succ, a, a)
  {
    assert WalkTo(succ, [a], a, a);
  }

  lemma ReachesEdge(succ: Table, a: Node, b: Node, c: Node)
    requires Reaches(succ, a, b) && Edge(succ, b, c)
    ensures Reaches(succ, a, c)
  {
    var p :| WalkTo(succ, p, a, b);
    WalkExtend(succ, p, c);
  }

  lemma ReachesOn(succ: Table, a: Node, b: Node, c: Node)
    requires Reaches(succ, a, b) && Reaches(succ, b, c)
    ensures Reaches(succ, a, c)
  {
    var p :| WalkTo(succ, p, a, b);
    var q :| WalkTo(succ, q, b, c);
    WalkJoin(succ, p, q);
  }

  /** A set no edge leaves is not left by a walk. */
  lemma {:induction false} NeverLeaves(succ: Table, s: set<Node>, p: seq<Node>)
    requires IsWalk(succ, p) && p[0] in s && forall a, b :: a in s && Edge(succ, a, b) ==> b in s
    ensures forall x :: x in p ==> x in s
  {
    if |p| > 1 {
      var q := p[..|p| - 1];
      NeverLeaves(succ, s, q);
      assert Edge(succ, p[|p| - 2], p[|p| - 2 + 1]) && q[|p| - 2] in q;
      assert p == q + [p[|p| - 1]];
    }
  }

  lemma StaysWithin(succ: Table, s: set<Node>, a: Node, b: Node)
    requires a in s && Reaches(succ, a, b) && forall x, y :: x in s && Edge(succ, x, y) ==> y in s
    ensures b in s
  {
    var p :| WalkTo(succ, p, a, b);
    NeverLeaves(succ, s, p);
  }

  // ---- the state of the search ----

  /** The nodes found, numbered in the order they were; their low links; the nodes found and not
      yet in a component; and the components completed. */
  datatype Search = Search(index: map<Node, nat>, low: map<Node, nat>, stack: seq<Node>, components: seq<set<Node>>)

  function Popped(components: seq<set<Node>>): set<Node> {
    set k, n | 0 <= k < |components| && n in components[k] :: n
  }

  ghost predicate SameComponent(succ: Table, a: Node, b: Node) {
    Reaches(succ, a, b) && Reaches(succ, b, a)
  }

  /** A strongly connected component, whole. */
  ghost predicate IsComponent(succ: Table, c: set<Node>) {
    && c != {} && c <= succ.Keys
    && forall a, b {:trigger SameComponent(succ, a, b)} :: a in c ==> (b in c <==> SameComponent(succ, a, b))
  }

  lemma OneComponent(succ: Table, c: set<Node>, d: set<Node>, n: Node)
    requires IsComponent(succ, c) && IsComponent(succ, d) && n in c && n in d
    ensures c == d
  {
    forall m ensures m in c <==> m in d {
      assert m in c <==> SameComponent(succ, n, m);
    }
  }

  /** Edges out of a component lead to it or to earlier ones. */
  ghost predicate Descends(succ: Table, components: seq<set<Node>>, k: nat)
    requires k < |components|
  {
    && IsComponent(succ, components[k])
    && forall a, b {:trigger Edge(succ, a, b)} :: a in components[k] && Edge(succ, a, b) ==>
      b in Popped(components[..k + 1])
  }

  /** `components` are distinct components, each after all that it reaches. */
  ghost predicate Ordered(succ: Table, components: seq<set<Node>>) {
    && (forall k {:trigger Descends(succ, components, k)} :: 0 <= k < |components| ==> Descends(succ, components, k))
    && (forall j, k, n :: 0 <= j < |components| && 0 <= k < |components| && n in components[j] && n in components[k] ==>
      j == k)
  }

  ghost predicate Sorted(s: Search) {
    && (forall i :: 0 <= i < |s.stack| ==> s.stack[i] in s.index)
    && (forall i, j :: 0 <= i < j < |s.stack| ==> s.index[s.stack[i]] < s.index[s.stack[j]])
  }

  /** The stack holds what is found and in no component yet, in the order it was found. */
  ghost predicate StackOk(s: Search) {
    && Sorted(s)
    && (forall n :: n in s.index <==> n in s.stack || n in Popped(s.components))
    && (forall n :: n in s.stack ==> n !in Popped(s.components))
    && (forall n :: n in s.index ==> n in s.low && s.index[n] < |s.index|)
  }

  /** The nodes not finished are those of `gray`: the edges of the others are all followed. */
  ghost predicate EdgesOk(succ: Table, index: map<Node, nat>, gray: set<Node>) {
    && index.Keys <= succ.Keys
    && (forall a, b {:trigger Edge(succ, a, b)} :: a in index && a !in gray && Edge(succ, a, b) ==> b in index)
  }

  /** A found node reaches one not finished, no later than itself. */
  ghost predicate ReachesDown(succ: Table, index: map<Node, nat>, gray: set<Node>, n: Node) {
    exists g :: LedTo(succ, index, gray, n, g)
  }

  ghost predicate LedTo(succ: Table, index: map<Node, nat>, gray: set<Node>, n: Node, g: Node) {
    g in gray && g in index && n in index && index[g] <= index[n] && Reaches(succ, n, g)
  }

  ghost predicate PathsOk(succ: Table, index: map<Node, nat>, stack: seq<Node>, gray: set<Node>) {
    && (forall g :: g in gray ==> g in stack)
    && (forall n {:trigger ReachesDown(succ, index, gray, n)} :: n in stack ==> ReachesDown(succ, index, gray, n))
    && (forall g, n {:trigger Reaches(succ, g, n)} ::
          g in gray && n in stack && g in index && n in index && index[g] <= index[n] ==> Reaches(succ, g, n))
  }

  /** What holds between any two steps. */
  ghost predicate Inv(succ: Table, s: Search, gray: set<Node>) {
    Closed(succ) && StackOk(s) && EdgesOk(succ, s.index, gray) && Ordered(succ, s.components)
      && PathsOk(succ, s.index, s.stack, gray)
  }

  // ---- the low link of one open node ----

  ghost predicate LowAt(succ: Table, s: Search, n: Node, y: Node) {
    n in s.low && y in s.stack && y in s.index && s.index[y] == s.low[n] && Reaches(succ, n, y)
  }

  /** The low link of `n` is the index of a node on the stack that it reaches. */
  ghost predicate LowReached(succ: Table, s: Search, n: Node) {
    exists y :: LowAt(succ, s, n, y)
  }

  /** No link leads lower than `low` from `a`, counting those below index `floor`. */
  ghost predicate NoLower(succ: Table, s: Search, a: Node, floor: nat, low: nat) {
    forall b {:trigger Edge(succ, a, b)} :: Edge(succ, a, b) && b in s.stack && b in s.index && s.index[b] < floor ==>
      low <= s.index[b]
  }

  /** The first `k` edges of `n` are followed and its low link takes them in. */
  ghost predicate Followed(succ: Table, s: Search, n: Node, k: nat) {
    && n in succ && k <= |succ[n]| && n in s.low
    && forall j :: 0 <= j < k ==> succ[n][j] in s.index && (succ[n][j] in s.stack ==> s.low[n] <= s.index[succ[n][j]])
  }

  /** The low link of `n` takes in what was found after it, up to index `top`. */
  ghost predicate TakesIn(succ: Table, s: Search, n: Node, top: nat) {
    && n in s.index && n in s.low
    && forall a {:trigger NoLower(succ, s, a, s.index[n], s.low[n])} ::
      a in s.stack && a in s.index && s.index[n] < s.index[a] < top ==> NoLower(succ, s, a, s.index[n], s.low[n])
  }

  ghost predicate Frame(succ: Table, s: Search, n: Node, k: nat, top: nat) {
    && n in s.stack && n in s.index && n in s.low && s.low[n] <= s.index[n]
    && LowReached(succ, s, n)
    && Followed(succ, s, n, k)
    && TakesIn(succ, s, n, top)
  }

  /** `n` is finished: its low link is final, and is its own index when its component is complete. */
  ghost predicate Done(succ: Table, s: Search, n: Node) {
    && n in s.index && n in s.low && s.low[n] <= s.index[n]
    && (s.low[n] < s.index[n] ==> LowReached(succ, s, n))
    && (forall a {:trigger NoLower(succ, s, a, s.index[n], s.low[n])} ::
          a in s.stack && a in s.index && s.index[n] <= s.index[a] ==> NoLower(succ, s, a, s.index[n], s.low[n]))
  }

  // ---- finding a node ----

  function Found(s: Search, n: Node): Search {
    Search(s.index[n := |s.index|], s.low[n := |s.index|], s.stack + [n], s.components)
  }

  lemma InFound(s: Search, n: Node, m: Node)
    ensures m in Found(s, n).stack <==> m in s.stack || m == n
    ensures n !in s.index ==> |Found(s, n).index| == |s.index| + 1
  {
  }

  lemma FoundStack(s: Search, n: Node)
    requires StackOk(s) && n !in s.index
    ensures StackOk(Found(s, n))
  {
    var s' := Found(s, n);
    assert n !in Popped(s.components);
    forall m ensures m in s'.stack <==> m in s.stack || m == n {
      InFound(s, n, m);
    }
    InFound(s, n, n);
  }

  lemma FoundPaths(succ: Table, s: Search, gray: set<Node>, n: Node)
    requires Closed(succ) && StackOk(s) && PathsOk(succ, s.index, s.stack, gray) && n !in s.index && n in succ
    requires forall g :: g in gray ==> Reaches(succ, g, n)
    ensures PathsOk(succ, Found(s, n).index, Found(s, n).stack, gray + {n})
  {
    hide Reaches;
    var s' := Found(s, n);
    ReachesSelf(succ, n);
    forall m ensures m in s'.stack <==> m in s.stack || m == n {
      InFound(s, n, m);
    }
    forall m | m in s'.stack ensures ReachesDown(succ, s'.index, gray + {n}, m) {
      if m == n {
        assert LedTo(succ, s'.index, gray + {n}, n, n);
      } else {
        assert ReachesDown(succ, s.index, gray, m);
        var g :| LedTo(succ, s.index, gray, m, g);
        assert LedTo(succ, s'.index, gray + {n}, m, g);
      }
    }
  }

  lemma FoundOk(succ: Table, s: Search, gray: set<Node>, n: Node)
    requires Inv(succ, s, gray) && n !in s.index && n in succ
    requires forall g :: g in gray ==> Reaches(succ, g, n)
    ensures Inv(succ, Found(s, n), gray + {n})
    ensures Frame(succ, Found(s, n), n, 0, |Found(s, n).index|)
  {
    hide Descends, Ordered;
    FoundStack(s, n);
    FoundPaths(succ, s, gray, n);
    ReachesSelf(succ, n);
    InFound(s, n, n);
    assert n in Found(s, n).stack;
    assert LowAt(succ, Found(s, n), n, n);
  }

  lemma FoundTakesIn(succ: Table, s: Search, n: Node, m: Node, top: nat)
    requires n !in s.index && TakesIn(succ, s, m, top) && top <= |s.index| && s.index[m] < |s.index|
    ensures TakesIn(succ, Found(s, n), m, top)
  {
    hide Reaches, Edge;
    var s' := Found(s, n);
    forall x ensures x in s'.stack <==> x in s.stack || x == n {
      InFound(s, n, x);
    }
    forall a | a in s'.stack && a in s'.index && s'.index[m] < s'.index[a] < top
      ensures NoLower(succ, s', a, s'.index[m], s'.low[m]) {
      assert NoLower(succ, s, a, s.index[m], s.low[m]);
    }
  }

  lemma FoundFollowed(succ: Table, s: Search, n: Node, m: Node, k: nat)
    requires n !in s.index && Followed(succ, s, m, k) && m in s.index
    ensures Followed(succ, Found(s, n), m, k)
  {
    var s' := Found(s, n);
    forall x ensures x in s'.stack <==> x in s.stack || x == n {
      InFound(s, n, x);
    }
  }

  lemma FoundKeeps(succ: Table, s: Search, n: Node, m: Node, k: nat, top: nat)
    requires StackOk(s) && n !in s.index && Frame(succ, s, m, k, top) && top <= |s.index|
    ensures Frame(succ, Found(s, n), m, k, top)
  {
    hide Reaches, TakesIn, Followed, Popped, Sorted;
    var y :| LowAt(succ, s, m, y);
    InFound(s, n, m);
    InFound(s, n, y);
    assert LowAt(succ, Found(s, n), m, y);
    FoundTakesIn(succ, s, n, m, top);
    FoundFollowed(succ, s, n, m, k);
  }

  // ---- lowering a low link ----

  function Lowered(s: Search, n: Node, l: nat): Search
    requires n in s.low
  {
    s.(low := s.low[n := if l < s.low[n] then l else s.low[n]])
  }

  lemma LoweredOk(succ: Table, s: Search, gray: set<Node>, n: Node, l: nat)
    requires Inv(succ, s, gray) && n in s.low
    ensures Inv(succ, Lowered(s, n, l), gray)
  {
    hide Descends, Ordered, PathsOk, EdgesOk;
  }

  lemma LoweredKeeps(succ: Table, s: Search, n: Node, l: nat, m: Node, k: nat, top: nat)
    requires n in s.low && m != n && Frame(succ, s, m, k, top)
    ensures Frame(succ, Lowered(s, n, l), m, k, top)
  {
    var s' := Lowered(s, n, l);
    var y :| LowAt(succ, s, m, y);
    assert LowAt(succ, s', m, y);
    forall a | a in s'.stack && a in s'.index && s'.index[m] < s'.index[a] < top
      ensures NoLower(succ, s', a, s'.index[m], s'.low[m]) {
      assert NoLower(succ, s, a, s.index[m], s.low[m]);
    }
  }

  /** A frame stays one when its low link takes in that of a node on the stack it reaches. */
  lemma LoweredFrame(succ: Table, s: Search, n: Node, y: Node, k: nat, top: nat)
    requires Frame(succ, s, n, k, top)
    requires y in s.stack && y in s.index && Reaches(succ, n, y)
    ensures Frame(succ, Lowered(s, n, s.index[y]), n, k, top)
  {
    var s' := Lowered(s, n, s.index[y]);
    var z :| LowAt(succ, s, n, z);
    assert LowAt(succ, s', n, if s.index[y] < s.low[n] then y else z);
    forall a | a in s'.stack && a in s'.index && s'.index[n] < s'.index[a] < top
      ensures NoLower(succ, s', a, s'.index[n], s'.low[n]) {
      assert NoLower(succ, s, a, s.index[n], s.low[n]);
    }
  }

  /** The state once edge `k` of `n`, to a node already found, is followed. */
  function Seen(succ: Table, s: Search, n: Node, k: nat): Search
    requires n in succ && k < |succ[n]| && n in s.low && succ[n][k] in s.index
  {
    if succ[n][k] in s.stack then Lowered(s, n, s.index[succ[n][k]]) else s
  }

  lemma SeenOk(succ: Table, s: Search, n: Node, k: nat, top: nat)
    requires Frame(succ, s, n, k, top) && k < |succ[n]| && succ[n][k] in s.index
    ensures Frame(succ, Seen(succ, s, n, k), n, k + 1, top)
  {
    var b := succ[n][k];
    if b in s.stack {
      ReachesSelf(succ, n);
      assert Edge(succ, n, b);
      ReachesEdge(succ, n, n, b);
      LoweredFrame(succ, s, n, b, k, top);
    }
  }

  // ---- coming back from a child ----

  /** The child found at index `top` is finished: its parent's low link takes in the child's. */
  lemma ChildDone(succ: Table, s: Search, n: Node, k: nat, top: nat)
    requires Frame(succ, s, n, k, top) && k < |succ[n]|
    requires Done(succ, s, succ[n][k]) && s.index[succ[n][k]] == top && s.index[n] < top
    ensures Frame(succ, Lowered(s, n, s.low[succ[n][k]]), n, k + 1, |s.index|)
  {
    hide Reaches;
    var c := succ[n][k];
    assert Edge(succ, n, c);
    ReachesSelf(succ, n);
    ReachesEdge(succ, n, n, c);
    var s' := Lowered(s, n, s.low[c]);
    if s.low[c] < s.index[c] {
      var y :| LowAt(succ, s, c, y);
      ReachesOn(succ, n, c, y);
      LoweredFrame(succ, s, n, y, k, top);
    } else {
      assert s' == s.(low := s.low[n := s.low[n]]) == s;
    }
    forall a | a in s'.stack && a in s'.index && s'.index[n] < s'.index[a] < |s.index|
      ensures NoLower(succ, s', a, s'.index[n], s'.low[n]) {
      if s.index[a] < top {
        assert NoLower(succ, s, a, s.index[n], s.low[n]);
      } else {
        assert NoLower(succ, s, a, s.index[c], s.low[c]);
      }
    }
  }

  // ---- finishing a node ----

  /** `n` is the last found of the nodes not finished. */
  ghost predicate Latest(s: Search, gray: set<Node>, n: Node) {
    n in gray && n in s.index && forall g :: g in gray ==> g in s.index && s.index[g] <= s.index[n]
  }

  lemma FinishedEdges(succ: Table, s: Search, gray: set<Node>, n: Node)
    requires EdgesOk(succ, s.index, gray) && n in succ && Followed(succ, s, n, |succ[n]|)
    ensures EdgesOk(succ, s.index, gray - {n})
  {
    forall a, b | a in s.index && a !in gray - {n} && Edge(succ, a, b) ensures b in s.index {
      if a == n {
        var j :| 0 <= j < |succ[n]| && succ[n][j] == b;
      }
    }
  }

  /** No edge from `n` or from what was found after it leads lower than its low link. */
  lemma AllNoLower(succ: Table, s: Search, n: Node)
    requires StackOk(s) && n in succ && Frame(succ, s, n, |succ[n]|, |s.index|)
    ensures Done(succ, s, n)
  {
    forall a | a in s.stack && a in s.index && s.index[n] <= s.index[a]
      ensures NoLower(succ, s, a, s.index[n], s.low[n]) {
      if s.index[a] == s.index[n] {
        SameIndex(s, a, n);
        forall b | Edge(succ, a, b) && b in s.stack ensures s.low[n] <= s.index[b] {
          var j :| 0 <= j < |succ[n]| && succ[n][j] == b;
        }
      }
    }
  }

  lemma SameIndex(s: Search, a: Node, b: Node)
    requires Sorted(s) && a in s.stack && b in s.stack && s.index[a] == s.index[b]
    ensures a == b
  {
    var i :| 0 <= i < |s.stack| && s.stack[i] == a;
    var j :| 0 <= j < |s.stack| && s.stack[j] == b;
    IndexTellsPlace(s, i, j);
  }

  lemma IndexTellsPlace(s: Search, i: nat, j: nat)
    requires Sorted(s) && i < |s.stack| && j < |s.stack|
    ensures s.index[s.stack[i]] == s.index[s.stack[j]] ==> i == j
  {
  }

  lemma FinishedDown(succ: Table, index: map<Node, nat>, gray: set<Node>, n: Node, h: Node, m: Node)
    requires ReachesDown(succ, index, gray, m)
    requires h != n && LedTo(succ, index, gray, n, h)
    ensures ReachesDown(succ, index, gray - {n}, m)
  {
    hide Reaches;
    var g :| LedTo(succ, index, gray, m, g);
    if g == n {
      ReachesOn(succ, m, n, h);
      assert LedTo(succ, index, gray - {n}, m, h);
    } else {
      assert LedTo(succ, index, gray - {n}, m, g);
    }
  }

  lemma FinishedPaths(succ: Table, s: Search, gray: set<Node>, n: Node)
    requires PathsOk(succ, s.index, s.stack, gray) && n in s.index
    requires n in s.low && s.low[n] < s.index[n] && LowReached(succ, s, n)
    ensures PathsOk(succ, s.index, s.stack, gray - {n})
  {
    hide Reaches, ReachesDown;
    var y :| LowAt(succ, s, n, y);
    assert ReachesDown(succ, s.index, gray, y);
    var h := LedSomewhere(succ, s.index, gray, y);
    ReachesOn(succ, n, y, h);
    assert LedTo(succ, s.index, gray, n, h);
    forall m | m in s.stack ensures ReachesDown(succ, s.index, gray - {n}, m) {
      assert ReachesDown(succ, s.index, gray, m);
      FinishedDown(succ, s.index, gray, n, h, m);
    }
  }

  lemma LedSomewhere(succ: Table, index: map<Node, nat>, gray: set<Node>, n: Node) returns (g: Node)
    requires ReachesDown(succ, index, gray, n)
    ensures LedTo(succ, index, gray, n, g)
  {
    g :| LedTo(succ, index, gray, n, g);
  }

  /** A node whose low link is below it waits on the stack. */
  lemma FinishedOk(succ: Table, s: Search, gray: set<Node>, n: Node)
    requires Inv(succ, s, gray) && Latest(s, gray, n)
    requires n in succ && Frame(succ, s, n, |succ[n]|, |s.index|) && s.low[n] < s.index[n]
    ensures Inv(succ, s, gray - {n}) && Done(succ, s, n)
  {
    hide Descends, Ordered;
    FinishedEdges(succ, s, gray, n);
    FinishedPaths(succ, s, gray, n);
    AllNoLower(succ, s, n);
  }

  // ---- completing a component ----

  /** The stack from position `i` on becomes a component. */
  function Completed(s: Search, i: nat): Search
    requires i <= |s.stack|
  {
    s.(stack := s.stack[..i], components := s.components + [set x | x in s.stack[i..]])
  }

  lemma SplitStack(s: Search, i: nat, x: Node)
    requires Sorted(s) && i < |s.stack|
    ensures x in s.stack[i..] <==> x in s.stack && s.index[s.stack[i]] <= s.index[x]
    ensures x in s.stack[..i] <==> x in s.stack && s.index[x] < s.index[s.stack[i]]
  {
    if x in s.stack {
      var j :| 0 <= j < |s.stack| && s.stack[j] == x;
      if j < i {
        assert s.stack[..i][j] == x && s.index[s.stack[j]] < s.index[s.stack[i]];
      } else {
        assert s.stack[i..][j - i] == x;
        assert i < j ==> s.index[s.stack[i]] < s.index[s.stack[j]];
      }
    }
  }

  lemma PoppedMore(components: seq<set<Node>>, c: set<Node>)
    ensures Popped(components + [c]) == Popped(components) + c
  {
    var more := components + [c];
    forall n ensures n in Popped(more) <==> n in Popped(components) + c {
      if n in c {
        assert n in more[|components|];
      }
      if n in Popped(components) {
        var k :| 0 <= k < |components| && n in components[k];
        assert n in more[k];
      }
    }
  }

  lemma PoppedPrefix(components: seq<set<Node>>, k: nat)
    requires k <= |components|
    ensures Popped(components[..k]) <= Popped(components)
  {
    forall n | n in Popped(components[..k]) ensures n in Popped(components) {
      var j :| 0 <= j < k && n in components[..k][j];
      assert n in components[j];
    }
  }

  /** No edge leaves the completed components together. */
  lemma PoppedClosed(succ: Table, components: seq<set<Node>>, a: Node, b: Node)
    requires Ordered(succ, components) && a in Popped(components) && Edge(succ, a, b)
    ensures b in Popped(components)
  {
    var k :| 0 <= k < |components| && a in components[k];
    assert Descends(succ, components, k);
    PoppedPrefix(components, k + 1);
  }

  lemma CompletedStack(s: Search, i: nat)
    requires StackOk(s) && i < |s.stack|
    ensures StackOk(Completed(s, i))
  {
    var s' := Completed(s, i);
    var c := set x | x in s.stack[i..];
    PoppedMore(s.components, c);
    forall x ensures x in s.stack <==> x in s'.stack || x in c {
      InSplit(s.stack, i, x);
    }
    forall x | x in s'.stack ensures x !in c {
      SplitStack(s, i, x);
    }
    assert Sorted(s') by {
      forall j, k | 0 <= j < k < |s'.stack| ensures s'.index[s'.stack[j]] < s'.index[s'.stack[k]] {
        assert s'.stack[j] == s.stack[j] && s'.stack[k] == s.stack[k];
      }
    }
    hide Sorted, Popped;
  }

  lemma InSplit(stack: seq<Node>, i: nat, x: Node)
    requires i <= |stack|
    ensures x in stack <==> x in stack[..i] || x in stack[i..]
  {
    assert stack == stack[..i] + stack[i..];
  }

  /** What is found from `n` on reaches `n`, and `n` reaches it. */
  lemma Connects(succ: Table, s: Search, gray: set<Node>, n: Node, m: Node)
    requires StackOk(s) && PathsOk(succ, s.index, s.stack, gray) && Latest(s, gray, n)
    requires m in s.stack && s.index[n] <= s.index[m]
    ensures SameComponent(succ, n, m)
  {
    hide Reaches;
    assert ReachesDown(succ, s.index, gray, m);
    var g :| LedTo(succ, s.index, gray, m, g);
    ReachesOn(succ, m, g, n);
  }

  /** Edges from what was found since `n` lead there or to completed components. */
  lemma StaysAbove(succ: Table, s: Search, gray: set<Node>, n: Node, i: nat, a: Node, b: Node)
    requires StackOk(s) && EdgesOk(succ, s.index, gray - {n}) && Ordered(succ, s.components) && Latest(s, gray, n)
    requires i < |s.stack| && s.stack[i] == n && Done(succ, s, n) && s.low[n] == s.index[n]
    requires (a in s.stack[i..] || a in Popped(s.components)) && Edge(succ, a, b)
    requires PathsOk(succ, s.index, s.stack, gray)
    ensures b in s.stack[i..] || b in Popped(s.components)
  {
    hide Ordered, Descends;
    if a in Popped(s.components) {
      PoppedClosed(succ, s.components, a, b);
    } else {
      SplitStack(s, i, a);
      assert a !in gray - {n} by {
        if a in gray {
          SameIndex(s, a, n);
        }
      }
      assert b in s.index;
      if b in s.stack {
        assert NoLower(succ, s, a, s.index[n], s.low[n]);
        SplitStack(s, i, b);
      }
    }
  }

  lemma CompletedIsComponent(succ: Table, s: Search, gray: set<Node>, n: Node, i: nat)
    requires Inv(succ, s, gray) && EdgesOk(succ, s.index, gray - {n}) && Latest(s, gray, n)
    requires i < |s.stack| && s.stack[i] == n && Done(succ, s, n) && s.low[n] == s.index[n]
    ensures IsComponent(succ, set x | x in s.stack[i..])
  {
    hide Ordered, Descends, Done;
    var c := set x | x in s.stack[i..];
    var all := c + Popped(s.components);
    assert s.stack[i..][0] == n;
    forall x, y | x in all && Edge(succ, x, y) ensures y in all {
      StaysAbove(succ, s, gray, n, i, x, y);
    }
    forall a, b | a in c && b in c ensures SameComponent(succ, a, b) {
      SplitStack(s, i, a);
      SplitStack(s, i, b);
      Connects(succ, s, gray, n, a);
      Connects(succ, s, gray, n, b);
      ReachesOn(succ, a, n, b);
      ReachesOn(succ, b, n, a);
    }
    forall a, b | a in c && SameComponent(succ, a, b) ensures b in c {
      SplitStack(s, i, a);
      StaysWithin(succ, all, a, b);
      if b in Popped(s.components) {
        forall x, y | x in Popped(s.components) && Edge(succ, x, y) ensures y in Popped(s.components) {
          PoppedClosed(succ, s.components, x, y);
        }
        StaysWithin(succ, Popped(s.components), b, a);
      }
    }
    forall a | a in c ensures a in succ {
      SplitStack(s, i, a);
    }
  }

  lemma CompletedOrdered(succ: Table, s: Search, gray: set<Node>, n: Node, i: nat)
    requires Inv(succ, s, gray) && EdgesOk(succ, s.index, gray - {n}) && Latest(s, gray, n)
    requires i < |s.stack| && s.stack[i] == n && Done(succ, s, n) && s.low[n] == s.index[n]
    ensures Ordered(succ, Completed(s, i).components)
  {
    hide Done, IsComponent;
    CompletedIsComponent(succ, s, gray, n, i);
    var c := set x | x in s.stack[i..];
    var comps := Completed(s, i).components;
    PoppedMore(s.components, c);
    forall k | 0 <= k < |comps| ensures Descends(succ, comps, k) {
      if k < |s.components| {
        assert Descends(succ, s.components, k);
        assert comps[..k + 1] == s.components[..k + 1];
      } else {
        assert comps[..k + 1] == s.components + [c];
        forall a, b | a in comps[k] && Edge(succ, a, b) ensures b in Popped(comps[..k + 1]) {
          StaysAbove(succ, s, gray, n, i, a, b);
        }
      }
    }
    forall j, x | 0 <= j < |s.components| && x in s.components[j] ensures x !in c {
      assert x in Popped(s.components);
      SplitStack(s, i, x);
    }
  }

  lemma CompletedPaths(succ: Table, s: Search, gray: set<Node>, n: Node, i: nat)
    requires StackOk(s) && PathsOk(succ, s.index, s.stack, gray) && Latest(s, gray, n) && i < |s.stack|
      && s.stack[i] == n
    ensures PathsOk(succ, Completed(s, i).index, Completed(s, i).stack, gray - {n})
  {
    hide Reaches;
    var s' := Completed(s, i);
    forall g | g in gray - {n} ensures g in s'.stack {
      SplitStack(s, i, g);
      if s.index[g] == s.index[n] {
        SameIndex(s, g, n);
      }
    }
    forall m | m in s'.stack ensures ReachesDown(succ, s'.index, gray - {n}, m) {
      SplitStack(s, i, m);
      assert ReachesDown(succ, s.index, gray, m);
      var g :| LedTo(succ, s.index, gray, m, g);
      assert LedTo(succ, s'.index, gray - {n}, m, g);
    }
    forall m | m in s'.stack ensures m in s.stack {
      SplitStack(s, i, m);
    }
  }

  /** A node whose low link is its own completes a component: all found since, on the stack. */
  lemma CompletedOk(succ: Table, s: Search, gray: set<Node>, n: Node, i: nat)
    requires Inv(succ, s, gray) && Latest(s, gray, n) && i < |s.stack| && s.stack[i] == n
    requires n in succ && Frame(succ, s, n, |succ[n]|, |s.index|) && s.low[n] == s.index[n]
    ensures Inv(succ, Completed(s, i), gray - {n}) && Done(succ, Completed(s, i), n)
  {
    hide Descends, Ordered, PathsOk;
    FinishedEdges(succ, s, gray, n);
    AllNoLower(succ, s, n);
    CompletedOrdered(succ, s, gray, n, i);
    CompletedStack(s, i);
    CompletedPaths(succ, s, gray, n, i);
    var s' := Completed(s, i);
    forall a | a in s'.stack ensures s'.index[a] < s'.index[n] {
      SplitStack(s, i, a);
    }
  }

  lemma CompletedKeeps(succ: Table, s: Search, i: nat, m: Node, k: nat, top: nat)
    requires StackOk(s) && i < |s.stack| && Frame(succ, s, m, k, top) && s.index[m] < s.index[s.stack[i]]
    ensures Frame(succ, Completed(s, i), m, k, top)
  {
    hide Reaches;
    var s' := Completed(s, i);
    var y :| LowAt(succ, s, m, y);
    SplitStack(s, i, y);
    SplitStack(s, i, m);
    assert LowAt(succ, s', m, y);
    forall a | a in s'.stack ensures a in s.stack {
      SplitStack(s, i, a);
    }
    forall a | a in s'.stack && a in s'.index && s'.index[m] < s'.index[a] < top
      ensures NoLower(succ, s', a, s'.index[m], s'.low[m]) {
      assert NoLower(succ, s, a, s.index[m], s.low[m]);
    }
  }

  // ---- what a stretch of the search keeps ----

  /** Indices stay as they are and the frames of nodes open before stay frames. */
  ghost predicate Kept(succ: Table, s: Search, s': Search) {
    && |s.index| <= |s'.index|
    && (forall m :: m in s.index ==> m in s'.index && s'.index[m] == s.index[m])
    && (forall m, k: nat, top: nat {:trigger Frame(succ, s', m, k, top)} ::
          m in s.index && top <= |s.index| && Frame(succ, s, m, k, top) ==> Frame(succ, s', m, k, top))
  }

  lemma KeptOn(succ: Table, s: Search, s': Search, s'': Search)
    requires Kept(succ, s, s') && Kept(succ, s', s'')
    ensures Kept(succ, s, s'')
  {
    hide Frame;
    forall m, k: nat, top: nat | m in s.index && top <= |s.index| && Frame(succ, s, m, k, top)
      ensures Frame(succ, s'', m, k, top) {
      assert Frame(succ, s', m, k, top);
    }
  }

  lemma FoundKept(succ: Table, s: Search, n: Node)
    requires StackOk(s) && n !in s.index
    ensures Kept(succ, s, Found(s, n))
  {
    hide Frame, StackOk;
    InFound(s, n, n);
    forall m, k: nat, top: nat | m in s.index && top <= |s.index| && Frame(succ, s, m, k, top)
      ensures Frame(succ, Found(s, n), m, k, top) {
      FoundKeeps(succ, s, n, m, k, top);
    }
  }

  lemma LoweredKept(succ: Table, s0: Search, s: Search, n: Node, l: nat)
    requires Kept(succ, s0, s) && n !in s0.index && n in s.low
    ensures Kept(succ, s0, Lowered(s, n, l))
  {
    hide Frame;
    forall m, k: nat, top: nat | m in s0.index && top <= |s0.index| && Frame(succ, s0, m, k, top)
      ensures Frame(succ, Lowered(s, n, l), m, k, top) {
      assert Frame(succ, s, m, k, top);
      LoweredKeeps(succ, s, n, l, m, k, top);
    }
  }

  lemma CompletedKept(succ: Table, s0: Search, s: Search, i: nat)
    requires StackOk(s) && i < |s.stack| && Kept(succ, s0, s)
    requires forall m :: m in s0.index ==> s0.index[m] < s.index[s.stack[i]]
    ensures Kept(succ, s0, Completed(s, i))
  {
    hide Frame;
    forall m, k: nat, top: nat | m in s0.index && top <= |s0.index| && Frame(succ, s0, m, k, top)
      ensures Frame(succ, Completed(s, i), m, k, top) {
      assert Frame(succ, s, m, k, top);
      CompletedKeeps(succ, s, i, m, k, top);
    }
  }

  /** Between searches nothing is open, so nothing waits on the stack. */
  lemma NothingWaits(succ: Table, s: Search)
    requires Inv(succ, s, {})
    ensures s.stack == [] && s.index.Keys == Popped(s.components)
  {
    if s.stack != [] {
      assert s.stack[0] in s.stack;
      var g := LedSomewhere(succ, s.index, {}, s.stack[0]);
    }
  }

  lemma StartOk(succ: Table)
    requires Closed(succ)
    ensures Inv(succ, Search(map[], map[], [], []), {})
  {
  }

  /** Two searches that cover the graph complete the same components, in whatever order. */
  lemma SamePartition(succ: Table, components: seq<set<Node>>, others: seq<set<Node>>, c: set<Node>)
    requires Ordered(succ, components) && Popped(components) == succ.Keys
    requires Ordered(succ, others) && Popped(others) == succ.Keys
    requires c in components
    ensures c in others
  {
    var k :| 0 <= k < |components| && components[k] == c;
    assert Descends(succ, components, k);
    var n :| n in c;
    assert n in Popped(others);
    var j :| 0 <= j < |others| && n in others[j];
    assert Descends(succ, others, j);
    OneComponent(succ, c, others[j], n);
  }
}
