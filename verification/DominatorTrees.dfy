/** The finished dominator tree: children, depths, dominance frontiers, and the queries the
    analyses ask of it. */
module DominatorTrees {
  import opened Graphs
  import opened Options
  import opened Trees
  import opened Dominators
  import opened Sorting

  type Frontiers = map<Node, set<Node>>

  datatype DominatorTree = DominatorTree(
    root: Node,
    blocks: seq<Node>,
    idom: Parents,
    children: map<Node, seq<Node>>,
    frontier: Frontiers,
    depth: map<Node, nat>)
  {
    /** The tree is the dominator tree of the graph. */
    ghost predicate Of(succ: Table) {
      && Closed(succ) && root in succ
      && IsTree(root, depth, idom)
      && (forall n {:trigger Reaches(succ, root, n)} :: n in idom <==> Reaches(succ, root, n))
      && (forall a, b {:trigger Graphs.Dominates(succ, root, a, b)} ::
            b in idom ==> (a in Anc(root, depth, idom, b) <==> Graphs.Dominates(succ, root, a, b)))
      && DepthsCount(root, idom, depth)
      && IsPreorder(root, idom, blocks)
      && ChildrenOf(root, idom, children)
      && (forall x :: x in frontier <==> x in idom)
      && (forall x, y {:trigger InFrontier(succ, root, x, y)} :: x in idom ==>
        (y in frontier[x] <==> InFrontier(succ, root, x, y)))
    }

    /** Whether `dominator` dominates `block`, found by climbing from `block` while it is not
        above `dominator`. */
    method Dominates(ghost succ: Table, dominator: Node, block: Node) returns (r: bool)
      requires Of(succ)
      ensures r <==>
        Reaches(succ, root, dominator) && Reaches(succ, root, block) && Graphs.Dominates(succ, root, dominator, block)
    {
      if dominator !in idom || block !in idom {
        return false;
      }
      var current := Some(block);
      while current.Some? && depth[current.value] >= depth[dominator]
        invariant current.Some? ==> current.value in idom
        invariant dominator in Anc(root, depth, idom, block)
                  <==> current.Some? && dominator in Anc(root, depth, idom, current.value)
        decreases if current.Some? then depth[current.value] + 1 else 0
      {
        if current.value == dominator {
          RootAbove(root, depth, idom, dominator);
          return true;
        }
        if current.value != root {
          assert HasParent(depth, idom, current.value);
        }
        current := idom[current.value];
      }
      if current.Some? && dominator in Anc(root, depth, idom, current.value) {
        AncBasics(root, depth, idom, current.value, dominator);
      }
      return false;
    }
  }

  /** The elements of a set, in some order. */
  method ListOf(s: set<Node>) returns (r: seq<Node>)
    ensures forall x :: x in r <==> x in s
    ensures NoDuplicates(r)
  {
    r := [];
    var rest := s;
    while rest != {}
      invariant rest <= s && (forall x :: x in r <==> x in s && x !in rest) && NoDuplicates(r)
    {
      var x :| x in rest;
      assert x !in r;
      r, rest := r + [x], rest - {x};
    }
  }

  /** Everything reached from `starts` by one or more frontier steps. */
  method IteratedFrontier(frontier: Frontiers, starts: set<Node>) returns (result: set<Node>)
    requires forall x :: x in frontier ==> frontier[x] <= frontier.Keys
    requires starts <= frontier.Keys
    ensures forall y :: y in result <==> InIteratedFrontier(frontier, starts, y)
  {
    result := {};
    var pending := ListOf(starts);
    while pending != []
      invariant result <= frontier.Keys && forall x :: x in pending ==> x in frontier
      invariant forall x :: x in pending ==> x in starts || x in result
      invariant forall x, y :: (x in starts || x in result) && x !in pending && x in frontier && y in frontier[x] ==>
        y in result
      invariant forall y :: y in result ==> InIteratedFrontier(frontier, starts, y)
      decreases frontier.Keys - result, |pending|
    {
      var next := pending[|pending| - 1];
      pending := pending[..|pending| - 1];
      var candidates := frontier[next];
      ghost var before := result;
      ghost var rest := pending;
      while candidates != {}
        invariant candidates <= frontier[next]
        invariant before <= result <= frontier.Keys && result <= before + frontier[next]
        invariant frontier[next] <= result + candidates
        invariant forall x :: x in pending <==> x in rest || (x in result && x !in before)
        invariant result == before ==> pending == rest
        decreases candidates
      {
        var candidate :| candidate in candidates;
        candidates := candidates - {candidate};
        if candidate !in result {
          result := result + {candidate};
          pending := pending + [candidate];
        }
      }
      forall y | y in result && y !in before ensures InIteratedFrontier(frontier, starts, y) {
        ChainGrows(frontier, starts, next, y);
      }
      if result != before {
        assert frontier.Keys - result < frontier.Keys - before by {
          var y :| y in result && y !in before;
          assert y in frontier.Keys - before && y !in frontier.Keys - result;
        }
      }
    }
    forall y | InIteratedFrontier(frontier, starts, y) ensures y in result {
      var c :| FrontierChain(frontier, starts, c) && |c| > 1 && c[|c| - 1] == y;
      ChainStays(frontier, starts, result, c);
    }
  }

  /** The textbook frontier of `x`: where its dominance ends. The algorithm never looks at the
      predecessors of the root. */
  ghost predicate InFrontier(succ: Table, root: Node, x: Node, y: Node) {
    && y != root
    && !StrictlyDominates(succ, root, x, y)
    && exists p :: Edge(succ, p, y) && Reaches(succ, root, p) && Graphs.Dominates(succ, root, x, p)
  }

  ghost predicate FrontierChain(frontier: Frontiers, starts: set<Node>, c: seq<Node>) {
    && |c| > 0 && c[0] in starts
    && forall i :: 0 <= i < |c| - 1 ==> c[i] in frontier && c[i + 1] in frontier[c[i]]
  }

  /** `y` is reached from `starts` by one or more frontier steps. */
  ghost predicate InIteratedFrontier(frontier: Frontiers, starts: set<Node>, y: Node) {
    exists c :: FrontierChain(frontier, starts, c) && |c| > 1 && c[|c| - 1] == y
  }

  lemma ChainGrows(frontier: Frontiers, starts: set<Node>, x: Node, y: Node)
    requires x in frontier && y in frontier[x]
    requires x in starts || InIteratedFrontier(frontier, starts, x)
    ensures InIteratedFrontier(frontier, starts, y)
  {
    var c := [x];
    if x !in starts {
      c :| FrontierChain(frontier, starts, c) && |c| > 1 && c[|c| - 1] == x;
    }
    assert FrontierChain(frontier, starts, c + [y]);
  }

  lemma {:induction false} ChainStays(frontier: Frontiers, starts: set<Node>, result: set<Node>, c: seq<Node>)
    requires FrontierChain(frontier, starts, c) && |c| > 1
    requires forall x, y :: (x in starts || x in result) && x in frontier && y in frontier[x] ==> y in result
    ensures c[|c| - 1] in result
  {
    assert c[|c| - 2 + 1] in frontier[c[|c| - 2]];
    if |c| > 2 {
      ChainStays(frontier, starts, result, c[..|c| - 1]);
    }
  }

  lemma FrontierReached(succ: Table, root: Node, x: Node, y: Node)
    requires InFrontier(succ, root, x, y)
    ensures Reaches(succ, root, y)
  {
    var p :| Edge(succ, p, y) && Reaches(succ, root, p) && Graphs.Dominates(succ, root, x, p);
    var w :| WalkTo(succ, w, root, p);
    WalkExtend(succ, w, y);
  }

  ghost predicate DepthsCount(root: Node, idom: Parents, depth: map<Node, nat>) {
    && depth.Keys == idom.Keys
    && root in depth && depth[root] == 0
    && forall n {:trigger idom[n]} :: n in idom && idom[n].Some? ==>
      idom[n].value in depth && depth[n] == depth[idom[n].value] + 1
  }

  /** Each node once, after its parent. */
  ghost predicate IsPreorder(root: Node, idom: Parents, blocks: seq<Node>) {
    && |blocks| > 0 && blocks[0] == root
    && NoDuplicates(blocks)
    && (forall n :: n in blocks <==> n in idom)
    && (forall i {:trigger ParentBefore(idom, blocks, i)} :: 0 < i < |blocks| ==> ParentBefore(idom, blocks, i))
  }

  ghost predicate ParentBefore(idom: Parents, s: seq<Node>, i: nat)
    requires i < |s|
  {
    && s[i] in idom && idom[s[i]].Some?
    && exists j :: 0 <= j < i && s[j] == idom[s[i]].value
  }

  ghost predicate ChildrenOf(root: Node, idom: Parents, children: map<Node, seq<Node>>) {
    && children.Keys == idom.Keys
    && (forall p :: p in children ==> NoDuplicates(children[p]))
    && (forall p, n :: p in children ==> (n in children[p] <==> n in idom && idom[n] == Some(p)))
  }

  // ---- building the tree from the settled parents ----

  /** Every node but the root hangs below the meet of its predecessors. */
  ghost predicate AllInPlace(succ: Table, root: Node, index: map<Node, nat>, idom: Parents) {
    && IsTree(root, index, idom)
    && idom.Keys == index.Keys
    && forall n {:trigger InPlace(succ, root, index, idom, n)} :: n in idom && n != root ==>
      InPlace(succ, root, index, idom, n)
  }

  /** Adds `node` to the frontier of every node from `predecessor` up to, but not including,
      `stop`. */
  method Climb(root: Node, ghost index: map<Node, nat>, idom: Parents, frontier0: Frontiers, predecessor: Node,
      stop: Node, node: Node)
    returns (frontier: Frontiers)
    requires IsTree(root, index, idom) && frontier0.Keys == idom.Keys
    requires predecessor in idom && stop in Anc(root, index, idom, predecessor)
    ensures frontier.Keys == idom.Keys && stop in idom
    ensures forall x, y :: x in idom ==> (y in frontier[x] <==>
      y in frontier0[x] || (y == node && x in Anc(root, index, idom, predecessor)
        && x !in Anc(root, index, idom, stop)))
  {
    AncBasics(root, index, idom, predecessor, stop);
    RootAbove(root, index, idom, predecessor);
    frontier := frontier0;
    var runner := Some(predecessor);
    while runner.Some? && runner.value != stop
      invariant frontier.Keys == idom.Keys
      invariant runner.Some? && runner.value in idom && runner.value in Anc(root, index, idom, predecessor)
      invariant stop in Anc(root, index, idom, runner.value)
      invariant forall x, y :: x in idom ==> (y in frontier[x] <==>
        y in frontier0[x] || (y == node && x in Anc(root, index, idom, predecessor)
          && x !in Anc(root, index, idom, runner.value)))
      decreases if runner.Some? then index[runner.value] + 1 else 0
    {
      var r := runner.value;
      assert r != root;
      assert HasParent(index, idom, r);
      frontier := frontier[r := frontier[r] + {node}];
      NotBelow(root, index, idom, r, idom[r].value);
      RootAbove(root, index, idom, idom[r].value);
      AncBasics(root, index, idom, predecessor, r);
      runner := idom[r];
    }
  }

  /** `x` is above a predecessor of `y`, and not strictly above `y`. */
  ghost predicate EndsAt(succ: Table, root: Node, index: map<Node, nat>, idom: Parents, x: Node, y: Node)
    requires IsTree(root, index, idom)
  {
    && y in idom && y != root
    && (assert HasParent(index, idom, y); x !in Anc(root, index, idom, idom[y].value))
    && exists p :: p in idom && Edge(succ, p, y) && x in Anc(root, index, idom, p)
  }

  /** `Climb` from each predecessor of `node` seen so far. */
  method ClimbAll(ghost succ: Table, root: Node, ghost index: map<Node, nat>, idom: Parents, preds: seq<Node>,
                  frontier0: Frontiers, node: Node)
    returns (frontier: Frontiers)
    requires IsTree(root, index, idom) && idom.Keys == index.Keys && frontier0.Keys == idom.Keys
    requires node in index && InPlace(succ, root, index, idom, node)
    requires node != root
    requires forall p :: p in preds <==> p in index && Edge(succ, p, node)
    ensures frontier.Keys == idom.Keys
    ensures forall x, y :: x in idom ==>
      (y in frontier[x] <==> y in frontier0[x] || (y == node && EndsAt(succ, root, index, idom, x, y)))
  {
    frontier := frontier0;
    var stop := idom[node].value;
    RootAbove(root, index, idom, stop);
    assert Common(succ, root, index, idom, node, stop);
    var k := 0;
    while k < |preds|
      invariant 0 <= k <= |preds| && frontier.Keys == idom.Keys
      invariant forall x, y :: x in idom ==> (y in frontier[x] <==>
        y in frontier0[x] || (y == node && x !in Anc(root, index, idom, stop)
          && AboveSome(root, index, idom, preds[..k], x)))
    {
      assert preds[..k + 1] == preds[..k] + [preds[k]];
      assert preds[k] in preds;
      frontier := Climb(root, index, idom, frontier, preds[k], stop, node);
      k := k + 1;
    }
    assert preds[..k] == preds;
  }

  ghost predicate AboveSome(root: Node, index: map<Node, nat>, idom: Parents, s: seq<Node>, x: Node)
    requires IsTree(root, index, idom) && forall p :: p in s ==> p in idom
  {
    exists p :: p in s && x in Anc(root, index, idom, p)
  }

  /** A node with a single predecessor hangs below it and ends no frontier. */
  lemma SinglePredecessor(succ: Table, root: Node, index: map<Node, nat>, idom: Parents, preds: seq<Node>, x: Node,
      y: Node)
    requires IsTree(root, index, idom) && idom.Keys == index.Keys && y in idom && y != root
      && InPlace(succ, root, index, idom, y)
    requires |preds| < 2 && forall p :: p in preds <==> p in index && Edge(succ, p, y)
    ensures !EndsAt(succ, root, index, idom, x, y)
  {
    forall p | p in idom && Edge(succ, p, y) && x in Anc(root, index, idom, p)
      ensures x in Anc(root, index, idom, idom[y].value)
    {
      assert preds == [p];
      AncBasics(root, index, idom, p, x);
      assert Common(succ, root, index, idom, y, x);
    }
  }

  method FrontierOf(ghost succ: Table, root: Node, rpo: seq<Node>, ghost index: map<Node, nat>, idom: Parents,
      preds: map<Node, seq<Node>>)
    returns (frontier: Frontiers)
    requires AllInPlace(succ, root, index, idom)
    requires forall n :: n in index ==> n in preds && forall p :: p in preds[n] <==> p in index && Edge(succ, p, n)
    requires forall n :: n in rpo <==> n in index
    ensures frontier.Keys == idom.Keys
    ensures forall x, y :: x in idom ==> (y in frontier[x] <==> EndsAt(succ, root, index, idom, x, y))
  {
    hide InPlace;
    frontier := map n | n in idom :: {};
    var k := 0;
    while k < |rpo|
      invariant 0 <= k <= |rpo| && frontier.Keys == idom.Keys
      invariant forall x, y :: x in idom ==>
        (y in frontier[x] <==> y in rpo[..k] && EndsAt(succ, root, index, idom, x, y))
    {
      var node := rpo[k];
      assert rpo[..k + 1] == rpo[..k] + [node];
      if node == root || |preds[node]| < 2 {
        forall x ensures !EndsAt(succ, root, index, idom, x, node) {
          if node != root {
            SinglePredecessor(succ, root, index, idom, preds[node], x, node);
          }
        }
      } else {
        frontier := ClimbAll(succ, root, index, idom, preds[node], frontier, node);
      }
      k := k + 1;
    }
    assert rpo[..k] == rpo;
  }

  lemma EndsAtIsTextbook(succ: Table, root: Node, rpo: seq<Node>, index: map<Node, nat>, idom: Parents, x: Node,
      y: Node)
    requires Settled(succ, root, rpo, index, idom) && x in idom
    ensures EndsAt(succ, root, index, idom, x, y) <==> InFrontier(succ, root, x, y)
  {
    forall p ensures p in idom <==> Reaches(succ, root, p) {
      OrderedIsReachable(succ, root, rpo, index, p);
    }
    forall p | p in idom ensures x in Anc(root, index, idom, p) <==> Graphs.Dominates(succ, root, x, p) {
      AboveIsDominates(succ, root, rpo, index, idom, x, p);
    }
    if y in idom && y != root {
      assert InPlace(succ, root, index, idom, y);
      NotBelow(root, index, idom, y, idom[y].value);
    }
    if InFrontier(succ, root, x, y) {
      FrontierReached(succ, root, x, y);
    }
  }

  /** The nodes of `nodes` that hang directly below `p`, in order. */
  function ChildrenIn(nodes: seq<Node>, idom: Parents, p: Node): seq<Node>
    requires forall n :: n in nodes ==> n in idom
  {
    if nodes == [] then []
    else
      var last := nodes[|nodes| - 1];
      ChildrenIn(nodes[..|nodes| - 1], idom, p) + if idom[last] == Some(p) then [last] else []
  }

  lemma {:induction false} ChildrenListed(nodes: seq<Node>, idom: Parents, p: Node)
    requires NoDuplicates(nodes) && forall n :: n in nodes ==> n in idom
    ensures var r := ChildrenIn(nodes, idom, p);
      NoDuplicates(r) && forall n :: n in r <==> n in nodes && idom[n] == Some(p)
  {
    if nodes != [] {
      var rest, last := nodes[..|nodes| - 1], nodes[|nodes| - 1];
      assert nodes == rest + [last];
      LastOnce(nodes);
      ChildrenListed(rest, idom, p);
      if idom[last] == Some(p) {
        ListedOnceMore(ChildrenIn(rest, idom, p), last);
      }
      hide NoDuplicates;
    }
  }

  lemma LastOnce(nodes: seq<Node>)
    requires NoDuplicates(nodes) && nodes != []
    ensures NoDuplicates(nodes[..|nodes| - 1]) && nodes[|nodes| - 1] !in nodes[..|nodes| - 1]
  {
  }

  lemma ListedOnceMore(nodes: seq<Node>, n: Node)
    requires NoDuplicates(nodes) && n !in nodes
    ensures NoDuplicates(nodes + [n])
  {
  }

  lemma {:induction false} ChildrenSorted(nodes: seq<Node>, idom: Parents, p: Node, order: Node -> int)
    requires SortedBy(nodes, order) && forall n :: n in nodes ==> n in idom
    ensures SortedBy(ChildrenIn(nodes, idom, p), order)
    ensures forall n :: n in ChildrenIn(nodes, idom, p) ==> n in nodes
  {
    if nodes != [] {
      var rest, last := nodes[..|nodes| - 1], nodes[|nodes| - 1];
      assert nodes == rest + [last];
      ChildrenSorted(rest, idom, p, order);
      var children := ChildrenIn(rest, idom, p);
      forall i | 0 <= i < |children| ensures order(children[i]) <= order(last) {
        assert children[i] in rest;
      }
    }
  }

  /** The first `k` nodes are among the children of what they hang below. */
  ghost predicate ChildrenUpTo(children: map<Node, seq<Node>>, nodes: seq<Node>, k: nat, idom: Parents)
    requires k <= |nodes| && forall n :: n in nodes ==> n in idom
  {
    children.Keys == idom.Keys && forall p :: p in children ==> children[p] == ChildrenIn(nodes[..k], idom, p)
  }

  lemma ChildrenNext(children: map<Node, seq<Node>>, nodes: seq<Node>, k: nat, idom: Parents)
    requires k < |nodes| && (forall n :: n in nodes ==> n in idom) && ChildrenUpTo(children, nodes, k, idom)
    requires ParentsIn(idom)
    ensures var parent := idom[nodes[k]];
      if parent.Some? then
        parent.value in children &&
        ChildrenUpTo(children[parent.value := children[parent.value] + [nodes[k]]], nodes, k + 1, idom)
      else ChildrenUpTo(children, nodes, k + 1, idom)
  {
    assert nodes[..k + 1][..k] == nodes[..k];
    assert nodes[k] in nodes;
  }

  lemma SortedListsOnce(nodes: seq<Node>, sorted: seq<Node>, from: seq<nat>)
    requires NoDuplicates(nodes) && Rearranges(nodes, sorted, from)
    ensures NoDuplicates(sorted) && forall n :: n in sorted <==> n in nodes
  {
    forall n ensures n in sorted <==> n in nodes {
      SameElements(nodes, sorted, from, n);
    }
  }

  /** Siblings are in the order asked for. */
  ghost predicate SiblingsInOrder(children: map<Node, seq<Node>>, order: Node -> int) {
    forall p {:trigger children[p]} :: p in children ==> SortedBy(children[p], order)
  }

  /** The nodes that hang directly below each, siblings sorted. */
  method Children(root: Node, rpo: seq<Node>, idom: Parents, order: Node -> int)
    returns (children: map<Node, seq<Node>>)
    requires NoDuplicates(rpo) && (forall n :: n in rpo <==> n in idom)
    requires ParentsIn(idom)
    ensures ChildrenOf(root, idom, children) && SiblingsInOrder(children, order)
  {
    hide NoDuplicates, SortedBy, ChildrenIn, Rearranges, ChildrenUpTo, ParentsIn;
    var nodes, from := SortBy(rpo, order);
    SortedListsOnce(rpo, nodes, from);
    children := Collect(nodes, idom);
    AllChildren(root, nodes, idom, order, children);
  }

  method Collect(nodes: seq<Node>, idom: Parents) returns (children: map<Node, seq<Node>>)
    requires (forall n :: n in nodes ==> n in idom) && ParentsIn(idom)
    ensures ChildrenUpTo(children, nodes, |nodes|, idom)
  {
    hide ChildrenUpTo, ParentsIn;
    children := map n | n in idom :: [];
    NoChildren(nodes, idom);
    for k := 0 to |nodes|
      invariant ChildrenUpTo(children, nodes, k, idom)
    {
      ChildrenNext(children, nodes, k, idom);
      var parent := idom[nodes[k]];
      if parent.Some? {
        children := children[parent.value := children[parent.value] + [nodes[k]]];
      }
    }
  }

  lemma NoChildren(nodes: seq<Node>, idom: Parents)
    requires forall n :: n in nodes ==> n in idom
    ensures ChildrenUpTo(map n | n in idom :: [], nodes, 0, idom)
  {
  }

  lemma AllChildren(root: Node, nodes: seq<Node>, idom: Parents, order: Node -> int, children: map<Node, seq<Node>>)
    requires NoDuplicates(nodes) && SortedBy(nodes, order) && (forall n :: n in nodes <==> n in idom)
    requires ChildrenUpTo(children, nodes, |nodes|, idom)
    ensures ChildrenOf(root, idom, children) && SiblingsInOrder(children, order)
  {
    hide NoDuplicates, SortedBy, ChildrenIn;
    assert nodes[..|nodes|] == nodes;
    forall p | p in children
      ensures NoDuplicates(children[p]) && forall n :: n in children[p] <==> n in nodes && idom[n] == Some(p)
    {
      ChildrenListed(nodes, idom, p);
    }
    forall p | p in children ensures SortedBy(children[p], order) {
      ChildrenSorted(nodes, idom, p, order);
    }
  }

  /** `node` and everything below it, each node after its parent. */
  method Walk(root: Node, ghost rank: map<Node, nat>, ghost top: nat, idom: Parents, children: map<Node, seq<Node>>,
      node: Node)
    returns (preorder: seq<Node>)
    requires IsTree(root, rank, idom) && Ranked(rank) && ChildrenOf(root, idom, children) && node in idom
    requires forall n :: n in idom ==> rank[n] < top
    ensures |preorder| > 0 && preorder[0] == node
    ensures forall n :: n in preorder <==> n in idom && node in Anc(root, rank, idom, n)
    ensures NoDuplicates(preorder)
    ensures forall i :: 0 < i < |preorder| ==> ParentBefore(idom, preorder, i)
    decreases top - rank[node]
  {
    preorder := [node];
    var k := 0;
    while k < |children[node]|
      invariant 0 <= k <= |children[node]|
      invariant Walked(root, rank, idom, node, children[node][..k], preorder)
    {
      var child := children[node][k];
      ChildHangs(root, rank, idom, children, node, k);
      var below := Walk(root, rank, top, idom, children, child);
      WalkedOn(root, rank, idom, children, node, k, preorder, below);
      preorder := preorder + below;
      k := k + 1;
    }
    assert children[node][..k] == children[node];
    forall n | n in idom ensures node in Anc(root, rank, idom, n) <==>
      n == node || AboveSomeOf(root, rank, idom, children[node], n) {
      ChildOrBelow(root, rank, idom, children, node, n);
      BelowOrChild(root, rank, idom, children, node, n);
    }
  }

  /** `preorder` lists `node` and what hangs below the given children of it. */
  ghost predicate Walked(root: Node, rank: map<Node, nat>, idom: Parents, node: Node, children: seq<Node>,
      preorder: seq<Node>)
    requires IsTree(root, rank, idom)
  {
    && |preorder| > 0 && preorder[0] == node
    && (forall n :: n in preorder <==> n == node || (n in idom && AboveSomeOf(root, rank, idom, children, n)))
    && NoDuplicates(preorder)
    && (forall i :: 0 < i < |preorder| ==> ParentBefore(idom, preorder, i))
  }

  ghost predicate AboveSomeOf(root: Node, rank: map<Node, nat>, idom: Parents, s: seq<Node>, n: Node)
    requires IsTree(root, rank, idom) && n in idom
  {
    exists c :: c in s && c in Anc(root, rank, idom, n)
  }

  lemma ChildHangs(root: Node, rank: map<Node, nat>, idom: Parents, children: map<Node, seq<Node>>, node: Node, k: nat)
    requires IsTree(root, rank, idom) && ChildrenOf(root, idom, children) && node in idom && k < |children[node]|
    ensures var c := children[node][k]; c in idom && c != root && idom[c] == Some(node) && rank[node] < rank[c]
  {
    assert children[node][k] in children[node];
    assert HasParent(rank, idom, children[node][k]);
  }

  lemma WalkedOn(root: Node, rank: map<Node, nat>, idom: Parents, children: map<Node, seq<Node>>, node: Node, k: nat,
      preorder: seq<Node>, below: seq<Node>)
    requires IsTree(root, rank, idom) && Ranked(rank) && ChildrenOf(root, idom, children) && node in idom
    requires k < |children[node]| && Walked(root, rank, idom, node, children[node][..k], preorder)
    requires |below| > 0 && below[0] == children[node][k] && NoDuplicates(below)
    requires forall n :: n in below <==> n in idom && children[node][k] in Anc(root, rank, idom, n)
    requires forall i :: 0 < i < |below| ==> ParentBefore(idom, below, i)
    ensures Walked(root, rank, idom, node, children[node][..k + 1], preorder + below)
  {
    var child := children[node][k];
    ChildHangs(root, rank, idom, children, node, k);
    assert children[node][..k + 1] == children[node][..k] + [child];
    forall n | n in preorder ensures n !in below {
      if n in below {
        Apart(root, rank, idom, children, node, k, n);
      }
    }
    forall n | n in idom
      ensures AboveSomeOf(root, rank, idom, children[node][..k + 1], n)
              <==> AboveSomeOf(root, rank, idom, children[node][..k], n) || child in Anc(root, rank, idom, n)
    {
      assert child in children[node][..k + 1];
      assert forall c :: c in children[node][..k + 1] <==> c in children[node][..k] || c == child;
    }
    NoDuplicatesJoin(preorder, below);
    forall i | 0 < i < |preorder + below| ensures ParentBefore(idom, preorder + below, i) {
      ParentsJoin(idom, node, preorder, below, i);
    }
  }

  lemma NoDuplicatesJoin(s: seq<Node>, t: seq<Node>)
    requires NoDuplicates(s) && NoDuplicates(t) && forall n :: n in s ==> n !in t
    ensures NoDuplicates(s + t)
  {
    forall i, j | 0 <= i < j < |s + t| ensures (s + t)[i] != (s + t)[j] {
      if i < |s| <= j {
        assert (s + t)[i] in s && (s + t)[j] in t;
      }
    }
  }

  lemma ParentsJoin(idom: Parents, node: Node, s: seq<Node>, t: seq<Node>, i: nat)
    requires |s| > 0 && |t| > 0 && s[0] == node && t[0] in idom && idom[t[0]] == Some(node)
    requires forall i :: 0 < i < |s| ==> ParentBefore(idom, s, i)
    requires forall i :: 0 < i < |t| ==> ParentBefore(idom, t, i)
    requires 0 < i < |s + t|
    ensures ParentBefore(idom, s + t, i)
  {
    if i < |s| {
      assert ParentBefore(idom, s, i);
      var j :| 0 <= j < i && s[j] == idom[s[i]].value;
      assert (s + t)[j] == s[j];
    } else if i == |s| {
      assert (s + t)[0] == node;
    } else {
      assert ParentBefore(idom, t, i - |s|);
      var j :| 0 <= j < i - |s| && t[j] == idom[t[i - |s|]].value;
      assert (s + t)[|s| + j] == t[j];
    }
  }

  /** What hangs below one child hangs below no other, nor is it the parent. */
  lemma Apart(root: Node, rank: map<Node, nat>, idom: Parents, children: map<Node, seq<Node>>, node: Node, k: nat,
      n: Node)
    requires IsTree(root, rank, idom) && ChildrenOf(root, idom, children) && node in idom
    requires k < |children[node]| && n in idom && children[node][k] in Anc(root, rank, idom, n)
    ensures n != node && !AboveSomeOf(root, rank, idom, children[node][..k], n)
  {
    var c := children[node][k];
    ChildHangs(root, rank, idom, children, node, k);
    AncBasics(root, rank, idom, n, c);
    forall d | d in children[node][..k] ensures d !in Anc(root, rank, idom, n) {
      var x :| 0 <= x < k && children[node][x] == d;
      ChildHangs(root, rank, idom, children, node, x);
      if d in Anc(root, rank, idom, n) {
        if rank[c] <= rank[d] {
          AncChain(root, rank, idom, n, c, d);
          AncBasics(root, rank, idom, node, c);
        } else {
          AncChain(root, rank, idom, n, d, c);
          AncBasics(root, rank, idom, node, d);
        }
      }
    }
  }

  lemma ChildOrBelow(root: Node, rank: map<Node, nat>, idom: Parents, children: map<Node, seq<Node>>, node: Node,
      n: Node)
    requires IsTree(root, rank, idom) && ChildrenOf(root, idom, children) && node in idom && n in idom
    ensures n == node || AboveSomeOf(root, rank, idom, children[node], n) ==> node in Anc(root, rank, idom, n)
  {
    RootAbove(root, rank, idom, node);
    if AboveSomeOf(root, rank, idom, children[node], n) {
      var c :| c in children[node] && c in Anc(root, rank, idom, n);
      AncBasics(root, rank, idom, n, c);
      assert HasParent(rank, idom, c);
    }
  }

  lemma {:induction false} BelowOrChild(root: Node, rank: map<Node, nat>, idom: Parents, children: map<Node, seq<Node>>,
      node: Node, n: Node)
    requires IsTree(root, rank, idom) && ChildrenOf(root, idom, children) && node in idom && n in idom
    ensures node in Anc(root, rank, idom, n) ==> n == node || AboveSomeOf(root, rank, idom, children[node], n)
    decreases rank[n]
  {
    if n != root && n != node && node in Anc(root, rank, idom, n) {
      assert HasParent(rank, idom, n);
      var up := idom[n].value;
      BelowOrChild(root, rank, idom, children, node, up);
      if up == node {
        assert n in children[node] && n in Anc(root, rank, idom, n);
      } else {
        var c :| c in children[node] && c in Anc(root, rank, idom, up);
        assert c in Anc(root, rank, idom, n);
      }
    }
  }

  method Depths(root: Node, idom: Parents, blocks: seq<Node>) returns (depth: map<Node, nat>)
    requires IsPreorder(root, idom, blocks) && root in idom && idom[root] == None
    ensures DepthsCount(root, idom, depth)
  {
    hide NoDuplicates;
    depth := map[root := 0];
    assert blocks[0] == root;
    var k := 1;
    while k < |blocks|
      invariant 1 <= k <= |blocks|
      invariant forall i :: 0 <= i < k ==> blocks[i] in depth
      invariant forall n :: n in depth ==> n in blocks[..k]
      invariant depth[root] == 0
      invariant forall n :: n in depth && n in idom && idom[n].Some? ==>
        idom[n].value in depth && depth[n] == depth[idom[n].value] + 1
    {
      var block := blocks[k];
      assert ParentBefore(idom, blocks, k);
      depth := depth[block := depth[idom[block].value] + 1];
      k := k + 1;
    }
    assert blocks[..k] == blocks;
    forall n | n in idom ensures n in depth {
      assert n in blocks;
    }
  }

  /** The dominator tree of the nodes reachable from `root`, siblings in the order of the blocks. */
  method Build(root: Node, succ: Table, order: Node -> int) returns (tree: DominatorTree)
    requires Closed(succ) && root in succ
    ensures tree.Of(succ) && tree.root == root && SiblingsInOrder(tree.children, order)
  {
    var rpo, index := ReversePostorder(succ, root);
    OrderLists(succ, root, rpo, index);
    var preds := Predecessors(succ, rpo);
    var idom := Refine(succ, root, rpo, index, preds);
    SettledIsInPlace(succ, root, rpo, index, idom);
    var children := Children(root, rpo, idom, order);
    var frontier := FrontierOf(succ, root, rpo, index, idom, preds);
    var blocks := Walk(root, index, |rpo|, idom, children, root);
    WalkedAll(root, index, idom, blocks);
    var depth := Depths(root, idom, blocks);
    tree := DominatorTree(root, blocks, idom, children, frontier, depth);
    Assembled(succ, rpo, index, tree);
  }

  lemma WalkedAll(root: Node, rank: map<Node, nat>, idom: Parents, blocks: seq<Node>)
    requires IsTree(root, rank, idom) && |blocks| > 0 && blocks[0] == root && NoDuplicates(blocks)
    requires forall n :: n in blocks <==> n in idom && root in Anc(root, rank, idom, n)
    requires forall i :: 0 < i < |blocks| ==> ParentBefore(idom, blocks, i)
    ensures IsPreorder(root, idom, blocks)
  {
    forall n | n in idom ensures root in Anc(root, rank, idom, n) {
      RootAbove(root, rank, idom, n);
    }
  }

  lemma OrderLists(succ: Table, root: Node, rpo: seq<Node>, index: map<Node, nat>)
    requires IsOrder(succ, root, rpo, index)
    ensures Ranked(index) && NoDuplicates(rpo)
    ensures forall n :: n in rpo <==> n in index
    ensures forall n :: n in rpo ==> n in succ && forall t :: t in succ[n] ==> t in rpo
  {
    OrderRanked(succ, root, rpo, index);
    forall n ensures n in rpo <==> n in index {
      if n in index { assert rpo[index[n]] == n; }
    }
    forall n, t | n in rpo && t in succ[n] ensures t in rpo {
      assert Edge(succ, n, t);
    }
  }

  lemma SettledIsInPlace(succ: Table, root: Node, rpo: seq<Node>, index: map<Node, nat>, idom: Parents)
    requires Settled(succ, root, rpo, index, idom)
    ensures AllInPlace(succ, root, index, idom)
    ensures ParentsIn(idom)
  {
    forall n | n in idom && idom[n].Some? ensures idom[n].value in idom {
      assert HasParent(index, idom, n);
    }
  }

  lemma Assembled(succ: Table, rpo: seq<Node>, index: map<Node, nat>, tree: DominatorTree)
    requires Settled(succ, tree.root, rpo, index, tree.idom)
    requires DepthsCount(tree.root, tree.idom, tree.depth) && IsPreorder(tree.root, tree.idom, tree.blocks)
    requires ChildrenOf(tree.root, tree.idom, tree.children)
    requires tree.frontier.Keys == tree.idom.Keys
    requires forall x, y :: x in tree.idom ==>
      (y in tree.frontier[x] <==> EndsAt(succ, tree.root, index, tree.idom, x, y))
    ensures tree.Of(succ)
  {
    var root, idom, depth := tree.root, tree.idom, tree.depth;
    forall n | n in idom && n != root ensures HasParent(depth, idom, n) {
      assert HasParent(index, idom, n);
    }
    assert IsTree(root, depth, idom);
    forall n ensures n in idom <==> Reaches(succ, root, n) {
      OrderedIsReachable(succ, root, rpo, index, n);
    }
    forall a, b | b in idom ensures a in Anc(root, depth, idom, b) <==> Graphs.Dominates(succ, root, a, b) {
      AboveIsDominates(succ, root, rpo, index, idom, a, b);
      RankIrrelevant(root, index, depth, idom, b);
    }
    forall x, y | x in idom ensures y in tree.frontier[x] <==> InFrontier(succ, root, x, y) {
      EndsAtIsTextbook(succ, root, rpo, index, idom, x, y);
    }
  }

  // ---- what the tree says about edges ----

  /** Along an edge, the parent of the target is above the source; whatever is above the source
      but not above that parent has the target in its frontier. */
  lemma EdgeInTree(tree: DominatorTree, succ: Table, p: Node, s: Node)
    requires tree.Of(succ) && p in tree.idom && Edge(succ, p, s) && s != tree.root
    ensures s in tree.idom && HasParent(tree.depth, tree.idom, s)
    ensures tree.idom[s].value in Anc(tree.root, tree.depth, tree.idom, p)
    ensures forall m :: m in Anc(tree.root, tree.depth, tree.idom, p) ==>
                          m in Anc(tree.root, tree.depth, tree.idom, tree.idom[s].value)
                            || (m in tree.frontier && s in tree.frontier[m])
  {
    assert Reaches(succ, tree.root, p);
    var w :| WalkTo(succ, w, tree.root, p);
    WalkExtend(succ, w, s);
    assert Reaches(succ, tree.root, s);
    assert HasParent(tree.depth, tree.idom, s);
    var up := tree.idom[s].value;
    RootAbove(tree.root, tree.depth, tree.idom, up);
    assert Graphs.Dominates(succ, tree.root, up, s);
    DominatesPredecessor(succ, tree.root, p, s, up);
    forall m | m in Anc(tree.root, tree.depth, tree.idom, p) && m !in Anc(tree.root, tree.depth, tree.idom, up)
      ensures m in tree.frontier && s in tree.frontier[m]
    {
      AncBasics(tree.root, tree.depth, tree.idom, p, m);
      assert Graphs.Dominates(succ, tree.root, m, p);
      assert InFrontier(succ, tree.root, m, s);
    }
  }

  /** The parent of a node is its closest strict dominator. */
  lemma ParentIsClosest(tree: DominatorTree, succ: Table, n: Node, c: Node)
    requires tree.Of(succ) && n in tree.idom && n != tree.root
    ensures tree.idom[n].Some? && StrictlyDominates(succ, tree.root, tree.idom[n].value, n)
    ensures StrictlyDominates(succ, tree.root, c, n) ==> Graphs.Dominates(succ, tree.root, c, tree.idom[n].value)
  {
    assert HasParent(tree.depth, tree.idom, n);
    RootAbove(tree.root, tree.depth, tree.idom, tree.idom[n].value);
    assert tree.idom[n].value in Anc(tree.root, tree.depth, tree.idom, n);
  }

  /** A node entered from one other node only hangs below it. */
  /** A node entered from one node only is strictly dominated by it. */
  lemma EntryDominates(tree: DominatorTree, succ: Table, h: Node, s: Node)
    requires tree.Of(succ) && s != tree.root
    requires forall p :: p in tree.idom && Edge(succ, p, s) ==> p == h
    ensures StrictlyDominates(succ, tree.root, h, s) || !Reaches(succ, tree.root, s)
  {
    forall w | WalkTo(succ, w, tree.root, s) ensures h in w && h != s {
      var i := FirstOccurrence(w, s);
      assert i > 0 && Edge(succ, w[i - 1], w[i - 1 + 1]);
      WalkPrefix(succ, w, i - 1);
      assert Reaches(succ, tree.root, w[i - 1]) && w[i - 1] in w[..i];
    }
  }

  lemma SoleEntry(tree: DominatorTree, succ: Table, h: Node, s: Node)
    requires tree.Of(succ) && s in tree.idom && s != tree.root && h in tree.idom
    requires forall p :: p in tree.idom && Edge(succ, p, s) ==> p == h
    ensures tree.idom[s] == Some(h)
  {
    assert HasParent(tree.depth, tree.idom, s);
    assert Reaches(succ, tree.root, s);
    EntryDominates(tree, succ, h, s);
    ParentIsClosest(tree, succ, s, h);
    var w :| WalkTo(succ, w, tree.root, s);
    var i := FirstOccurrence(w, s);
    WalkPrefix(succ, w, i - 1);
    assert Reaches(succ, tree.root, w[i - 1]);
    assert Edge(succ, w[i - 1], w[i - 1 + 1]);
    EdgeInTree(tree, succ, h, s);
    var up := tree.idom[s].value;
    AncBasics(tree.root, tree.depth, tree.idom, h, up);
    AncBasics(tree.root, tree.depth, tree.idom, up, h);
  }
}
