/** The iterative dominator algorithm of Cooper, Harvey and Kennedy: a reverse postorder, then
    parents refined until they settle. The sets above the nodes are shown to be exactly the
    nodes' dominators. */
module Dominators {
  import opened Graphs
  import opened Options
  import opened Trees

  // ---- reverse postorder ----

  ghost predicate NoDuplicates(s: seq<Node>) {
    forall i, j :: 0 <= i < j < |s| ==> s[i] != s[j]
  }

  /** `n` has a predecessor standing later in `post`. */
  ghost predicate EnteredFromLater(succ: Table, post: seq<Node>, i: nat)
    requires i < |post|
  {
    exists j :: i < j < |post| && Edge(succ, post[j], post[i])
  }

  /** The nodes finished from position `from` on: all their successors are seen, and each but
      the last was entered from one that finished later. */
  ghost predicate Finished(succ: Table, seen: set<Node>, post: seq<Node>, from: nat, last: nat)
    requires from <= last <= |post|
  {
    && (forall i, t :: from <= i < |post| && Edge(succ, post[i], t) ==> t in seen)
    && (forall i :: from <= i < last ==> EnteredFromLater(succ, post, i))
  }

  /** The state of a visit of `node` that started from `seen0` and `post0`. */
  ghost predicate Visiting(succ: Table, node: Node, seen0: set<Node>, post0: seq<Node>, seen: set<Node>,
      post: seq<Node>) {
    && post0 <= post && NoDuplicates(post)
    && seen0 + {node} <= seen <= succ.Keys
    && node !in seen0 && (forall n :: n in post0 ==> n in seen0)
    && (forall n :: n in post[|post0|..] <==> n in seen && n !in seen0 && n != node)
    && (forall i, t :: |post0| <= i < |post| && Edge(succ, post[i], t) ==> t in seen)
    && (forall i {:trigger EnteredFromLater(succ, post, i)} :: |post0| <= i < |post| ==>
      EnteredFromLater(succ, post, i) || Edge(succ, node, post[i]))
  }

  /** What a finished visit of `node` has added. */
  ghost predicate Visited(succ: Table, node: Node, seen0: set<Node>, post0: seq<Node>, seen: set<Node>,
      post: seq<Node>) {
    && post0 < post && post[|post| - 1] == node && NoDuplicates(post)
    && seen0 <= seen <= succ.Keys && node in seen
    && (forall n :: n in post[|post0|..] <==> n in seen && n !in seen0)
    && Finished(succ, seen, post, |post0|, |post| - 1)
  }

  method Visit(succ: Table, node: Node, seen0: set<Node>, post0: seq<Node>)
    returns (seen: set<Node>, post: seq<Node>)
    requires Closed(succ) && node in succ && node !in seen0 && seen0 <= succ.Keys
    requires NoDuplicates(post0) && (forall n :: n in post0 ==> n in seen0)
    ensures Visited(succ, node, seen0, post0, seen, post)
    decreases succ.Keys - seen0
  {
    hide EnteredFromLater, Finished;
    seen := seen0 + {node};
    post := post0;
    var k := 0;
    while k < |succ[node]|
      invariant 0 <= k <= |succ[node]|
      invariant Visiting(succ, node, seen0, post0, seen, post)
      invariant forall i :: 0 <= i < k ==> succ[node][i] in seen
    {
      var next := succ[node][k];
      assert Edge(succ, node, next);
      if next !in seen {
        PostIsSeen(succ, node, seen0, post0, seen, post);
        assert node in succ.Keys - seen0 && node !in succ.Keys - seen;
        ghost var before, seenBefore := post, seen;
        seen, post := Visit(succ, next, seen, post);
        ChildVisited(succ, node, seen0, post0, seenBefore, before, next, seen, post);
      }
      k := k + 1;
    }
    ghost var before := post;
    post := post + [node];
    AllVisited(succ, node, seen0, post0, seen, before);
  }

  lemma PostIsSeen(succ: Table, node: Node, seen0: set<Node>, post0: seq<Node>, seen: set<Node>, post: seq<Node>)
    requires Visiting(succ, node, seen0, post0, seen, post)
    ensures forall n :: n in post ==> n in seen && n != node
  {
    assert post == post[..|post0|] + post[|post0|..];
  }

  lemma ChildVisited(succ: Table, node: Node, seen0: set<Node>, post0: seq<Node>, seen: set<Node>, post: seq<Node>,
      next: Node, seen': set<Node>, post': seq<Node>)
    requires Visiting(succ, node, seen0, post0, seen, post)
    requires Edge(succ, node, next) && next !in seen
    requires Visited(succ, next, seen, post, seen', post')
    ensures Visiting(succ, node, seen0, post0, seen', post')
  {
    PostIsSeen(succ, node, seen0, post0, seen, post);
    assert post' == post + post'[|post|..];
    assert post'[|post0|..] == post[|post0|..] + post'[|post|..];
    forall i | |post0| <= i < |post'| ensures EnteredFromLater(succ, post', i) || Edge(succ, node, post'[i]) {
      if i < |post| {
        assert post'[i] == post[i];
        if EnteredFromLater(succ, post, i) {
          var j :| i < j < |post| && Edge(succ, post[j], post[i]);
          assert Edge(succ, post'[j], post'[i]);
        }
      } else if i < |post'| - 1 {
        assert EnteredFromLater(succ, post', i);
      }
    }
    forall i, t | |post0| <= i < |post'| && Edge(succ, post'[i], t) ensures t in seen' {
      if i < |post| {
        assert post'[i] == post[i];
      }
    }
  }

  lemma AllVisited(succ: Table, node: Node, seen0: set<Node>, post0: seq<Node>, seen: set<Node>, post: seq<Node>)
    requires Visiting(succ, node, seen0, post0, seen, post)
    requires node in succ && forall i :: 0 <= i < |succ[node]| ==> succ[node][i] in seen
    ensures Visited(succ, node, seen0, post0, seen, post + [node])
  {
    PostIsSeen(succ, node, seen0, post0, seen, post);
    var post' := post + [node];
    assert post'[|post0|..] == post[|post0|..] + [node];
    forall i | |post0| <= i < |post'| - 1 ensures EnteredFromLater(succ, post', i) {
      assert EnteredFromLater(succ, post, i) || Edge(succ, node, post[i]);
      if EnteredFromLater(succ, post, i) {
        var j :| i < j < |post| && Edge(succ, post[j], post[i]);
        assert Edge(succ, post'[j], post'[i]);
      } else {
        assert Edge(succ, post'[|post'| - 1], post'[i]);
      }
    }
    forall i, t | |post0| <= i < |post'| && Edge(succ, post'[i], t) ensures t in seen {
      if i < |post| {
        assert post'[i] == post[i];
      }
    }
  }

  /** `rpo` lists the nodes reachable from `root`, itself first, each other one after one of
      its predecessors; `index` gives their positions. */
  ghost predicate IsOrder(succ: Table, root: Node, rpo: seq<Node>, index: map<Node, nat>) {
    && |rpo| > 0 && rpo[0] == root
    && (forall i :: 0 <= i < |rpo| ==> rpo[i] in index && index[rpo[i]] == i && rpo[i] in succ)
    && (forall n :: n in index ==> index[n] < |rpo| && rpo[index[n]] == n)
    && (forall a, b :: a in index && Edge(succ, a, b) ==> b in index)
    && (forall n {:trigger HasForward(succ, index, n)} :: n in index && n != root ==> HasForward(succ, index, n))
  }

  ghost predicate HasForward(succ: Table, index: map<Node, nat>, n: Node)
    requires n in index
  {
    exists q :: q in index && index[q] < index[n] && Edge(succ, q, n)
  }

  method ReversePostorder(succ: Table, root: Node) returns (rpo: seq<Node>, index: map<Node, nat>)
    requires Closed(succ) && root in succ
    ensures IsOrder(succ, root, rpo, index)
  {
    var seen, post := Visit(succ, root, {}, []);
    rpo := seq(|post|, i requires 0 <= i < |post| => post[|post| - 1 - i]);
    index := map[];
    var k := 0;
    assert forall i, j :: 0 <= i < j < |rpo| ==> rpo[i] == post[|post| - 1 - i] && rpo[i] != rpo[j];
    while k < |rpo|
      invariant 0 <= k <= |rpo|
      invariant forall i :: 0 <= i < k ==> rpo[i] in index && index[rpo[i]] == i
      invariant forall x :: x in index ==> 0 <= index[x] < k && rpo[index[x]] == x
    {
      index := index[rpo[k] := k];
      k := k + 1;
    }
    assert post[0..] == post;
    ReversedIsOrder(succ, root, seen, post, rpo, index);
  }

  lemma ReversedIsOrder(succ: Table, root: Node, seen: set<Node>, post: seq<Node>, rpo: seq<Node>,
      index: map<Node, nat>)
    requires |post| == |rpo| > 0 && post[|post| - 1] == root
    requires seen <= succ.Keys && (forall n :: n in post <==> n in seen)
    requires Finished(succ, seen, post, 0, |post| - 1)
    requires forall i :: 0 <= i < |rpo| ==> rpo[i] == post[|post| - 1 - i]
    requires forall i :: 0 <= i < |rpo| ==> rpo[i] in index && index[rpo[i]] == i
    requires forall x :: x in index ==> 0 <= index[x] < |rpo| && rpo[index[x]] == x
    ensures IsOrder(succ, root, rpo, index)
  {
    forall a, b | a in index && Edge(succ, a, b) ensures b in index {
      assert Edge(succ, post[|post| - 1 - index[a]], b);
      assert b in seen;
      var j :| 0 <= j < |post| && post[j] == b;
      assert rpo[|post| - 1 - j] == b;
    }
    forall x | x in index && x != root ensures HasForward(succ, index, x) {
      var i := |post| - 1 - index[x];
      assert post[i] == x;
      assert EnteredFromLater(succ, post, i);
      var j :| i < j < |post| && Edge(succ, post[j], post[i]);
      assert rpo[|post| - 1 - j] == post[j];
    }
  }

  lemma OrderRanked(succ: Table, root: Node, rpo: seq<Node>, index: map<Node, nat>)
    requires IsOrder(succ, root, rpo, index)
    ensures Ranked(index) && root in index && index[root] == 0
  {
    assert rpo[0] in index;
    forall a, b | a in index && b in index && index[a] == index[b] ensures a == b {
      assert rpo[index[a]] == a && rpo[index[b]] == b;
    }
  }

  /** The ordered nodes are exactly the reachable ones. */
  lemma {:induction false} OrderedIsReachable(succ: Table, root: Node, rpo: seq<Node>, index: map<Node, nat>, n: Node)
    requires IsOrder(succ, root, rpo, index) && root in succ
    ensures n in index <==> Reaches(succ, root, n)
  {
    if n in index {
      var p := ForwardWalk(succ, root, rpo, index, n);
    }
    if Reaches(succ, root, n) {
      var p :| WalkTo(succ, p, root, n);
      WalkStays(succ, root, rpo, index, p);
    }
  }

  lemma {:induction false} WalkStays(succ: Table, root: Node, rpo: seq<Node>, index: map<Node, nat>, p: seq<Node>)
    requires IsOrder(succ, root, rpo, index) && IsWalk(succ, p) && p[0] == root
    ensures p[|p| - 1] in index
  {
    OrderRanked(succ, root, rpo, index);
    if |p| > 1 {
      WalkPrefix(succ, p, |p| - 2);
      WalkStays(succ, root, rpo, index, p[..|p| - 1]);
      assert Edge(succ, p[|p| - 2], p[|p| - 2 + 1]);
    }
  }

  lemma {:induction false} ForwardWalk(succ: Table, root: Node, rpo: seq<Node>, index: map<Node, nat>, n: Node)
    returns (p: seq<Node>)
    requires IsOrder(succ, root, rpo, index) && root in succ && n in index
    ensures WalkTo(succ, p, root, n)
    decreases index[n]
  {
    if n == root {
      p := [root];
    } else {
      assert HasForward(succ, index, n);
      var q :| q in index && index[q] < index[n] && Edge(succ, q, n);
      var p' := ForwardWalk(succ, root, rpo, index, q);
      WalkExtend(succ, p', n);
      p := p' + [n];
    }
  }

  // ---- what the refinement of parents keeps ----

  /** The nodes above every predecessor of `m` that has its place already. */
  ghost predicate Common(succ: Table, root: Node, index: map<Node, nat>, idom: Parents, m: Node, c: Node)
    requires IsTree(root, index, idom)
  {
    forall p :: p in idom && Edge(succ, p, m) ==> c in Anc(root, index, idom, p)
  }

  /** No node is placed too high: what is above all its predecessors is above its parent. */
  ghost predicate NotTooHigh(succ: Table, root: Node, index: map<Node, nat>, idom: Parents, m: Node)
    requires IsTree(root, index, idom) && m in idom && m != root
  {
    assert HasParent(index, idom, m);
    forall c {:trigger Common(succ, root, index, idom, m, c)} ::
      c in idom && Common(succ, root, index, idom, m, c) ==> c in Anc(root, index, idom, idom[m].value)
  }

  /** The parent of `m` is above its predecessors that come before it in the order. This holds
      once the current pass, now at position `at`, has passed `m`, and until it passes the
      parent. */
  ghost predicate ForwardBelow(succ: Table, root: Node, index: map<Node, nat>, idom: Parents, at: nat, m: Node)
    requires IsTree(root, index, idom) && m in idom && m != root
  {
    assert HasParent(index, idom, m);
    at <= index[idom[m].value] + 1 || index[m] < at ==>
      forall q :: q in idom && Edge(succ, q, m) && index[q] < index[m] ==> idom[m].value in Anc(root, index, idom, q)
  }

  /** Every dominator of `n` is above it. */
  ghost predicate DominatorsAbove(succ: Table, root: Node, index: map<Node, nat>, idom: Parents, n: Node)
    requires IsTree(root, index, idom) && n in idom
  {
    forall c :: Dominates(succ, root, c, n) ==> c in Anc(root, index, idom, n)
  }

  /** The first pass has placed the nodes before position `at`; later passes have placed all. */
  ghost predicate Placed(index: map<Node, nat>, idom: Parents, at: nat) {
    || idom.Keys == index.Keys
    || (forall n :: n in index ==> (n in idom <==> index[n] < at))
  }

  ghost predicate Invariant(succ: Table, root: Node, rpo: seq<Node>, index: map<Node, nat>, idom: Parents, at: nat) {
    && IsOrder(succ, root, rpo, index)
    && IsTree(root, index, idom)
    && Placed(index, idom, at)
    && (forall m {:trigger NotTooHigh(succ, root, index, idom, m)} :: m in idom && m != root ==>
      NotTooHigh(succ, root, index, idom, m))
    && (forall m {:trigger ForwardBelow(succ, root, index, idom, at, m)} ::
          m in idom && m != root ==> ForwardBelow(succ, root, index, idom, at, m))
    && (forall n {:trigger DominatorsAbove(succ, root, index, idom, n)} :: n in idom ==>
      DominatorsAbove(succ, root, index, idom, n))
  }

  /** `a` is the lowest node above every placed predecessor of `n`. */
  ghost predicate Meet(succ: Table, root: Node, index: map<Node, nat>, idom: Parents, n: Node, a: Node)
    requires IsTree(root, index, idom)
  {
    && a in idom
    && forall c {:trigger Common(succ, root, index, idom, n, c)} {:trigger c in Anc(root, index, idom, a)} ::
         c in Anc(root, index, idom, a) <==> c in idom && Common(succ, root, index, idom, n, c)
  }

  // ---- one step: `n`, at position `at`, moves below the meet of its predecessors ----

  ghost predicate Moves(succ: Table, root: Node, rpo: seq<Node>, index: map<Node, nat>, idom: Parents, at: nat, n: Node,
      a: Node) {
    && Closed(succ) && root in succ
    && Invariant(succ, root, rpo, index, idom, at)
    && 0 < at < |rpo| && rpo[at] == n
    && Meet(succ, root, index, idom, n, a)
  }

  lemma MeetIsEarlier(succ: Table, root: Node, rpo: seq<Node>, index: map<Node, nat>, idom: Parents, at: nat, n: Node,
      a: Node)
    requires Moves(succ, root, rpo, index, idom, at, n, a)
    ensures Ranked(index) && n != root && n in index && index[n] == at
    ensures index[a] < index[n]
    ensures n in idom ==> HasParent(index, idom, n) && a in Anc(root, index, idom, idom[n].value)
    ensures IsTree(root, index, idom[n := Some(a)])
  {
    OrderRanked(succ, root, rpo, index);
    assert HasForward(succ, index, n);
    var q :| q in index && index[q] < index[n] && Edge(succ, q, n);
    assert q in idom;
    RootAbove(root, index, idom, a);
    assert a in Anc(root, index, idom, q);
    AncBasics(root, index, idom, q, a);
    HungIsTree(root, index, idom, n, a);
    if n in idom {
      assert NotTooHigh(succ, root, index, idom, n);
      assert HasParent(index, idom, n);
    }
  }

  /** Moving `n` only takes nodes away from what is above the others. */
  lemma MoveShrinks(succ: Table, root: Node, rpo: seq<Node>, index: map<Node, nat>, idom: Parents, at: nat, n: Node,
      a: Node, m: Node)
    requires Moves(succ, root, rpo, index, idom, at, n, a) && m in idom
    ensures IsTree(root, index, idom[n := Some(a)])
    ensures Anc(root, index, idom[n := Some(a)], m) <= Anc(root, index, idom, m)
  {
    MeetIsEarlier(succ, root, rpo, index, idom, at, n, a);
    RootAbove(root, index, idom, m);
    if n in idom && n in Anc(root, index, idom, m) {
      AncBasics(root, index, idom, m, n);
      assert HasParent(index, idom, n);
      AncBasics(root, index, idom, n, a) by { AncBasics(root, index, idom, idom[n].value, a); }
      forall c | c in Anc(root, index, idom[n := Some(a)], m) ensures c in Anc(root, index, idom, m) {
        AncBasics(root, index, idom[n := Some(a)], m, c);
        HungBelow(root, index, idom, n, a, m, c);
      }
    } else {
      if n !in idom && n in Anc(root, index, idom, m) {
        AncBasics(root, index, idom, m, n);
      }
      HungElsewhere(root, index, idom, n, a, m);
    }
  }

  /** A placed node has a placed predecessor before it in the order. */
  lemma PlacedForward(succ: Table, root: Node, rpo: seq<Node>, index: map<Node, nat>, idom: Parents, at: nat, m: Node)
    returns (q: Node)
    requires Invariant(succ, root, rpo, index, idom, at) && root in succ
    requires m in index && m != root && (m in idom || index[m] == at)
    ensures q in idom && q in index && index[q] < index[m] && Edge(succ, q, m)
  {
    assert HasForward(succ, index, m);
    q :| q in index && index[q] < index[m] && Edge(succ, q, m);
  }

  lemma StepNotTooHigh(succ: Table, root: Node, rpo: seq<Node>, index: map<Node, nat>, idom: Parents, at: nat, n: Node,
      a: Node, m: Node)
    requires Moves(succ, root, rpo, index, idom, at, n, a)
    requires m != root && (m in idom || m == n)
    ensures IsTree(root, index, idom[n := Some(a)])
    ensures NotTooHigh(succ, root, index, idom[n := Some(a)], m)
  {
    MeetIsEarlier(succ, root, rpo, index, idom, at, n, a);
    var idom' := idom[n := Some(a)];
    assert HasParent(index, idom', m);
    var e' := idom'[m].value;
    var q := PlacedForward(succ, root, rpo, index, idom, at, m);
    forall c | c in idom' && Common(succ, root, index, idom', m, c) ensures c in Anc(root, index, idom', e') {
      MoveShrinks(succ, root, rpo, index, idom, at, n, a, q);
      AncBasics(root, index, idom, q, c);
      forall p | p in idom && Edge(succ, p, m) ensures c in Anc(root, index, idom, p) {
        MoveShrinks(succ, root, rpo, index, idom, at, n, a, p);
      }
      assert Common(succ, root, index, idom, m, c);
      if m == n {
        NotBelow(root, index, idom, n, a);
        HungElsewhere(root, index, idom, n, a, a);
      } else {
        assert NotTooHigh(succ, root, index, idom, m);
        assert HasParent(index, idom, m);
        if n in Anc(root, index, idom, e') {
          AncBasics(root, index, idom, e', n);
          assert ForwardBelow(succ, root, index, idom, at, m);
          AncBasics(root, index, idom, q, e');
          HungBelow(root, index, idom, n, a, q, c);
          HungBelow(root, index, idom, n, a, e', c);
        } else {
          RootAbove(root, index, idom, e');
          HungElsewhere(root, index, idom, n, a, e');
        }
      }
    }
  }

  /** What stands before `n` in the order does not hang below it. */
  lemma NotBelow(root: Node, index: map<Node, nat>, idom: Parents, n: Node, q: Node)
    requires IsTree(root, index, idom) && q in idom && n in index && index[q] < index[n]
    ensures n !in Anc(root, index, idom, q)
  {
    if n in Anc(root, index, idom, q) {
      AncBasics(root, index, idom, q, n);
    }
  }

  lemma StepForwardBelow(succ: Table, root: Node, rpo: seq<Node>, index: map<Node, nat>, idom: Parents, at: nat,
      n: Node, a: Node, m: Node)
    requires Moves(succ, root, rpo, index, idom, at, n, a)
    requires m != root && (m in idom || m == n)
    ensures IsTree(root, index, idom[n := Some(a)])
    ensures ForwardBelow(succ, root, index, idom[n := Some(a)], at + 1, m)
  {
    MeetIsEarlier(succ, root, rpo, index, idom, at, n, a);
    var idom' := idom[n := Some(a)];
    assert HasParent(index, idom', m);
    var e' := idom'[m].value;
    if at + 1 <= index[e'] + 1 || index[m] < at + 1 {
      forall q | q in idom' && Edge(succ, q, m) && index[q] < index[m] ensures e' in Anc(root, index, idom', q) {
        if m == n {
          RootAbove(root, index, idom, a);
          assert a in Anc(root, index, idom, q);
          NotBelow(root, index, idom, n, q);
          HungElsewhere(root, index, idom, n, a, q);
        } else {
          assert q in idom;
          assert ForwardBelow(succ, root, index, idom, at, m);
          assert HasParent(index, idom, m);
          if n in idom && n in Anc(root, index, idom, q) {
            AncBasics(root, index, idom, q, n);
            HungBelow(root, index, idom, n, a, q, e');
          } else {
            if n in Anc(root, index, idom, q) { AncBasics(root, index, idom, q, n); }
            RootAbove(root, index, idom, q);
            HungElsewhere(root, index, idom, n, a, q);
          }
        }
      }
    }
  }

  /** A node below `n` is reached from `n` without going before `n` in the order. */
  lemma {:induction false} DescendingWalk(succ: Table, root: Node, rpo: seq<Node>, index: map<Node, nat>, idom: Parents,
      at: nat, n: Node, m: Node)
    returns (p: seq<Node>)
    requires Closed(succ) && root in succ
    requires Invariant(succ, root, rpo, index, idom, at) && 0 < at < |rpo| && rpo[at] == n
    requires m in idom && n in Anc(root, index, idom, m)
    ensures WalkTo(succ, p, n, m)
    ensures forall x :: x in p ==> x in index && index[x] >= at
    decreases index[m]
  {
    OrderRanked(succ, root, rpo, index);
    AncBasics(root, index, idom, m, n);
    if m == n {
      p := [n];
    } else {
      assert m != root;
      assert HasParent(index, idom, m);
      var e := idom[m].value;
      AncBasics(root, index, idom, e, n);
      var q := PlacedForward(succ, root, rpo, index, idom, at, m);
      assert ForwardBelow(succ, root, index, idom, at, m);
      AncBasics(root, index, idom, q, e);
      var p' := DescendingWalk(succ, root, rpo, index, idom, at, n, q);
      WalkExtend(succ, p', m);
      p := p' + [m];
    }
  }

  /** What dominates `n` and is not `n` is above the meet of its predecessors. */
  lemma DominatorAboveMeet(succ: Table, root: Node, rpo: seq<Node>, index: map<Node, nat>, idom: Parents, at: nat,
      n: Node, a: Node, c: Node)
    requires Moves(succ, root, rpo, index, idom, at, n, a)
    requires Dominates(succ, root, c, n) && c != n
    ensures c in Anc(root, index, idom, a)
  {
    MeetIsEarlier(succ, root, rpo, index, idom, at, n, a);
    var q := PlacedForward(succ, root, rpo, index, idom, at, n);
    forall p | p in idom && Edge(succ, p, n) ensures c in Anc(root, index, idom, p) {
      DominatesPredecessor(succ, root, p, n, c);
      assert DominatorsAbove(succ, root, index, idom, p);
    }
    AncBasics(root, index, idom, q, c);
    assert Common(succ, root, index, idom, n, c);
  }

  lemma DominatesPredecessor(succ: Table, root: Node, p: Node, n: Node, c: Node)
    requires Edge(succ, p, n) && Dominates(succ, root, c, n) && c != n
    ensures Dominates(succ, root, c, p)
  {
    forall w | WalkTo(succ, w, root, p) ensures c in w {
      WalkExtend(succ, w, n);
      assert c in w + [n];
    }
  }

  lemma StepDominatorsAbove(succ: Table, root: Node, rpo: seq<Node>, index: map<Node, nat>, idom: Parents, at: nat,
      n: Node, a: Node, m: Node)
    requires Moves(succ, root, rpo, index, idom, at, n, a)
    requires m in idom || m == n
    ensures IsTree(root, index, idom[n := Some(a)])
    ensures DominatorsAbove(succ, root, index, idom[n := Some(a)], m)
  {
    MeetIsEarlier(succ, root, rpo, index, idom, at, n, a);
    var idom' := idom[n := Some(a)];
    NotBelow(root, index, idom, n, a);
    HungElsewhere(root, index, idom, n, a, a);
    forall c | Dominates(succ, root, c, m) ensures c in Anc(root, index, idom', m) {
      if m == n {
        if c != n {
          DominatorAboveMeet(succ, root, rpo, index, idom, at, n, a, c);
        }
      } else {
        assert DominatorsAbove(succ, root, index, idom, m);
        AncBasics(root, index, idom, m, c);
        if n in Anc(root, index, idom, m) {
          AncBasics(root, index, idom, m, n);
          if index[c] < index[n] {
            PassesOn(succ, root, rpo, index, idom, at, n, m, c);
            DominatorAboveMeet(succ, root, rpo, index, idom, at, n, a, c);
          }
          HungBelow(root, index, idom, n, a, m, c);
        } else {
          HungElsewhere(root, index, idom, n, a, m);
        }
      }
    }
  }

  /** A dominator of a node below `n`, standing before `n`, dominates `n`. */
  lemma PassesOn(succ: Table, root: Node, rpo: seq<Node>, index: map<Node, nat>, idom: Parents, at: nat, n: Node,
      m: Node, c: Node)
    requires Closed(succ) && root in succ
    requires Invariant(succ, root, rpo, index, idom, at) && 0 < at < |rpo| && rpo[at] == n
    requires m in idom && n in Anc(root, index, idom, m)
    requires Dominates(succ, root, c, m) && c in index && index[c] < at
    ensures Dominates(succ, root, c, n)
  {
    var down := DescendingWalk(succ, root, rpo, index, idom, at, n, m);
    forall w | WalkTo(succ, w, root, n) ensures c in w {
      WalkJoin(succ, w, down);
      assert c in w + down[1..];
      assert forall x :: x in down[1..] ==> x in down;
    }
  }

  lemma Step(succ: Table, root: Node, rpo: seq<Node>, index: map<Node, nat>, idom: Parents, at: nat, n: Node, a: Node)
    requires Moves(succ, root, rpo, index, idom, at, n, a)
    ensures Invariant(succ, root, rpo, index, idom[n := Some(a)], at + 1)
  {
    MeetIsEarlier(succ, root, rpo, index, idom, at, n, a);
    var idom' := idom[n := Some(a)];
    forall m | m in idom' && m != root
      ensures NotTooHigh(succ, root, index, idom', m) && ForwardBelow(succ, root, index, idom', at + 1, m)
    {
      StepNotTooHigh(succ, root, rpo, index, idom, at, n, a, m);
      StepForwardBelow(succ, root, rpo, index, idom, at, n, a, m);
    }
    forall m | m in idom' ensures DominatorsAbove(succ, root, index, idom', m) {
      StepDominatorsAbove(succ, root, rpo, index, idom, at, n, a, m);
    }
  }

  lemma StartOfFirstPass(succ: Table, root: Node, rpo: seq<Node>, index: map<Node, nat>)
    requires IsOrder(succ, root, rpo, index) && root in succ
    ensures Invariant(succ, root, rpo, index, map[root := None], 1)
  {
    OrderRanked(succ, root, rpo, index);
    assert WalkTo(succ, [root], root, root);
    assert DominatorsAbove(succ, root, index, map[root := None], root);
  }

  lemma StartOfNextPass(succ: Table, root: Node, rpo: seq<Node>, index: map<Node, nat>, idom: Parents)
    requires Invariant(succ, root, rpo, index, idom, |rpo|)
    ensures Invariant(succ, root, rpo, index, idom, 1) && idom.Keys == index.Keys
  {
    forall m | m in idom && m != root ensures ForwardBelow(succ, root, index, idom, 1, m) {
      assert ForwardBelow(succ, root, index, idom, |rpo|, m);
    }
  }

  // ---- the settled parents ----

  ghost predicate Settled(succ: Table, root: Node, rpo: seq<Node>, index: map<Node, nat>, idom: Parents) {
    && Closed(succ) && root in succ
    && Invariant(succ, root, rpo, index, idom, 1)
    && idom.Keys == index.Keys
    && forall n {:trigger InPlace(succ, root, index, idom, n)} :: n in idom && n != root ==>
      InPlace(succ, root, index, idom, n)
  }

  /** `n` hangs below the meet of its predecessors. */
  ghost predicate InPlace(succ: Table, root: Node, index: map<Node, nat>, idom: Parents, n: Node)
    requires IsTree(root, index, idom) && n in index
  {
    n in idom && HasParent(index, idom, n) && Meet(succ, root, index, idom, n, idom[n].value)
  }

  lemma {:induction false} AboveIsOnEveryWalk(succ: Table, root: Node, rpo: seq<Node>, index: map<Node, nat>,
      idom: Parents, c: Node, p: seq<Node>)
    requires Settled(succ, root, rpo, index, idom)
    requires IsWalk(succ, p) && p[0] == root && p[|p| - 1] in idom
    requires c in Anc(root, index, idom, p[|p| - 1])
    ensures c in p
    decreases |p|
  {
    var b := p[|p| - 1];
    if c != b {
      assert b != root;
      assert InPlace(succ, root, index, idom, b);
      assert |p| > 1;
      var prev := p[..|p| - 1];
      WalkPrefix(succ, p, |p| - 2);
      WalkStays(succ, root, rpo, index, prev);
      assert Edge(succ, p[|p| - 2], p[|p| - 2 + 1]);
      assert Common(succ, root, index, idom, b, c);
      AboveIsOnEveryWalk(succ, root, rpo, index, idom, c, prev);
      assert c in prev;
    }
  }

  /** The nodes above `b` are exactly its dominators. */
  lemma AboveIsDominates(succ: Table, root: Node, rpo: seq<Node>, index: map<Node, nat>, idom: Parents, a: Node,
      b: Node)
    requires Settled(succ, root, rpo, index, idom) && b in idom
    ensures a in Anc(root, index, idom, b) <==> Dominates(succ, root, a, b)
  {
    assert DominatorsAbove(succ, root, index, idom, b);
    if a in Anc(root, index, idom, b) {
      forall p | WalkTo(succ, p, root, b) ensures a in p {
        AboveIsOnEveryWalk(succ, root, rpo, index, idom, a, p);
      }
    }
  }

  // ---- the refinement ----

  /** The nearest node above both `a` and `b`: the one later in the order climbs. */
  method Intersect(root: Node, index: map<Node, nat>, idom: Parents, a0: Node, b0: Node) returns (a: Node)
    requires IsTree(root, index, idom) && Ranked(index) && a0 in idom && b0 in idom
    ensures a in idom
    ensures forall c :: c in Anc(root, index, idom, a)
                   <==> c in Anc(root, index, idom, a0) && c in Anc(root, index, idom, b0)
  {
    a := a0;
    var b := b0;
    while a != b
      invariant a in idom && b in idom
      invariant forall c :: c in Anc(root, index, idom, a) && c in Anc(root, index, idom, b)
                       <==> c in Anc(root, index, idom, a0) && c in Anc(root, index, idom, b0)
      decreases index[a] + index[b]
    {
      ghost var measure := index[a] + index[b];
      while index[a] > index[b]
        invariant a in idom && index[a] + index[b] <= measure
        invariant index[a] <= index[b] ==> index[a] + index[b] < measure || index[a] != index[b]
        invariant index[a] + index[b] == measure || index[a] + index[b] < measure
        invariant forall c :: c in Anc(root, index, idom, a) && c in Anc(root, index, idom, b)
                         <==> c in Anc(root, index, idom, a0) && c in Anc(root, index, idom, b0)
        invariant a != b || index[a] + index[b] < measure
        decreases index[a]
      {
        NotBelow(root, index, idom, a, b);
        assert a != root by { RootAbove(root, index, idom, b); }
        assert HasParent(index, idom, a);
        a := idom[a].value;
      }
      while index[b] > index[a]
        invariant b in idom && index[a] + index[b] <= measure
        invariant forall c :: c in Anc(root, index, idom, a) && c in Anc(root, index, idom, b)
                         <==> c in Anc(root, index, idom, a0) && c in Anc(root, index, idom, b0)
        invariant index[b] <= index[a] ==> a == b || index[a] + index[b] < measure
        invariant a == b ==> index[a] + index[b] < measure
        decreases index[b]
      {
        NotBelow(root, index, idom, b, a);
        assert b != root by { RootAbove(root, index, idom, a); }
        assert HasParent(index, idom, b);
        b := idom[b].value;
      }
    }
  }

  /** The nodes with an edge to each node, once for each such edge, in the order of `rpo`. */
  method Predecessors(succ: Table, rpo: seq<Node>) returns (preds: map<Node, seq<Node>>)
    requires forall n :: n in rpo ==> n in succ && forall t :: t in succ[n] ==> t in rpo
    ensures preds.Keys == set n | n in rpo
    ensures forall n, p :: n in preds ==> (p in preds[n] <==> p in rpo && Edge(succ, p, n))
  {
    preds := map n | n in rpo :: [];
    var i := 0;
    while i < |rpo|
      invariant 0 <= i <= |rpo|
      invariant preds.Keys == set n | n in rpo
      invariant forall n, p :: n in preds ==> (p in preds[n] <==> p in rpo[..i] && Edge(succ, p, n))
    {
      var node := rpo[i];
      var k := 0;
      while k < |succ[node]|
        invariant 0 <= k <= |succ[node]|
        invariant preds.Keys == set n | n in rpo
        invariant forall n, p :: n in preds ==>
          (p in preds[n] <==> (p in rpo[..i] && Edge(succ, p, n)) || (p == node && n in succ[node][..k]))
      {
        var target := succ[node][k];
        preds := preds[target := preds[target] + [node]];
        assert succ[node][..k + 1] == succ[node][..k] + [target];
        k := k + 1;
      }
      assert succ[node][..k] == succ[node] && rpo[..i + 1] == rpo[..i] + [node];
      i := i + 1;
    }
    assert rpo[..i] == rpo;
  }

  /** The meet of the predecessors of `node` that have their place. */
  method MeetOf(succ: Table, root: Node, rpo: seq<Node>, index: map<Node, nat>, idom: Parents, ghost at: nat,
      node: Node, preds: seq<Node>)
    returns (a: Node)
    requires Closed(succ) && root in succ && Invariant(succ, root, rpo, index, idom, at) && Ranked(index)
    requires 0 < at < |rpo| && rpo[at] == node && node != root
    requires forall p :: p in preds <==> p in index && Edge(succ, p, node)
    ensures Moves(succ, root, rpo, index, idom, at, node, a)
  {
    hide NotTooHigh, ForwardBelow, DominatorsAbove, HasParent, Ranked, Anc, Closed, Meet, AboveAll;
    var candidates := Filter(preds, idom);
    ghost var q := PlacedForward(succ, root, rpo, index, idom, at, node);
    assert q in candidates;
    a := candidates[0];
    assert candidates[..1] == [a];
    assert IsTree(root, index, idom);
    OneAbove(root, index, idom, a);
    assert forall p :: p in candidates <==> p in idom && Edge(succ, p, node);
    hide Invariant, IsOrder, Placed, IsTree, Edge;
    var k := 1;
    while k < |candidates|
      invariant 1 <= k <= |candidates| && a in idom
      invariant forall c :: c in Anc(root, index, idom, a) <==> AboveAll(root, index, idom, candidates[..k], c)
    {
      ghost var b := a;
      a := Intersect(root, index, idom, candidates[k], a);
      assert candidates[..k + 1] == candidates[..k] + [candidates[k]];
      OneMoreAbove(root, index, idom, candidates[..k], candidates[k], b, a);
      k := k + 1;
    }
    assert candidates[..k] == candidates;
    AboveAllIsMeet(succ, root, index, idom, node, candidates, a);
  }

  lemma OneAbove(root: Node, index: map<Node, nat>, idom: Parents, a: Node)
    requires IsTree(root, index, idom) && a in idom
    ensures forall c :: c in Anc(root, index, idom, a) <==> AboveAll(root, index, idom, [a], c)
  {
    hide Anc, IsTree;
  }

  lemma OneMoreAbove(root: Node, index: map<Node, nat>, idom: Parents, s: seq<Node>, p: Node, b: Node, a: Node)
    requires IsTree(root, index, idom) && p in idom && b in idom && a in idom && forall x :: x in s ==> x in idom
    requires forall c :: c in Anc(root, index, idom, b) <==> AboveAll(root, index, idom, s, c)
    requires forall c :: c in Anc(root, index, idom, a) <==>
      c in Anc(root, index, idom, p) && c in Anc(root, index, idom, b)
    ensures forall c :: c in Anc(root, index, idom, a) <==> AboveAll(root, index, idom, s + [p], c)
  {
    hide Anc, IsTree;
    forall c ensures AboveAll(root, index, idom, s + [p], c) <==>
      AboveAll(root, index, idom, s, c) && c in Anc(root, index, idom, p) {
      assert forall x :: x in s + [p] <==> x in s || x == p;
    }
  }

  lemma AboveAllIsMeet(succ: Table, root: Node, index: map<Node, nat>, idom: Parents, n: Node, candidates: seq<Node>,
      a: Node)
    requires IsTree(root, index, idom) && a in idom
    requires forall p :: p in candidates <==> p in idom && Edge(succ, p, n)
    requires forall c :: c in Anc(root, index, idom, a) <==> AboveAll(root, index, idom, candidates, c)
    ensures Meet(succ, root, index, idom, n, a)
  {
    forall c ensures c in Anc(root, index, idom, a) <==> c in idom && Common(succ, root, index, idom, n, c) {
      if c in Anc(root, index, idom, a) {
        AncBasics(root, index, idom, a, c);
      }
      assert Common(succ, root, index, idom, n, c) <==> AboveAll(root, index, idom, candidates, c);
    }
  }

  ghost predicate AboveAll(root: Node, index: map<Node, nat>, idom: Parents, s: seq<Node>, c: Node)
    requires IsTree(root, index, idom) && forall p :: p in s ==> p in idom
  {
    forall p :: p in s ==> c in Anc(root, index, idom, p)
  }

  /** The nodes of `preds` that have their place, in order. */
  function Filter(preds: seq<Node>, idom: Parents): (r: seq<Node>)
    ensures forall p :: p in r <==> p in preds && p in idom
  {
    if preds == [] then []
    else (if preds[0] in idom then [preds[0]] else []) + Filter(preds[1..], idom)
  }

  ghost predicate ParentsRanked(index: map<Node, nat>, idom: Parents) {
    forall n {:trigger idom[n]} :: n in idom && idom[n].Some? ==> idom[n].value in index
  }

  lemma TreeParentsRanked(root: Node, index: map<Node, nat>, idom: Parents)
    requires IsTree(root, index, idom)
    ensures ParentsRanked(index, idom)
  {
    forall n | n in idom && idom[n].Some? ensures idom[n].value in index {
      assert HasParent(index, idom, n);
    }
  }

  /** How much further the parents can still rise. */
  ghost function Slack(rpo: seq<Node>, top: nat, index: map<Node, nat>, idom: Parents): nat
    requires ParentsRanked(index, idom)
  {
    if rpo == [] then 0
    else
      (if rpo[0] !in idom then top
       else if idom[rpo[0]] == None then 0
       else index[idom[rpo[0]].value])
      + Slack(rpo[1..], top, index, idom)
  }

  lemma {:induction false} SlackFalls(rpo: seq<Node>, top: nat, index: map<Node, nat>, idom: Parents, n: Node, a: Node)
    requires ParentsRanked(index, idom)
    requires a in index
    requires if n in idom then idom[n].Some? && index[a] < index[idom[n].value] else index[a] < top
    ensures Slack(rpo, top, index, idom[n := Some(a)]) <= Slack(rpo, top, index, idom)
    ensures n in rpo ==> Slack(rpo, top, index, idom[n := Some(a)]) < Slack(rpo, top, index, idom)
  {
    if rpo != [] {
      SlackFalls(rpo[1..], top, index, idom, n, a);
      assert rpo == [rpo[0]] + rpo[1..];
    }
  }

  /** A move keeps the invariant, and leaves less slack if it changes anything. */
  lemma Moved(succ: Table, root: Node, rpo: seq<Node>, index: map<Node, nat>, idom: Parents, at: nat, n: Node, a: Node)
    requires Moves(succ, root, rpo, index, idom, at, n, a)
    ensures var idom' := idom[n := Some(a)];
      && Invariant(succ, root, rpo, index, idom', at + 1)
      && ParentsRanked(index, idom) && ParentsRanked(index, idom')
      && (if n in idom && idom[n] == Some(a) then idom' == idom && InPlace(succ, root, index, idom, n)
          else Slack(rpo, |rpo|, index, idom') < Slack(rpo, |rpo|, index, idom))
  {
    MeetIsEarlier(succ, root, rpo, index, idom, at, n, a);
    Step(succ, root, rpo, index, idom, at, n, a);
    TreeParentsRanked(root, index, idom);
    TreeParentsRanked(root, index, idom[n := Some(a)]);
    if n in idom && idom[n] == Some(a) {
      assert HasParent(index, idom, n);
    } else {
      if n in idom {
        assert HasParent(index, idom, n);
        AncBasics(root, index, idom, idom[n].value, a);
      }
      SlackFalls(rpo, |rpo|, index, idom, n, a);
    }
  }

  /** What a pass has done so far: risen, or found every node it met in place. */
  ghost predicate Progress(succ: Table, root: Node, rpo: seq<Node>, index: map<Node, nat>, idom0: Parents,
      idom: Parents, changed: bool, at: nat) {
    && Invariant(succ, root, rpo, index, idom0, 1)
    && Invariant(succ, root, rpo, index, idom, at)
    && ParentsRanked(index, idom0) && ParentsRanked(index, idom)
    && (if changed then Slack(rpo, |rpo|, index, idom) < Slack(rpo, |rpo|, index, idom0) else idom == idom0)
    && (!changed ==> forall n {:trigger InPlace(succ, root, index, idom, n)} :: n in index && 0 < index[n] < at ==>
      InPlace(succ, root, index, idom, n))
  }

  /** One pass over the nodes in order, each moved below the meet of its predecessors. */
  method Pass(succ: Table, root: Node, rpo: seq<Node>, index: map<Node, nat>, preds: map<Node, seq<Node>>,
      idom0: Parents)
    returns (idom: Parents, changed: bool)
    requires Closed(succ) && root in succ && Ranked(index)
    requires Invariant(succ, root, rpo, index, idom0, 1) && ParentsRanked(index, idom0)
    requires forall n :: n in index ==> n in preds && forall p :: p in preds[n] <==> p in index && Edge(succ, p, n)
    ensures Progress(succ, root, rpo, index, idom0, idom, changed, |rpo|)
  {
    idom, changed := idom0, false;
    var at := 1;
    while at < |rpo|
      invariant 1 <= at <= |rpo|
      invariant Progress(succ, root, rpo, index, idom0, idom, changed, at)
    {
      idom, changed := Place(succ, root, rpo, index, preds[rpo[at]], idom0, idom, changed, at);
      at := at + 1;
    }
  }

  /** The turn of the node at position `at`. */
  method Place(succ: Table, root: Node, rpo: seq<Node>, index: map<Node, nat>, preds: seq<Node>, ghost idom0: Parents,
      idom': Parents, changed': bool, at: nat)
    returns (idom: Parents, changed: bool)
    requires Closed(succ) && root in succ && Ranked(index) && 0 < at < |rpo|
    requires Progress(succ, root, rpo, index, idom0, idom', changed', at)
    requires forall p :: p in preds <==> p in index && Edge(succ, p, rpo[at])
    ensures Progress(succ, root, rpo, index, idom0, idom, changed, at + 1)
  {
    idom, changed := idom', changed';
    var node := rpo[at];
    assert index[node] == at && node != root;
    var meet := MeetOf(succ, root, rpo, index, idom, at, node, preds);
    Moved(succ, root, rpo, index, idom, at, node, meet);
    if node !in idom || idom[node] != Some(meet) {
      idom := idom[node := Some(meet)];
      changed := true;
    } else if !changed {
      forall n | n in index && 0 < index[n] < at + 1 ensures InPlace(succ, root, index, idom, n) {
        if index[n] == at {
          assert rpo[index[n]] == n;
        }
      }
    }
  }

  /** Passes until one moves nothing. */
  method Refine(succ: Table, root: Node, rpo: seq<Node>, index: map<Node, nat>, preds: map<Node, seq<Node>>)
    returns (idom: Parents)
    requires Closed(succ) && root in succ && IsOrder(succ, root, rpo, index)
    requires forall n :: n in index ==> n in preds && forall p :: p in preds[n] <==> p in index && Edge(succ, p, n)
    ensures Settled(succ, root, rpo, index, idom)
  {
    OrderRanked(succ, root, rpo, index);
    StartOfFirstPass(succ, root, rpo, index);
    idom := map[root := None];
    var changed := true;
    while changed
      invariant Invariant(succ, root, rpo, index, idom, 1) && ParentsRanked(index, idom)
      invariant !changed ==> Settled(succ, root, rpo, index, idom)
      decreases Slack(rpo, |rpo|, index, idom) + (if changed then 1 else 0)
    {
      idom, changed := Pass(succ, root, rpo, index, preds, idom);
      StartOfNextPass(succ, root, rpo, index, idom);
    }
  }
}
