/** Trees kept as a map from each node to its parent, the form in which the dominator
    algorithm grows and reshapes its answer. */
module Trees {
  import opened Graphs
  import opened Options

  type Parents = map<Node, Option<Node>>

  /** Only the root has no parent, and ranks fall on the way up. */
  ghost predicate IsTree(root: Node, rank: map<Node, nat>, idom: Parents) {
    && root in idom && idom[root] == None
    && (forall n :: n in idom ==> n in rank)
    && (forall n {:trigger HasParent(rank, idom, n)} :: n in idom && n != root ==> HasParent(rank, idom, n))
  }

  ghost predicate HasParent(rank: map<Node, nat>, idom: Parents, n: Node)
    requires n in idom && n in rank
  {
    && idom[n].Some?
    && idom[n].value in idom
    && idom[n].value in rank
    && rank[idom[n].value] < rank[n]
  }

  ghost predicate ParentsIn(idom: Parents) {
    forall n {:trigger idom[n]} :: n in idom && idom[n].Some? ==> idom[n].value in idom
  }

  /** Distinct nodes have distinct ranks. */
  ghost predicate Ranked(rank: map<Node, nat>) {
    forall a, b :: a in rank && b in rank && rank[a] == rank[b] ==> a == b
  }

  /** The node and everything above it. */
  ghost function Anc(root: Node, rank: map<Node, nat>, idom: Parents, n: Node): set<Node>
    requires IsTree(root, rank, idom) && n in idom
    decreases rank[n]
  {
    if n == root then {root}
    else assert HasParent(rank, idom, n); {n} + Anc(root, rank, idom, idom[n].value)
  }

  lemma {:induction false} AncBasics(root: Node, rank: map<Node, nat>, idom: Parents, n: Node, c: Node)
    requires IsTree(root, rank, idom) && n in idom && c in Anc(root, rank, idom, n)
    ensures c in idom && rank[c] <= rank[n] && (rank[c] == rank[n] ==> c == n)
    ensures Anc(root, rank, idom, c) <= Anc(root, rank, idom, n)
    decreases rank[n]
  {
    if n != root && c != n {
      assert HasParent(rank, idom, n);
      AncBasics(root, rank, idom, idom[n].value, c);
    }
  }

  lemma {:induction false} RootAbove(root: Node, rank: map<Node, nat>, idom: Parents, n: Node)
    requires IsTree(root, rank, idom) && n in idom
    ensures root in Anc(root, rank, idom, n) && n in Anc(root, rank, idom, n)
    decreases rank[n]
  {
    if n != root {
      assert HasParent(rank, idom, n);
      RootAbove(root, rank, idom, idom[n].value);
    }
  }

  /** Two nodes above a third lie one above the other. */
  lemma {:induction false} AncChain(root: Node, rank: map<Node, nat>, idom: Parents, n: Node, c: Node, d: Node)
    requires IsTree(root, rank, idom) && n in idom
    requires c in Anc(root, rank, idom, n) && d in Anc(root, rank, idom, n)
    requires c in rank && d in rank && rank[c] <= rank[d]
    requires d in idom
    ensures c == d || rank[c] < rank[d]
    ensures c in Anc(root, rank, idom, d)
    decreases rank[n]
  {
    if d == n {
      AncBasics(root, rank, idom, n, c);
    } else {
      assert HasParent(rank, idom, n);
      var up := idom[n].value;
      AncBasics(root, rank, idom, up, d);
      AncChain(root, rank, idom, up, c, d);
    }
  }

  /** The sets above the nodes do not depend on the ranks that show the tree well founded. */
  lemma {:induction false} RankIrrelevant(root: Node, rank: map<Node, nat>, rank': map<Node, nat>, idom: Parents,
      n: Node)
    requires IsTree(root, rank, idom) && IsTree(root, rank', idom) && n in idom
    ensures Anc(root, rank, idom, n) == Anc(root, rank', idom, n)
    decreases rank[n]
  {
    if n != root {
      assert HasParent(rank, idom, n);
      RankIrrelevant(root, rank, rank', idom, idom[n].value);
    }
  }

  // ---- hanging a node below another one ----

  /** `n` now hangs below `a`, a node of smaller rank. */
  lemma HungIsTree(root: Node, rank: map<Node, nat>, idom: Parents, n: Node, a: Node)
    requires IsTree(root, rank, idom)
    requires n != root && n in rank && a in idom && rank[a] < rank[n]
    ensures IsTree(root, rank, idom[n := Some(a)])
  {
    var idom' := idom[n := Some(a)];
    forall m | m in idom' && m != root ensures HasParent(rank, idom', m) {
      if m != n {
        assert HasParent(rank, idom, m);
      }
    }
  }

  /** What does not hang below `n` does not move. */
  lemma {:induction false} HungElsewhere(root: Node, rank: map<Node, nat>, idom: Parents, n: Node, a: Node, m: Node)
    requires IsTree(root, rank, idom)
    requires n != root && n in rank && a in idom && rank[a] < rank[n]
    requires m in idom && m != n && n !in Anc(root, rank, idom, m)
    ensures IsTree(root, rank, idom[n := Some(a)])
    ensures Anc(root, rank, idom[n := Some(a)], m) == Anc(root, rank, idom, m)
    decreases rank[m]
  {
    HungIsTree(root, rank, idom, n, a);
    if m != root {
      assert HasParent(rank, idom, m);
      var up := idom[m].value;
      RootAbove(root, rank, idom, up);
      HungElsewhere(root, rank, idom, n, a, up);
    }
  }

  /** What hangs below `n` keeps its way up to `n`, then goes on above `a`. */
  lemma {:induction false} HungBelow(root: Node, rank: map<Node, nat>, idom: Parents, n: Node, a: Node, m: Node,
      c: Node)
    requires IsTree(root, rank, idom) && Ranked(rank)
    requires n != root && n in rank && a in idom && rank[a] < rank[n]
    requires m in idom && n in Anc(root, rank, idom, m) && n in idom
    requires c in rank
    ensures IsTree(root, rank, idom[n := Some(a)])
    ensures c in Anc(root, rank, idom[n := Some(a)], m)
            <==> (c in Anc(root, rank, idom, m) && rank[c] >= rank[n]) || c in Anc(root, rank, idom, a)
    decreases rank[m]
  {
    HungIsTree(root, rank, idom, n, a);
    var idom' := idom[n := Some(a)];
    if n in Anc(root, rank, idom, a) {
      AncBasics(root, rank, idom, a, n);
      assert false;
    }
    HungElsewhere(root, rank, idom, n, a, a);
    if m == n {
      if c in Anc(root, rank, idom, m) {
        AncBasics(root, rank, idom, m, c);
      }
      RootAbove(root, rank, idom, m);
    } else {
      AncBasics(root, rank, idom, m, n);
      assert m != root;
      assert HasParent(rank, idom, m);
      HungBelow(root, rank, idom, n, a, idom[m].value, c);
    }
  }
}
