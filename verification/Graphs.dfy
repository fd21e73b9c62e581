/** Finite directed graphs given by a successor table, their walks, and dominance as the
    textbook defines it: a property of every walk from the root. */
module Graphs {

  /** A node is known by a word and a number, as blocks are. */
  datatype Node = Node(name: string, number: nat)

  /** The successors of each node, in order and possibly repeated. */
  type Table = map<Node, seq<Node>>

  /** Every successor is a node of the table. */
  ghost predicate Closed(succ: Table) {
    forall a, b :: Edge(succ, a, b) ==> b in succ
  }

  predicate Edge(succ: Table, a: Node, b: Node) {
    a in succ && b in succ[a]
  }

  ghost predicate IsWalk(succ: Table, p: seq<Node>) {
    && |p| > 0
    && p[0] in succ
    && forall i :: 0 <= i < |p| - 1 ==> Edge(succ, p[i], p[i + 1])
  }

  ghost predicate WalkTo(succ: Table, p: seq<Node>, a: Node, b: Node) {
    IsWalk(succ, p) && p[0] == a && p[|p| - 1] == b
  }

  ghost predicate Reaches(succ: Table, a: Node, b: Node) {
    exists p :: WalkTo(succ, p, a, b)
  }

  /** Every walk from `root` to `b` visits `a`. */
  ghost predicate Dominates(succ: Table, root: Node, a: Node, b: Node) {
    forall p :: WalkTo(succ, p, root, b) ==> a in p
  }

  ghost predicate StrictlyDominates(succ: Table, root: Node, a: Node, b: Node) {
    a != b && Dominates(succ, root, a, b)
  }

  lemma WalkPrefix(succ: Table, p: seq<Node>, i: nat)
    requires IsWalk(succ, p) && i < |p|
    ensures WalkTo(succ, p[..i + 1], p[0], p[i])
  {
  }

  lemma WalkSuffix(succ: Table, p: seq<Node>, i: nat)
    requires Closed(succ) && IsWalk(succ, p) && i < |p|
    ensures WalkTo(succ, p[i..], p[i], p[|p| - 1])
  {
    if i > 0 {
      assert Edge(succ, p[i - 1], p[i - 1 + 1]);
    }
    forall k | 0 <= k < |p[i..]| - 1 ensures Edge(succ, p[i..][k], p[i..][k + 1]) {
      assert Edge(succ, p[i + k], p[i + k + 1]);
    }
  }

  /** Two walks meeting at a node join into one. */
  lemma WalkJoin(succ: Table, p: seq<Node>, q: seq<Node>)
    requires IsWalk(succ, p) && IsWalk(succ, q) && p[|p| - 1] == q[0]
    ensures WalkTo(succ, p + q[1..], p[0], q[|q| - 1])
  {
    var r := p + q[1..];
    forall k | 0 <= k < |r| - 1 ensures Edge(succ, r[k], r[k + 1]) {
      if k >= |p| - 1 {
        assert Edge(succ, q[k - |p| + 1], q[k - |p| + 1 + 1]);
      }
    }
  }

  lemma WalkExtend(succ: Table, p: seq<Node>, b: Node)
    requires IsWalk(succ, p) && Edge(succ, p[|p| - 1], b)
    ensures WalkTo(succ, p + [b], p[0], b)
  {
  }

  /** The position of the first occurrence of `a`. */
  lemma FirstOccurrence(p: seq<Node>, a: Node) returns (i: nat)
    requires a in p
    ensures i < |p| && p[i] == a && a !in p[..i]
  {
    i := 0;
    while p[i] != a
      invariant i < |p| && a !in p[..i] && a in p[i..]
      decreases |p| - i
    {
      assert p[i..] == [p[i]] + p[i + 1..];
      i := i + 1;
    }
  }

  /** A walk that passes through `a`, later through `d`, and never through `a` again, has a
      shortcut: if `d` dominates `a`, some walk to its end avoids `a` altogether. */
  lemma Shortcut(succ: Table, p: seq<Node>, i: nat, k: nat, d: Node, a: Node) returns (q: seq<Node>)
    requires Closed(succ) && IsWalk(succ, p)
    requires i < k < |p| && p[i] == a && a !in p[i + 1..]
    requires p[k] == d && d != a && Dominates(succ, p[0], d, a)
    ensures WalkTo(succ, q, p[0], p[|p| - 1]) && a !in q
  {
    var first := FirstOccurrence(p, a);
    WalkPrefix(succ, p, first);
    assert d in p[..first + 1];
    var j :| 0 <= j < |p[..first + 1]| && p[..first + 1][j] == d;
    assert a !in p[..j + 1] && a !in p[k..] by {
      assert forall x :: 0 <= x < j + 1 ==> p[x] == p[..first][x];
      assert forall x :: k <= x < |p| ==> p[x] == p[i + 1..][x - i - 1];
    }
    hide *;
    q := Spliced(succ, p, j, k);
  }

  /** Leaving out what lies between two visits of a node leaves a walk. */
  lemma Spliced(succ: Table, p: seq<Node>, j: nat, k: nat) returns (q: seq<Node>)
    requires Closed(succ) && IsWalk(succ, p) && j < k < |p| && p[j] == p[k]
    ensures WalkTo(succ, q, p[0], p[|p| - 1])
    ensures forall x :: x in q ==> x in p[..j + 1] || x in p[k..]
  {
    WalkPrefix(succ, p, j);
    WalkSuffix(succ, p, k);
    WalkJoin(succ, p[..j + 1], p[k..]);
    q := p[..j + 1] + p[k..][1..];
  }

  /** When `d` dominates `a` and `a` dominates another node `b`, a walk reaching `b` does not
      visit `d` again after its last visit of `a`: what `d` computed is still what `a` saw. */
  lemma NotRevisited(succ: Table, root: Node, p: seq<Node>, i: nat, k: nat, d: Node, a: Node, b: Node)
    requires Closed(succ) && WalkTo(succ, p, root, b)
    requires i < k < |p| && p[i] == a && a !in p[i + 1..]
    requires Dominates(succ, root, d, a) && Dominates(succ, root, a, b)
    ensures p[k] != d
  {
    assert p[i + 1..][k - i - 1] == p[k];
    if p[k] == d {
      var q := Shortcut(succ, p, i, k, d, a);
    }
  }
}
