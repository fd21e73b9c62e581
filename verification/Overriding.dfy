/** Which definition a page shows: the one the most derived template gives, and what a template
    overridden says no longer matters. */
module Overriding {
  import opened Options
  import opened Composer

  // ---- which definition a piece stands for ----

  /** `inner` is the definition of `name` at the least level from `from` on. */
  ghost predicate IsFirst(chain: Chain, name: string, from: nat, inner: Key) {
    && inner.name == Some(name) && from <= inner.level < |chain| && name in chain[inner.level].blocks
    && forall l :: from <= l < inner.level ==> name !in chain[l].blocks
  }

  /** A block stands for its most derived definition, `Super` for the next one up from where it
      stands. */
  ghost predicate StandsFor(chain: Chain, k: Key, piece: Piece, inner: Key) {
    match piece
    case Block(name) => IsFirst(chain, name, 0, inner)
    case Super => k.name.Some? && IsFirst(chain, k.name.value, k.level + 1, inner)
    case _ => false
  }

  lemma FirstIsOne(chain: Chain, name: string, from: nat, inner: Key)
    requires from <= |chain|
    ensures IsFirst(chain, name, from, inner) <==>
      FirstDefining(chain, name, from) == Some(inner.level) && inner.name == Some(name)
  {
    var r := FirstDefining(chain, name, from);
    if IsFirst(chain, name, from, inner) && r.Some? {
      assert !(r.value < inner.level) && !(inner.level < r.value);
    }
  }

  /** What is looked up is what a piece stands for, and nothing when it stands for nothing. */
  lemma ResolvedStands(chain: Chain, k: Key, piece: Piece, inner: Key)
    requires Defined(chain, k)
    ensures Resolved(chain, k, piece) == Some(inner) <==> StandsFor(chain, k, piece, inner)
  {
    match piece {
      case Block(name) => FirstIsOne(chain, name, 0, inner);
      case Super =>
        if k.name.Some? {
          FirstIsOne(chain, k.name.value, k.level + 1, inner);
        }
      case _ =>
    }
  }

  // ---- what is overridden does not matter ----

  /** The template at `m` defines the block without rendering the definition it overrides. */
  ghost predicate Overrides(chain: Chain, name: string, m: nat) {
    m < |chain| && name in chain[m].blocks && Super !in chain[m].blocks[name]
  }

  /** The chain whose template at `l` defines the block otherwise. */
  function Replaced(chain: Chain, name: string, l: nat, other: seq<Piece>): Chain
    requires l < |chain|
  {
    chain[l := chain[l].(blocks := chain[l].blocks[name := other])]
  }

  /** No definition the page renders is further up than one that overrides. */
  lemma {:induction false} NoneAbove(chain: Chain, name: string, m: nat, p: seq<Key>)
    requires Overrides(chain, name, m) && IsPath(chain, p) && p[0] == Root(chain)
    ensures forall i :: 0 <= i < |p| && p[i].name == Some(name) ==> p[i].level <= m
  {
    if |p| > 1 {
      var q := p[..|p| - 1];
      forall i | 0 <= i < |q| - 1 ensures Holds(chain, q[i], q[i + 1]) {
        assert Holds(chain, p[i], p[i + 1]);
      }
      NoneAbove(chain, name, m, q);
      assert Holds(chain, p[|p| - 2], p[|p| - 2 + 1]);
      HeldBelow(chain, name, m, q[|q| - 1], p[|p| - 1]);
    }
  }

  lemma HeldBelow(chain: Chain, name: string, m: nat, k: Key, inner: Key)
    requires Overrides(chain, name, m) && Holds(chain, k, inner) && (k.name == Some(name) ==> k.level <= m)
    ensures inner.name == Some(name) ==> inner.level <= m
  {
    var piece :| piece in Definition(chain, k) && Resolved(chain, k, piece) == Some(inner);
    ResolvedStands(chain, k, piece, inner);
  }

  lemma SameHolds(chain: Chain, name: string, m: nat, l: nat, other: seq<Piece>, k: Key, inner: Key)
    requires m < l < |chain| && name in chain[l].blocks && Overrides(chain, name, m) && k != Key(Some(name), l)
    ensures var more := Replaced(chain, name, l, other);
      && (Defined(chain, k) <==> Defined(more, k))
      && (Defined(chain, k) ==> Definition(more, k) == Definition(chain, k))
      && (Defined(chain, k) ==> forall piece :: Resolved(more, k, piece) == Resolved(chain, k, piece))
      && (Holds(chain, k, inner) <==> Holds(more, k, inner))
  {
    var more := Replaced(chain, name, l, other);
    if Defined(chain, k) {
      forall piece ensures Resolved(more, k, piece) == Resolved(chain, k, piece) {
        SameResolved(chain, name, l, other, k, piece);
      }
    }
  }

  lemma SameResolved(chain: Chain, name: string, l: nat, other: seq<Piece>, k: Key, piece: Piece)
    requires l < |chain| && name in chain[l].blocks && Defined(chain, k)
    ensures Defined(Replaced(chain, name, l, other), k)
      && Resolved(Replaced(chain, name, l, other), k, piece) == Resolved(chain, k, piece)
  {
    var more := Replaced(chain, name, l, other);
    forall inner ensures StandsFor(more, k, piece, inner) <==> StandsFor(chain, k, piece, inner) {
      assert forall i :: 0 <= i < |chain| ==> more[i].blocks.Keys == chain[i].blocks.Keys;
    }
    var r, r' := Resolved(chain, k, piece), Resolved(more, k, piece);
    if r.Some? {
      ResolvedStands(chain, k, piece, r.value);
      ResolvedStands(more, k, piece, r.value);
    }
    if r'.Some? {
      ResolvedStands(chain, k, piece, r'.value);
      ResolvedStands(more, k, piece, r'.value);
    }
  }

  lemma {:induction false} SamePath(chain: Chain, name: string, m: nat, l: nat, other: seq<Piece>, p: seq<Key>)
    requires m < l < |chain| && name in chain[l].blocks && Overrides(chain, name, m)
    requires IsPath(chain, p) && p[0] == Root(chain)
    ensures IsPath(Replaced(chain, name, l, other), p) && Root(Replaced(chain, name, l, other)) == Root(chain)
    ensures forall i :: 0 <= i < |p| ==> p[i] != Key(Some(name), l)
  {
    var more := Replaced(chain, name, l, other);
    NoneAbove(chain, name, m, p);
    forall i | 0 <= i < |p| - 1 ensures Holds(more, p[i], p[i + 1]) {
      assert Holds(chain, p[i], p[i + 1]);
      SameHolds(chain, name, m, l, other, p[i], p[i + 1]);
    }
    SameHolds(chain, name, m, l, other, p[0], p[0]);
  }

  /** Undoing the replacement. */
  lemma ReplacedBack(chain: Chain, name: string, m: nat, l: nat, other: seq<Piece>)
    requires m < l < |chain| && name in chain[l].blocks && Overrides(chain, name, m)
    ensures var more := Replaced(chain, name, l, other);
      l < |more| && name in more[l].blocks && Overrides(more, name, m)
      && Replaced(more, name, l, chain[l].blocks[name]) == chain
  {
    var more := Replaced(chain, name, l, other);
    assert more[l].blocks[name := chain[l].blocks[name]] == chain[l].blocks;
  }

  lemma RenderedOn(chain: Chain, name: string, m: nat, l: nat, other: seq<Piece>, k: Key)
    requires m < l < |chain| && name in chain[l].blocks && Overrides(chain, name, m) && Rendered(chain, k)
    ensures Rendered(Replaced(chain, name, l, other), k) && k != Key(Some(name), l)
  {
    var p :| IsPath(chain, p) && p[0] == Root(chain) && p[|p| - 1] == k;
    SamePath(chain, name, m, l, other, p);
  }

  lemma HoldsItselfOn(chain: Chain, name: string, m: nat, l: nat, other: seq<Piece>)
    requires m < l < |chain| && name in chain[l].blocks && Overrides(chain, name, m) && HoldsItself(chain)
    ensures HoldsItself(Replaced(chain, name, l, other))
  {
    var p, i :| IsPath(chain, p) && p[0] == Root(chain) && 0 <= i < |p| - 1 && p[i] == p[|p| - 1];
    SamePath(chain, name, m, l, other, p);
  }

  /** What a page includes, and whether it is refused, does not depend on a definition overridden. */
  lemma OverriddenIncludes(chain: Chain, name: string, m: nat, l: nat, other: seq<Piece>)
    requires m < l < |chain| && name in chain[l].blocks && Overrides(chain, name, m)
    ensures HoldsItself(chain) <==> HoldsItself(Replaced(chain, name, l, other))
    ensures forall x :: IsIncluded(chain, x) <==> IsIncluded(Replaced(chain, name, l, other), x)
  {
    var more := Replaced(chain, name, l, other);
    ReplacedBack(chain, name, m, l, other);
    if HoldsItself(chain) {
      HoldsItselfOn(chain, name, m, l, other);
    }
    if HoldsItself(more) {
      HoldsItselfOn(more, name, m, l, chain[l].blocks[name]);
    }
    forall x ensures IsIncluded(chain, x) <==> IsIncluded(more, x) {
      if k :| Rendered(chain, k) && IncludesName(chain, k, x) {
        RenderedOn(chain, name, m, l, other, k);
        SameHolds(chain, name, m, l, other, k, k);
      }
      if k :| Rendered(more, k) && IncludesName(more, k, x) {
        RenderedOn(more, name, m, l, chain[l].blocks[name], k);
        SameHolds(chain, name, m, l, other, k, k);
      }
    }
  }

  lemma RenderedNext(chain: Chain, k: Key, inner: Key)
    requires Rendered(chain, k) && Holds(chain, k, inner)
    ensures Rendered(chain, inner)
  {
    var p :| IsPath(chain, p) && p[0] == Root(chain) && p[|p| - 1] == k;
    var q := p + [inner];
    forall i | 0 <= i < |q| - 1 ensures Holds(chain, q[i], q[i + 1]) {
      assert i < |p| - 1 ==> Holds(chain, p[i], p[i + 1]);
    }
    assert IsPath(chain, q) && q[|q| - 1] == inner;
  }

  lemma {:induction false} SameExpanded(chain: Chain, name: string, m: nat, l: nat, other: seq<Piece>,
      included: string -> Option<string>, rank: Ranks, rank': Ranks, k: Key, n: nat)
    requires m < l < |chain| && name in chain[l].blocks && Overrides(chain, name, m) && Rendered(chain, k)
    requires Ranked(chain, rank) && Ranked(Replaced(chain, name, l, other), rank') && k in rank && k in rank'
    requires Defined(chain, k) && n <= |Definition(chain, k)|
    ensures k != Key(Some(name), l) && Defined(Replaced(chain, name, l, other), k)
      && Definition(Replaced(chain, name, l, other), k) == Definition(chain, k)
    ensures Expanded(chain, included, rank, k, n) == Expanded(Replaced(chain, name, l, other), included, rank', k, n)
    decreases rank[k], n
  {
    var more := Replaced(chain, name, l, other);
    RenderedOn(chain, name, m, l, other, k);
    SameHolds(chain, name, m, l, other, k, k);
    if n > 0 {
      SameExpanded(chain, name, m, l, other, included, rank, rank', k, n - 1);
      var piece := Definition(chain, k)[n - 1];
      var inner := Resolved(chain, k, piece);
      if inner.Some? {
        assert Holds(chain, k, inner.value) && RankedAt(chain, rank, k);
        assert Holds(more, k, inner.value) && RankedAt(more, rank', k);
        assert RankedAt(chain, rank, inner.value);
        RenderedNext(chain, k, inner.value);
        SameExpanded(chain, name, m, l, other, included, rank, rank', inner.value, |Definition(chain, inner.value)|);
      }
    }
  }

  /** Overriding: once a template defines a block without `Super`, the page is the same whatever a
      template further up says the block is. */
  lemma OverriddenPage(chain: Chain, name: string, m: nat, l: nat, other: seq<Piece>,
      included: string -> Option<string>, rank: Ranks, rank': Ranks)
    requires m < l < |chain| && name in chain[l].blocks && Overrides(chain, name, m)
    requires Ranked(chain, rank) && Root(chain) in rank
    requires Ranked(Replaced(chain, name, l, other), rank') && Root(Replaced(chain, name, l, other)) in rank'
    ensures Expansion(chain, included, rank, Root(chain))
         == Expansion(Replaced(chain, name, l, other), included, rank', Root(Replaced(chain, name, l, other)))
  {
    var root := Root(chain);
    assert IsPath(chain, [root]) && [root][|[root]| - 1] == root;
    assert Rendered(chain, root);
    SameExpanded(chain, name, m, l, other, included, rank, rank', root, |Definition(chain, root)|);
  }
}
