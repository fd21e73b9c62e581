/** What a page shows, which names it includes and which chains have none, said of the pieces of the
    templates alone: how a page is put together plays no part. */
module Pages {
  import opened Options
  import opened Composer
  import opened Overriding

  // ---- said of the pieces ----

  /** What pieces show that stand in the definition `k`, their blocks filled in `depth` deep. */
  ghost predicate Shows(chain: Chain, included: string -> Option<string>, k: Key, pieces: seq<Piece>, depth: nat,
      page: string)
    decreases depth, |pieces|, 1
  {
    if pieces == [] then page == ""
    else
      var n := |pieces| - 1;
      exists before, text ::
        Shows(chain, included, k, pieces[..n], depth, before) && page == before + text
        && PieceShows(chain, included, k, pieces[n], depth, |pieces|, text)
  }

  /** Text shows itself; an include what it renders; a block or `Super` what the definition it stands
      for shows, and nothing when there is none. */
  ghost predicate PieceShows(chain: Chain, included: string -> Option<string>, k: Key, piece: Piece, depth: nat,
      among: nat, text: string)
    decreases depth, among, 0
  {
    match piece
    case Text(t) => text == t
    case Include(name) => included(name) == Some(text)
    case _ =>
      if exists inner :: StandsFor(chain, k, piece, inner) then
        depth > 0 && exists inner ::
          StandsFor(chain, k, piece, inner)
          && Shows(chain, included, inner, chain[inner.level].blocks[inner.name.value], depth - 1, text)
      else text == ""
  }

  /** A page begins with what the last template of the chain, which extends nothing, says. */
  ghost predicate PageShows(chain: Chain, included: string -> Option<string>, depth: nat, page: string) {
    chain != []
    && Shows(chain, included, Key(None, |chain| - 1), chain[|chain| - 1].pieces, depth, page)
  }

  /** A name stands in an include among the pieces, or in a definition some piece stands for. */
  ghost predicate Mentions(chain: Chain, k: Key, pieces: seq<Piece>, depth: nat, name: string)
    decreases depth
  {
    || Include(name) in pieces
    || (depth > 0 && exists piece, inner ::
          piece in pieces && StandsFor(chain, k, piece, inner)
          && Mentions(chain, inner, chain[inner.level].blocks[inner.name.value], depth - 1, name))
  }

  /** A name stands in an include of the page. */
  ghost predicate PageMentions(chain: Chain, depth: nat, name: string) {
    chain != [] && Mentions(chain, Key(None, |chain| - 1), chain[|chain| - 1].pieces, depth, name)
  }

  // ---- and of the definitions ----

  lemma HeldStands(chain: Chain, k: Key, inner: Key)
    requires Defined(chain, k)
    ensures Holds(chain, k, inner) <==>
      exists piece :: piece in Definition(chain, k) && StandsFor(chain, k, piece, inner)
  {
    if Holds(chain, k, inner) {
      var p :| p in Definition(chain, k) && Resolved(chain, k, p) == Some(inner);
      ResolvedStands(chain, k, p, inner);
    }
    if piece :| piece in Definition(chain, k) && StandsFor(chain, k, piece, inner) {
      ResolvedStands(chain, k, piece, inner);
    }
  }

  /** What a definition's first pieces show is their expansion. */
  lemma {:induction false} ShownIsExpanded(chain: Chain, included: string -> Option<string>, rank: Ranks, k: Key, n: nat,
      depth: nat, page: string)
    requires Ranked(chain, rank) && k in rank && Defined(chain, k) && n <= |Definition(chain, k)|
    requires Shows(chain, included, k, Definition(chain, k)[..n], depth, page)
    ensures Expanded(chain, included, rank, k, n) == Some(page)
    decreases depth, n, 1
  {
    hide Ranked, Resolved, StandsFor;
    var pieces := Definition(chain, k)[..n];
    if n > 0 {
      assert pieces[..n - 1] == Definition(chain, k)[..n - 1];
      var before, text :| Shows(chain, included, k, pieces[..n - 1], depth, before) && page == before + text
        && PieceShows(chain, included, k, pieces[n - 1], depth, |pieces|, text);
      ShownIsExpanded(chain, included, rank, k, n - 1, depth, before);
      if pieces[n - 1].Block? || pieces[n - 1].Super? {
        PieceIsExpanded(chain, included, rank, k, pieces[n - 1], depth, |pieces|, text);
      }
    }
  }

  lemma {:induction false} PieceIsExpanded(chain: Chain, included: string -> Option<string>, rank: Ranks, k: Key,
      piece: Piece, depth: nat, among: nat, text: string)
    requires Ranked(chain, rank) && k in rank && Defined(chain, k) && piece in Definition(chain, k)
    requires (piece.Block? || piece.Super?) && PieceShows(chain, included, k, piece, depth, among, text)
    ensures var r := Resolved(chain, k, piece);
      && (r.None? ==> text == "")
      && (r.Some? ==>
            r.value in rank && Defined(chain, r.value)
            && Expanded(chain, included, rank, r.value, |Definition(chain, r.value)|) == Some(text))
    decreases depth, among, 0
  {
    hide Ranked, Resolved;
    var r := Resolved(chain, k, piece);
    NoneStands(chain, k, piece);
    if r.Some? {
      ResolvedStands(chain, k, piece, r.value);
      var inner :|
        StandsFor(chain, k, piece, inner)
        && Shows(chain, included, inner, chain[inner.level].blocks[inner.name.value], depth - 1, text);
      OneStands(chain, k, piece, r.value, inner);
      InnerRanked(chain, rank, k, piece, inner);
      assert Definition(chain, inner) == chain[inner.level].blocks[inner.name.value];
      ShownIsExpanded(chain, included, rank, inner, |Definition(chain, inner)|, depth - 1, text);
    }
  }

  lemma InnerRanked(chain: Chain, rank: Ranks, k: Key, piece: Piece, inner: Key)
    requires Ranked(chain, rank) && k in rank && Defined(chain, k) && piece in Definition(chain, k)
    requires Resolved(chain, k, piece) == Some(inner)
    ensures inner in rank && rank[inner] < rank[k] && Defined(chain, inner)
    ensures Definition(chain, inner)[..|Definition(chain, inner)|] == Definition(chain, inner)
  {
    assert Holds(chain, k, inner) && RankedAt(chain, rank, k) && RankedAt(chain, rank, inner);
  }

  lemma NoneStands(chain: Chain, k: Key, piece: Piece)
    requires Defined(chain, k)
    ensures Resolved(chain, k, piece).None? <==> forall inner :: !StandsFor(chain, k, piece, inner)
  {
    forall inner ensures StandsFor(chain, k, piece, inner) <==> Resolved(chain, k, piece) == Some(inner) {
      ResolvedStands(chain, k, piece, inner);
    }
    if Resolved(chain, k, piece).Some? {
      assert StandsFor(chain, k, piece, Resolved(chain, k, piece).value);
    }
  }

  lemma {:induction false} ExpandedIsShown(chain: Chain, included: string -> Option<string>, rank: Ranks, k: Key, n: nat,
      depth: nat, page: string)
    requires Ranked(chain, rank) && k in rank && Defined(chain, k) && n <= |Definition(chain, k)| && depth >= rank[k]
    requires Expanded(chain, included, rank, k, n) == Some(page)
    ensures Shows(chain, included, k, Definition(chain, k)[..n], depth, page)
    decreases depth, n
  {
    hide Ranked, Resolved, StandsFor;
    var pieces := Definition(chain, k)[..n];
    if n > 0 {
      assert pieces[..n - 1] == Definition(chain, k)[..n - 1];
      var before := Expanded(chain, included, rank, k, n - 1).value;
      ExpandedIsShown(chain, included, rank, k, n - 1, depth, before);
      var piece := pieces[n - 1];
      var text := page[|before|..];
      if piece.Block? || piece.Super? {
        PieceIsShown(chain, included, rank, k, n, depth, page);
      }
      assert page == before + text && PieceShows(chain, included, k, piece, depth, |pieces|, text);
    }
  }

  lemma {:induction false} PieceIsShown(chain: Chain, included: string -> Option<string>, rank: Ranks, k: Key, n: nat,
      depth: nat, page: string)
    requires Ranked(chain, rank) && k in rank && Defined(chain, k) && 0 < n <= |Definition(chain, k)| && depth >= rank[k]
    requires Expanded(chain, included, rank, k, n) == Some(page)
    requires var piece := Definition(chain, k)[n - 1]; piece.Block? || piece.Super?
    ensures var before := Expanded(chain, included, rank, k, n - 1);
      before.Some? && before.value <= page
      && PieceShows(chain, included, k, Definition(chain, k)[n - 1], depth, n, page[|before.value|..])
    decreases depth, n, 0
  {
    var piece := Definition(chain, k)[n - 1];
    var r := Resolved(chain, k, piece);
    var before := Expanded(chain, included, rank, k, n - 1).value;
    if r.Some? {
      var inner := r.value;
      ResolvedStands(chain, k, piece, inner);
      InnerRanked(chain, rank, k, piece, inner);
      var text := Expanded(chain, included, rank, inner, |Definition(chain, inner)|).value;
      assert page[|before|..] == text;
      ExpandedIsShown(chain, included, rank, inner, |Definition(chain, inner)|, depth - 1, text);
    } else {
      NoneStands(chain, k, piece);
      assert page[|before|..] == "";
    }
  }

  /** The expansion of a chain is what its page shows. */
  lemma ExpansionIsPage(chain: Chain, included: string -> Option<string>, rank: Ranks, page: string)
    requires chain != [] && Ranked(chain, rank) && Root(chain) in rank
    ensures Expansion(chain, included, rank, Root(chain)) == Some(page) <==>
      exists depth :: PageShows(chain, included, depth, page)
  {
    var k := Root(chain);
    var n := |Definition(chain, k)|;
    assert Definition(chain, k)[..n] == Definition(chain, k) == chain[|chain| - 1].pieces;
    if Expansion(chain, included, rank, k) == Some(page) {
      ExpandedIsShown(chain, included, rank, k, n, rank[k], page);
      assert PageShows(chain, included, rank[k], page);
    }
    if depth: nat :| PageShows(chain, included, depth, page) {
      ShownIsExpanded(chain, included, rank, k, n, depth, page);
    }
  }

  // ---- the names included ----

  lemma {:induction false} MentionedIsRendered(chain: Chain, k: Key, depth: nat, name: string) returns (p: seq<Key>)
    requires Defined(chain, k) && Mentions(chain, k, Definition(chain, k), depth, name)
    ensures IsPath(chain, p) && p[0] == k && IncludesName(chain, p[|p| - 1], name)
    decreases depth
  {
    if Include(name) in Definition(chain, k) {
      p := [k];
    } else {
      var piece, inner :| piece in Definition(chain, k) && StandsFor(chain, k, piece, inner)
        && Mentions(chain, inner, chain[inner.level].blocks[inner.name.value], depth - 1, name);
      HeldStands(chain, k, inner);
      var rest := MentionedIsRendered(chain, inner, depth - 1, name);
      p := [k] + rest;
      forall i | 0 <= i < |p| - 1 ensures Holds(chain, p[i], p[i + 1]) {
        assert i > 0 ==> Holds(chain, rest[i - 1], rest[i - 1 + 1]);
      }
    }
  }

  lemma {:induction false} RenderedIsMentioned(chain: Chain, p: seq<Key>, name: string)
    requires IsPath(chain, p) && IncludesName(chain, p[|p| - 1], name)
    ensures Mentions(chain, p[0], Definition(chain, p[0]), |p|, name)
    decreases |p|
  {
    if |p| > 1 {
      var rest := p[1..];
      assert Holds(chain, p[0], p[0 + 1]);
      forall i | 0 <= i < |rest| - 1 ensures Holds(chain, rest[i], rest[i + 1]) {
        assert Holds(chain, p[i + 1], p[i + 1 + 1]);
      }
      HeldStands(chain, p[0], p[1]);
      RenderedIsMentioned(chain, rest, name);
    }
  }

  /** The names included are those that stand in the page, however deep. */
  lemma IncludedIsMentioned(chain: Chain, name: string)
    requires chain != []
    ensures IsIncluded(chain, name) <==> exists depth :: PageMentions(chain, depth, name)
  {
    var k := Root(chain);
    if IsIncluded(chain, name) {
      var last :| Rendered(chain, last) && IncludesName(chain, last, name);
      var p :| IsPath(chain, p) && p[0] == k && p[|p| - 1] == last;
      RenderedIsMentioned(chain, p, name);
      assert PageMentions(chain, |p|, name);
    }
    if depth: nat :| PageMentions(chain, depth, name) {
      var p := MentionedIsRendered(chain, k, depth, name);
      assert Rendered(chain, p[|p| - 1]);
    }
  }

  // ---- the chains refused ----

  /** The definition can be shown, were every include to render nothing. */
  ghost predicate Finite(chain: Chain, k: Key, depth: nat) {
    Defined(chain, k) && exists page :: Shows(chain, Blank(), k, Definition(chain, k), depth, page)
  }

  function Blank(): string -> Option<string> {
    name => Some("")
  }

  /** What it holds then can be shown, less deep. */
  lemma {:induction false} FiniteBelow(chain: Chain, k: Key, pieces: seq<Piece>, depth: nat, page: string, piece: Piece,
      inner: Key)
    requires Shows(chain, Blank(), k, pieces, depth, page) && piece in pieces && StandsFor(chain, k, piece, inner)
    ensures depth > 0 && Finite(chain, inner, depth - 1)
    decreases |pieces|
  {
    var n := |pieces| - 1;
    var before, text :| Shows(chain, Blank(), k, pieces[..n], depth, before) && page == before + text
      && PieceShows(chain, Blank(), k, pieces[n], depth, |pieces|, text);
    if piece in pieces[..n] {
      FiniteBelow(chain, k, pieces[..n], depth, before, piece, inner);
    } else {
      var other :|
        StandsFor(chain, k, piece, other)
        && Shows(chain, Blank(), other, chain[other.level].blocks[other.name.value], depth - 1, text);
      OneStands(chain, k, piece, inner, other);
      assert Shows(chain, Blank(), inner, Definition(chain, inner), depth - 1, text);
    }
  }

  lemma OneStands(chain: Chain, k: Key, piece: Piece, inner: Key, other: Key)
    requires StandsFor(chain, k, piece, inner) && StandsFor(chain, k, piece, other)
    ensures inner == other
  {
    assert !(inner.level < other.level) && !(other.level < inner.level);
  }

  lemma HeldIsFinite(chain: Chain, k: Key, inner: Key, depth: nat)
    requires Finite(chain, k, depth) && Holds(chain, k, inner)
    ensures depth > 0 && Finite(chain, inner, depth - 1)
  {
    HeldStands(chain, k, inner);
    var piece :| piece in Definition(chain, k) && StandsFor(chain, k, piece, inner);
    var page :| Shows(chain, Blank(), k, Definition(chain, k), depth, page);
    FiniteBelow(chain, k, Definition(chain, k), depth, page, piece, inner);
  }

  lemma {:induction false} FiniteAlong(chain: Chain, p: seq<Key>, i: nat, j: nat, depth: nat)
    requires IsPath(chain, p) && i <= j < |p| && Finite(chain, p[i], depth)
    ensures depth >= j - i && Finite(chain, p[j], depth - (j - i))
    decreases j - i
  {
    if i < j {
      assert Holds(chain, p[i], p[i + 1]);
      HeldIsFinite(chain, p[i], p[i + 1], depth);
      FiniteAlong(chain, p, i + 1, j, depth - 1);
    }
  }

  /** So a definition that holds itself cannot be shown. */
  lemma {:induction false} CycleNeverEnds(chain: Chain, p: seq<Key>, i: nat, depth: nat)
    requires IsPath(chain, p) && i < |p| - 1 && p[i] == p[|p| - 1]
    ensures !Finite(chain, p[i], depth)
    decreases depth
  {
    if Finite(chain, p[i], depth) {
      FiniteAlong(chain, p, i, |p| - 1, depth);
      CycleNeverEnds(chain, p, i, depth - (|p| - 1 - i));
    }
  }

  /** No definition on the path comes twice. */
  ghost predicate Simple(p: seq<Key>) {
    forall i, j :: 0 <= i < j < |p| ==> p[i] != p[j]
  }

  lemma {:induction false} SimpleIsShort(p: seq<Key>, keys: set<Key>)
    requires Simple(p) && forall i :: 0 <= i < |p| ==> p[i] in keys
    ensures |p| <= |keys|
  {
    if p != [] {
      var n := |p| - 1;
      SimpleIsShort(p[..n], keys - {p[n]});
    }
  }

  /** When none holds itself every definition rendered can be shown. */
  lemma {:induction false} RenderedIsFinite(chain: Chain, p: seq<Key>)
    requires !HoldsItself(chain) && IsPath(chain, p) && p[0] == Root(chain) && Simple(p)
    ensures |p| <= |Keys(chain)| && Finite(chain, p[|p| - 1], |Keys(chain)| - |p|)
    decreases |Keys(chain)| - |p|
  {
    hide Keys, Finite, StandsFor, HoldsItself;
    PathInKeys(chain, p);
    SimpleIsShort(p, Keys(chain));
    var k := p[|p| - 1];
    var depth := |Keys(chain)| - |p|;
    forall inner | Holds(chain, k, inner) ensures depth > 0 && Finite(chain, inner, depth - 1) {
      PathOn(chain, p, inner);
      PathInKeys(chain, p + [inner]);
      SimpleIsShort(p + [inner], Keys(chain));
      RenderedIsFinite(chain, p + [inner]);
    }
    HoldingIsFinite(chain, k, depth);
  }

  lemma HoldingIsFinite(chain: Chain, k: Key, depth: nat)
    requires Defined(chain, k)
    requires forall inner :: Holds(chain, k, inner) ==> depth > 0 && Finite(chain, inner, depth - 1)
    ensures Finite(chain, k, depth)
  {
    forall piece, inner | piece in Definition(chain, k) && StandsFor(chain, k, piece, inner)
      ensures depth > 0 && Finite(chain, inner, depth - 1) {
      HeldStands(chain, k, inner);
    }
    var page := PiecesShown(chain, k, Definition(chain, k), depth);
  }

  lemma PathInKeys(chain: Chain, p: seq<Key>)
    requires IsPath(chain, p)
    ensures Defined(chain, p[|p| - 1]) && forall i :: 0 <= i < |p| ==> p[i] in Keys(chain)
  {
    forall i | 0 <= i < |p| ensures Defined(chain, p[i]) && p[i] in Keys(chain) {
      assert i > 0 ==> Holds(chain, p[i - 1], p[i - 1 + 1]);
      DefinedIsKey(chain, p[i]);
    }
  }

  lemma DefinedIsKey(chain: Chain, k: Key)
    requires Defined(chain, k)
    ensures k in Keys(chain)
  {
    assert k == Key(k.name, k.level);
    if k.name.Some? {
      assert k == Key(Some(k.name.value), k.level);
    }
  }

  lemma PathOn(chain: Chain, p: seq<Key>, inner: Key)
    requires !HoldsItself(chain) && IsPath(chain, p) && p[0] == Root(chain) && Simple(p)
    requires Holds(chain, p[|p| - 1], inner)
    ensures IsPath(chain, p + [inner]) && Simple(p + [inner])
  {
    var q := p + [inner];
    forall i | 0 <= i < |q| - 1 ensures Holds(chain, q[i], q[i + 1]) {
      assert i < |p| - 1 ==> Holds(chain, p[i], p[i + 1]);
    }
  }

  lemma {:induction false} PiecesShown(chain: Chain, k: Key, pieces: seq<Piece>, depth: nat) returns (page: string)
    requires forall piece, inner :: piece in pieces && StandsFor(chain, k, piece, inner) ==>
      depth > 0 && Finite(chain, inner, depth - 1)
    ensures Shows(chain, Blank(), k, pieces, depth, page)
  {
    if pieces == [] {
      page := "";
    } else {
      var n := |pieces| - 1;
      var before := PiecesShown(chain, k, pieces[..n], depth);
      var text := "";
      if pieces[n].Text? {
        text := pieces[n].text;
      } else if pieces[n].Block? || pieces[n].Super? {
        if inner :| StandsFor(chain, k, pieces[n], inner) {
          text :| Shows(chain, Blank(), inner, Definition(chain, inner), depth - 1, text);
        }
      }
      assert PieceShows(chain, Blank(), k, pieces[n], depth, |pieces|, text);
      page := before + text;
    }
  }

  lemma PageIsRoot(chain: Chain, depth: nat)
    requires chain != []
    ensures Finite(chain, Root(chain), depth) <==> exists page :: PageShows(chain, Blank(), depth, page)
  {
    var k := Root(chain);
    if Finite(chain, k, depth) {
      var page :| Shows(chain, Blank(), k, Definition(chain, k), depth, page);
      assert PageShows(chain, Blank(), depth, page);
    }
    if page :| PageShows(chain, Blank(), depth, page) {
      assert Shows(chain, Blank(), k, Definition(chain, k), depth, page);
    }
  }

  /** A chain is refused exactly when its page has no end, were every include to render nothing. */
  lemma RefusedNeverEnds(chain: Chain)
    requires chain != []
    ensures HoldsItself(chain) <==> forall depth, page :: !PageShows(chain, Blank(), depth, page)
  {
    hide PageShows, Finite, Holds;
    var k := Root(chain);
    if HoldsItself(chain) {
      var p, i :| IsPath(chain, p) && p[0] == k && 0 <= i < |p| - 1 && p[i] == p[|p| - 1];
      forall depth: nat, page ensures !PageShows(chain, Blank(), depth, page) {
        if PageShows(chain, Blank(), depth, page) {
          PageIsRoot(chain, depth);
          FiniteAlong(chain, p, 0, i, depth);
          CycleNeverEnds(chain, p, i, depth - i);
        }
      }
    } else {
      RenderedIsFinite(chain, [k]);
      PageIsRoot(chain, |Keys(chain)| - 1);
    }
  }
}
