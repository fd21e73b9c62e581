/** Putting a page together from the chain of templates it extends: each definition once, with an
    explicit stack, and which chains cannot be rendered because a definition holds itself. */
module Composer {
  import opened Options

  /** What stands in a template: text, an include, a block, or `{{ block.super }}`. */
  datatype Piece = Text(text: string) | Include(name: string) | Block(name: string) | Super

  /** A template's pieces outside its blocks, and its blocks by name. */
  datatype Template = Template(pieces: seq<Piece>, blocks: map<string, seq<Piece>>)

  /** From the most derived template to the root. */
  type Chain = seq<Template>

  /** What can be rendered at `level`: the named block as that template defines it, or the template's
      own pieces. */
  datatype Key = Key(name: Option<string>, level: nat)

  ghost predicate HasBlocks(t: Template, pieces: seq<Piece>) {
    forall p :: p in pieces && p.Block? ==> p.name in t.blocks
  }

  /** A template defines the blocks that stand in it. */
  ghost predicate Wellformed(chain: Chain) {
    && chain != []
    && forall t :: t in chain ==> HasBlocks(t, t.pieces) && forall b :: b in t.blocks ==> HasBlocks(t, t.blocks[b])
  }

  predicate Defined(chain: Chain, k: Key) {
    && k.level < |chain|
    && (k.name.Some? ==> k.name.value in chain[k.level].blocks)
  }

  function Root(chain: Chain): Key
    requires chain != []
  {
    Key(None, |chain| - 1)
  }

  function Definition(chain: Chain, k: Key): seq<Piece>
    requires Defined(chain, k)
  {
    if k.name.None? then chain[k.level].pieces else chain[k.level].blocks[k.name.value]
  }

  /** The first level from `level` on that defines the block. */
  function FirstDefining(chain: Chain, name: string, level: nat): (r: Option<nat>)
    requires level <= |chain|
    ensures r.Some? ==> level <= r.value < |chain| && name in chain[r.value].blocks
    ensures r.Some? ==> forall l :: level <= l < r.value ==> name !in chain[l].blocks
    ensures r.None? ==> forall l :: level <= l < |chain| ==> name !in chain[l].blocks
    decreases |chain| - level
  {
    if level == |chain| then None
    else if name in chain[level].blocks then Some(level)
    else FirstDefining(chain, name, level + 1)
  }

  /** Which definition a piece of `k` brings into the page: a block brings the lowest level that
      defines it, `Super` the first level past `k` that does. */
  function Resolved(chain: Chain, k: Key, piece: Piece): (r: Option<Key>)
    requires Defined(chain, k)
    ensures r.Some? ==> Defined(chain, r.value)
  {
    match piece
    case Block(name) =>
      var level := FirstDefining(chain, name, 0);
      if level.Some? then Some(Key(Some(name), level.value)) else None
    case Super =>
      if k.name.None? then None
      else
        var level := FirstDefining(chain, k.name.value, k.level + 1);
        if level.Some? then Some(Key(k.name, level.value)) else None
    case _ => None
  }

  /** A block that stands in a template is rendered. */
  lemma BlockResolved(chain: Chain, k: Key, piece: Piece)
    requires Wellformed(chain) && Defined(chain, k) && piece in Definition(chain, k) && piece.Block?
    ensures Resolved(chain, k, piece).Some?
  {
    var t := chain[k.level];
    assert t in chain;
    if k.name.Some? {
      assert HasBlocks(t, t.blocks[k.name.value]);
    }
  }

  // ---- definitions that hold themselves ----

  ghost predicate Holds(chain: Chain, k: Key, inner: Key) {
    Defined(chain, k) && exists p :: p in Definition(chain, k) && Resolved(chain, k, p) == Some(inner)
  }

  ghost predicate IsPath(chain: Chain, p: seq<Key>) {
    p != [] && Defined(chain, p[0]) && forall i :: 0 <= i < |p| - 1 ==> Holds(chain, p[i], p[i + 1])
  }

  /** A definition rendered holds itself, however deep. */
  ghost predicate HoldsItself(chain: Chain) {
    chain != [] && exists p, i :: IsPath(chain, p) && p[0] == Root(chain) && 0 <= i < |p| - 1 && p[i] == p[|p| - 1]
  }

  ghost predicate Rendered(chain: Chain, k: Key) {
    chain != [] && exists p :: IsPath(chain, p) && p[0] == Root(chain) && p[|p| - 1] == k
  }

  type Ranks = map<Key, nat>

  ghost predicate RankedAt(chain: Chain, rank: Ranks, k: Key)
    requires k in rank
  {
    Defined(chain, k) && forall inner {:trigger Holds(chain, k, inner)} :: Holds(chain, k, inner) ==>
      inner in rank && rank[inner] < rank[k]
  }

  /** Every definition ranks above those it holds. */
  ghost predicate Ranked(chain: Chain, rank: Ranks) {
    forall k {:trigger RankedAt(chain, rank, k)} :: k in rank ==> RankedAt(chain, rank, k)
  }

  lemma {:induction false} PathDescends(chain: Chain, rank: Ranks, p: seq<Key>)
    requires Ranked(chain, rank) && IsPath(chain, p) && p[0] in rank
    ensures forall i :: 0 <= i < |p| ==> p[i] in rank
    ensures forall i, j :: 0 <= i < j < |p| ==> rank[p[j]] < rank[p[i]]
  {
    if |p| > 1 {
      var q := p[..|p| - 1];
      forall i | 0 <= i < |q| - 1 ensures Holds(chain, q[i], q[i + 1]) {
        assert Holds(chain, p[i], p[i + 1]);
      }
      PathDescends(chain, rank, q);
      assert Holds(chain, p[|p| - 2], p[|p| - 2 + 1]);
      assert q[|p| - 2] in rank && RankedAt(chain, rank, q[|p| - 2]);
      forall i | 0 <= i < |p| - 1 ensures p[i] in rank && rank[p[|p| - 1]] < rank[p[i]] {
        assert p[i] == q[i];
      }
    }
  }

  /** Ranked from the root on, no definition rendered holds itself. */
  lemma RankedHoldsNone(chain: Chain, rank: Ranks)
    requires chain != [] && Ranked(chain, rank) && Root(chain) in rank
    ensures !HoldsItself(chain)
  {
    forall p, i | IsPath(chain, p) && p[0] == Root(chain) && 0 <= i < |p| - 1 ensures p[i] != p[|p| - 1] {
      PathDescends(chain, rank, p);
    }
  }

  function Keys(chain: Chain): set<Key> {
    (set l | 0 <= l < |chain| :: Key(None, l)) + (set l, b | 0 <= l < |chain| && b in chain[l].blocks ::
      Key(Some(b), l))
  }

  lemma DefinedIsKey(chain: Chain, k: Key)
    ensures Defined(chain, k) <==> k in Keys(chain)
  {
  }

  // ---- the definitions being gone through ----

  /** A definition and how many of its pieces are gone through. */
  type Frame = (Key, nat)

  function KeysOf(stack: seq<Frame>): set<Key> {
    set f | f in stack :: f.0
  }

  function Remaining(chain: Chain, stack: seq<Frame>): nat
    requires AllFrames(chain, stack)
  {
    if stack == [] then 0
    else
      var f := stack[|stack| - 1];
      assert IsFrame(chain, f);
      1 + |Definition(chain, f.0)| - f.1 + Remaining(chain, stack[..|stack| - 1])
  }

  /** What piece `j` of `k` renders is in `done`. */
  ghost predicate PieceDone(chain: Chain, done: set<Key>, k: Key, j: nat)
    requires Defined(chain, k) && j < |Definition(chain, k)|
  {
    var r := Resolved(chain, k, Definition(chain, k)[j]);
    r.Some? ==> r.value in done
  }

  /** The frame's pieces are done, but for the one the next frame is for. */
  ghost predicate FrameOk(chain: Chain, done: set<Key>, stack: seq<Frame>, i: nat)
    requires i < |stack|
  {
    var (k, position) := stack[i];
    && Defined(chain, k) && position <= |Definition(chain, k)|
    && (if i + 1 < |stack| then
          && position > 0 && Resolved(chain, k, Definition(chain, k)[position - 1]) == Some(stack[i + 1].0)
          && forall j :: 0 <= j < position - 1 ==> PieceDone(chain, done, k, j)
        else forall j :: 0 <= j < position ==> PieceDone(chain, done, k, j))
  }

  ghost predicate StackOk(chain: Chain, done: set<Key>, stack: seq<Frame>) {
    && (stack != [] ==> chain != [] && stack[0].0 == Root(chain))
    && (forall i {:trigger FrameOk(chain, done, stack, i)} :: 0 <= i < |stack| ==> FrameOk(chain, done, stack, i))
    && (forall i, j :: 0 <= i < j < |stack| ==> stack[i].0 != stack[j].0)
    && (forall i :: 0 <= i < |stack| ==> stack[i].0 !in done)
  }

  /** The keys on the stack are a path from the root. */
  lemma StackIsPath(chain: Chain, done: set<Key>, stack: seq<Frame>) returns (p: seq<Key>)
    requires StackOk(chain, done, stack) && stack != []
    ensures IsPath(chain, p) && |p| == |stack| && p[0] == Root(chain) && forall i :: 0 <= i < |p| ==> p[i] == stack[i].0
  {
    p := seq(|stack|, i requires 0 <= i < |stack| => stack[i].0);
    assert FrameOk(chain, done, stack, 0);
    forall i | 0 <= i < |p| - 1 ensures Holds(chain, p[i], p[i + 1]) {
      assert FrameOk(chain, done, stack, i);
      var k := p[i];
      assert Definition(chain, k)[stack[i].1 - 1] in Definition(chain, k);
    }
  }

  /** Going past a piece that renders no definition, or one already done. */
  lemma PieceSeen(chain: Chain, done: set<Key>, less: seq<Frame>, k: Key, position: nat)
    requires StackOk(chain, done, less + [(k, position)])
    requires Defined(chain, k) && position < |Definition(chain, k)| && PieceDone(chain, done, k, position)
    ensures StackOk(chain, done, less + [(k, position + 1)])
  {
    var stack, more := less + [(k, position)], less + [(k, position + 1)];
    assert forall i :: 0 <= i < |more| ==> more[i].0 == stack[i].0;
    assert FrameOk(chain, done, stack, |less|);
    forall i | 0 <= i < |more| ensures FrameOk(chain, done, more, i) {
      assert FrameOk(chain, done, stack, i);
    }
  }

  /** Starting on the definition the next piece renders. */
  lemma Started(chain: Chain, done: set<Key>, less: seq<Frame>, k: Key, position: nat, inner: Key)
    requires StackOk(chain, done, less + [(k, position)])
    requires Defined(chain, k) && position < |Definition(chain, k)|
      && Resolved(chain, k, Definition(chain, k)[position]) == Some(inner)
    requires inner !in done && forall f :: f in less + [(k, position)] ==> f.0 != inner
    ensures StackOk(chain, done, less + [(k, position + 1)] + [(inner, 0)])
  {
    var stack, more := less + [(k, position)], less + [(k, position + 1)] + [(inner, 0)];
    assert FrameOk(chain, done, stack, |less|);
    forall i | 0 <= i < |more| ensures FrameOk(chain, done, more, i) {
      if i < |stack| {
        assert FrameOk(chain, done, stack, i);
      }
    }
    forall i | 0 <= i < |stack| ensures stack[i].0 != inner && more[i].0 == stack[i].0 {
      assert stack[i] in stack;
    }
  }

  /** The last frame is finished: its key is done. */
  lemma Ended(chain: Chain, done: set<Key>, less: seq<Frame>, key: Key, position: nat)
    requires StackOk(chain, done, less + [(key, position)])
    ensures StackOk(chain, done + {key}, less)
  {
    var stack := less + [(key, position)];
    assert forall i :: 0 <= i < |less| ==> less[i] == stack[i];
    assert stack[|less|].0 == key;
    forall i | 0 <= i < |less| ensures FrameOk(chain, done + {key}, less, i) {
      assert FrameOk(chain, done, stack, i);
      var (k, position) := stack[i];
      forall j | 0 <= j < if i + 1 < |less| then position - 1 else position
        ensures PieceDone(chain, done + {key}, k, j) {
        assert j < position - 1 ==> PieceDone(chain, done, k, j);
      }
    }
  }

  ghost predicate Counted(rank: Ranks) {
    forall k :: k in rank ==> rank[k] < |rank|
  }

  /** A finished definition ranks above all that is done. */
  lemma RankedMore(chain: Chain, rank: Ranks, less: seq<Frame>, key: Key, position: nat)
    requires Ranked(chain, rank) && StackOk(chain, rank.Keys, less + [(key, position)])
    requires Counted(rank) && Defined(chain, key) && position == |Definition(chain, key)|
    ensures key !in rank && Ranked(chain, rank[key := |rank|]) && Counted(rank[key := |rank|])
  {
    var stack := less + [(key, position)];
    var more := rank[key := |rank|];
    assert FrameOk(chain, rank.Keys, stack, |stack| - 1);
    assert |more| == |rank| + 1;
    forall k | k in more ensures RankedAt(chain, more, k) {
      if k != key {
        assert RankedAt(chain, rank, k);
      } else {
        forall inner | Holds(chain, key, inner) ensures inner in more && more[inner] < more[key] {
          var p :| p in Definition(chain, key) && Resolved(chain, key, p) == Some(inner);
          var j :| 0 <= j < |Definition(chain, key)| && Definition(chain, key)[j] == p;
          assert PieceDone(chain, rank.Keys, key, j);
        }
      }
    }
  }

  lemma {:induction false} RemainingSplit(chain: Chain, stack: seq<Frame>, f: Frame)
    requires AllFrames(chain, stack + [f])
    ensures AllFrames(chain, stack) && IsFrame(chain, f)
    ensures Remaining(chain, stack + [f]) == Remaining(chain, stack) + 1 + |Definition(chain, f.0)| - f.1
  {
    assert (stack + [f])[..|stack|] == stack;
    assert f in stack + [f];
    assert IsFrame(chain, f);
    forall g | g in stack ensures IsFrame(chain, g) {
      assert g in stack + [f];
    }
  }

  // ---- what a chain includes ----

  ghost predicate IncludesName(chain: Chain, k: Key, name: string) {
    Defined(chain, k) && Include(name) in Definition(chain, k)
  }

  /** Some definition the page renders includes `name`. */
  ghost predicate IsIncluded(chain: Chain, name: string) {
    exists k :: Rendered(chain, k) && IncludesName(chain, k, name)
  }

  ghost predicate FrameFound(chain: Chain, f: Frame, found: seq<string>) {
    Defined(chain, f.0) && f.1 <= |Definition(chain, f.0)| ==>
      forall j :: 0 <= j < f.1 && Definition(chain, f.0)[j].Include? ==> Definition(chain, f.0)[j].name in found
  }

  /** The names found are those of the definitions done, and of the pieces gone through. */
  ghost predicate FoundOk(chain: Chain, done: set<Key>, stack: seq<Frame>, found: seq<string>) {
    && (forall name {:trigger name in found} :: name in found ==> IsIncluded(chain, name))
    && (forall k, name {:trigger IncludesName(chain, k, name)} :: k in done && IncludesName(chain, k, name) ==>
      name in found)
    && (forall f {:trigger FrameFound(chain, f, found)} :: f in stack ==> FrameFound(chain, f, found))
  }

  /** All that is done or open is rendered, and nothing else was visited. */
  ghost predicate VisitedOk(chain: Chain, done: set<Key>, stack: seq<Frame>, visited: set<Key>) {
    && visited == done + KeysOf(stack)
    && forall k {:trigger Rendered(chain, k)} :: k in visited ==> Rendered(chain, k)
  }

  datatype Included = Unrenderable(name: Option<string>) | Names(names: seq<string>)

  lemma OpenIsRendered(chain: Chain, done: set<Key>, less: seq<Frame>, key: Key, position: nat, inner: Key)
    requires StackOk(chain, done, less + [(key, position)]) && Holds(chain, key, inner)
    ensures Rendered(chain, inner)
    ensures (exists f :: f in less + [(key, position)] && f.0 == inner) ==> HoldsItself(chain)
  {
    var stack := less + [(key, position)];
    var p := StackIsPath(chain, done, stack);
    var q := p + [inner];
    forall i | 0 <= i < |q| - 1 ensures Holds(chain, q[i], q[i + 1]) {
      assert i < |p| - 1 ==> Holds(chain, p[i], p[i + 1]);
    }
    assert IsPath(chain, q) && q[0] == Root(chain) && q[|q| - 1] == inner;
    if f :| f in stack && f.0 == inner {
      var i :| 0 <= i < |stack| && stack[i] == f;
      assert q[i] == q[|q| - 1];
    }
  }

  lemma TopHolds(chain: Chain, k: Key, position: nat, inner: Key)
    requires Defined(chain, k) && position < |Definition(chain, k)|
      && Resolved(chain, k, Definition(chain, k)[position]) == Some(inner)
    ensures Holds(chain, k, inner)
  {
    assert Definition(chain, k)[position] in Definition(chain, k);
  }

  lemma KeysMore(stack: seq<Frame>, f: Frame)
    ensures KeysOf(stack + [f]) == KeysOf(stack) + {f.0}
  {
    forall k ensures k in KeysOf(stack + [f]) <==> k in KeysOf(stack) + {f.0} {
      if k == f.0 {
        assert f in stack + [f];
      }
      if k in KeysOf(stack) {
        var g :| g in stack && g.0 == k;
        assert g in stack + [f];
      }
    }
  }

  /** Going past a piece. */
  lemma FoundPiece(chain: Chain, done: set<Key>, less: seq<Frame>, k: Key, position: nat, found: seq<string>,
      more: seq<string>)
    requires FoundOk(chain, done, less + [(k, position)], found) && Rendered(chain, k)
    requires Defined(chain, k) && position < |Definition(chain, k)|
    requires more == if Definition(chain, k)[position].Include? then found + [Definition(chain, k)[position].name]
      else found
    ensures FoundOk(chain, done, less + [(k, position + 1)], more)
  {
    hide Rendered, Definition, Defined;
    var piece := Definition(chain, k)[position];
    assert piece in Definition(chain, k);
    assert (k, position) in less + [(k, position)];
    assert FrameFound(chain, (k, position), found);
    forall name | name in more ensures IsIncluded(chain, name) {
      if name !in found {
        assert IncludesName(chain, k, name);
      }
    }
    assert FrameFound(chain, (k, position + 1), more);
    forall f | f in less + [(k, position + 1)] ensures FrameFound(chain, f, more) {
      if f in less {
        assert f in less + [(k, position)] && FrameFound(chain, f, found);
      }
    }
  }

  lemma FoundStart(chain: Chain, done: set<Key>, stack: seq<Frame>, inner: Key, found: seq<string>)
    requires FoundOk(chain, done, stack, found)
    ensures FoundOk(chain, done, stack + [(inner, 0)], found)
  {
  }

  lemma FoundEnd(chain: Chain, done: set<Key>, less: seq<Frame>, k: Key, found: seq<string>)
    requires Defined(chain, k) && FoundOk(chain, done, less + [(k, |Definition(chain, k)|)], found)
    ensures FoundOk(chain, done + {k}, less, found)
  {
    var stack := less + [(k, |Definition(chain, k)|)];
    assert (k, |Definition(chain, k)|) in stack && FrameFound(chain, (k, |Definition(chain, k)|), found);
    forall name | IncludesName(chain, k, name) ensures name in found {
      var j :| 0 <= j < |Definition(chain, k)| && Definition(chain, k)[j] == Include(name);
      assert Definition(chain, k)[j].name in found;
    }
    forall f | f in less ensures FrameFound(chain, f, found) {
      assert f in stack;
    }
  }

  /** What holds whenever the last frame is looked at. */
  ghost predicate Going(chain: Chain, rank: Ranks, stack: seq<Frame>, visited: set<Key>, found: seq<string>)
    requires chain != []
  {
    && StackOk(chain, rank.Keys, stack) && Ranked(chain, rank) && Counted(rank)
    && VisitedOk(chain, rank.Keys, stack, visited) && Root(chain) in visited
    && FoundOk(chain, rank.Keys, stack, found)
    && AllFrames(chain, stack)
  }

  ghost predicate IsFrame(chain: Chain, f: Frame) {
    Defined(chain, f.0) && f.1 <= |Definition(chain, f.0)|
  }

  ghost predicate AllFrames(chain: Chain, stack: seq<Frame>) {
    forall f {:trigger IsFrame(chain, f)} :: f in stack ==> IsFrame(chain, f)
  }

  lemma FramesMore(chain: Chain, less: seq<Frame>, f: Frame, g: Frame)
    requires AllFrames(chain, less + [f]) && IsFrame(chain, g)
    ensures AllFrames(chain, less) && AllFrames(chain, less + [g])
  {
    forall h | h in less ensures IsFrame(chain, h) {
      assert h in less + [f];
    }
  }

  lemma FramesOneMore(chain: Chain, stack: seq<Frame>, f: Frame)
    requires AllFrames(chain, stack) && IsFrame(chain, f)
    ensures AllFrames(chain, stack + [f])
  {
  }

  lemma GoingTop(chain: Chain, rank: Ranks, less: seq<Frame>, key: Key, position: nat, visited: set<Key>,
      found: seq<string>)
    requires chain != [] && Going(chain, rank, less + [(key, position)], visited, found)
    ensures Defined(chain, key) && position <= |Definition(chain, key)| && key in visited && Rendered(chain, key)
  {
    assert IsFrame(chain, (key, position)) by {
      assert (key, position) in less + [(key, position)];
    }
    KeysMore(less, (key, position));
  }

  lemma VisitedEnds(chain: Chain, done: set<Key>, less: seq<Frame>, key: Key, position: nat, visited: set<Key>)
    requires VisitedOk(chain, done, less + [(key, position)], visited)
    ensures VisitedOk(chain, done + {key}, less, visited)
  {
    hide KeysOf, Rendered;
    KeysMore(less, (key, position));
  }

  lemma VisitedPast(chain: Chain, done: set<Key>, less: seq<Frame>, key: Key, position: nat, next: nat,
      visited: set<Key>)
    requires VisitedOk(chain, done, less + [(key, position)], visited)
    ensures VisitedOk(chain, done, less + [(key, next)], visited)
  {
    hide KeysOf, Rendered;
    KeysMore(less, (key, position));
    KeysMore(less, (key, next));
  }

  lemma VisitedInto(chain: Chain, done: set<Key>, stack: seq<Frame>, inner: Key, visited: set<Key>)
    requires VisitedOk(chain, done, stack, visited) && Rendered(chain, inner)
    ensures VisitedOk(chain, done, stack + [(inner, 0)], visited + {inner})
  {
    hide KeysOf, Rendered;
    KeysMore(stack, (inner, 0));
  }

  /** The last definition is gone through. */
  lemma GoingEnds(chain: Chain, rank: Ranks, less: seq<Frame>, key: Key, position: nat, visited: set<Key>,
      found: seq<string>)
    requires chain != [] && Going(chain, rank, less + [(key, position)], visited, found)
    requires Defined(chain, key) && position == |Definition(chain, key)|
    ensures Going(chain, rank[key := |rank|], less, visited, found)
    ensures AllFrames(chain, less + [(key, position)])
    ensures Remaining(chain, less) < Remaining(chain, less + [(key, position)])
  {
    var stack := less + [(key, position)];
    hide StackOk, Ranked, FoundOk, Rendered, Resolved, VisitedOk, AllFrames, Remaining, Counted, KeysOf, Definition,
      Defined;
    RemainingSplit(chain, less, (key, position));
    VisitedEnds(chain, rank.Keys, less, key, position, visited);
    RankedMore(chain, rank, less, key, position);
    Ended(chain, rank.Keys, less, key, position);
    FoundEnd(chain, rank.Keys, less, key, found);
    assert rank[key := |rank|].Keys == rank.Keys + {key};
  }

  function Noted(found: seq<string>, piece: Piece): seq<string> {
    if piece.Include? then found + [piece.name] else found
  }

  /** The next piece renders nothing, or what is done. */
  lemma GoingPast(chain: Chain, rank: Ranks, less: seq<Frame>, key: Key, position: nat, visited: set<Key>,
      found: seq<string>)
    requires chain != [] && Going(chain, rank, less + [(key, position)], visited, found)
    requires Defined(chain, key) && position < |Definition(chain, key)|
    requires var inner := Resolved(chain, key, Definition(chain, key)[position]);
      inner.Some? ==> inner.value in visited && !exists f :: f in less + [(key, position + 1)] && f.0 == inner.value
    ensures Going(chain, rank, less + [(key, position + 1)], visited, Noted(found, Definition(chain, key)[position]))
    ensures AllFrames(chain, less + [(key, position)])
    ensures Remaining(chain, less + [(key, position + 1)]) < Remaining(chain, less + [(key, position)])
  {
    var stack := less + [(key, position)];
    GoingTop(chain, rank, less, key, position, visited, found);
    assert visited == rank.Keys + KeysOf(stack);
    hide StackOk, Ranked, FoundOk, Rendered, Resolved, VisitedOk, AllFrames, Remaining, Counted, KeysOf, Definition,
      Defined;
    AlreadyDone(chain, rank.Keys, stack, visited, less, key, position);
    PieceSeen(chain, rank.Keys, less, key, position);
    FoundPiece(chain, rank.Keys, less, key, position, found, Noted(found, Definition(chain, key)[position]));
    VisitedPast(chain, rank.Keys, less, key, position, position + 1, visited);
    assert IsFrame(chain, (key, position + 1));
    FramesMore(chain, less, (key, position), (key, position + 1));
    RemainingSplit(chain, less, (key, position));
    RemainingSplit(chain, less, (key, position + 1));
  }

  /** The next piece renders a definition not visited yet. */
  lemma GoingInto(chain: Chain, rank: Ranks, less: seq<Frame>, key: Key, position: nat, visited: set<Key>,
      found: seq<string>, inner: Key)
    requires chain != [] && Going(chain, rank, less + [(key, position)], visited, found)
    requires Defined(chain, key) && position < |Definition(chain, key)|
    requires Resolved(chain, key, Definition(chain, key)[position]) == Some(inner) && inner !in visited
    ensures Going(chain, rank, less + [(key, position + 1)] + [(inner, 0)], visited + {inner}, found)
    ensures Keys(chain) - (visited + {inner}) < Keys(chain) - visited
  {
    var stack := less + [(key, position)];
    GoingTop(chain, rank, less, key, position, visited, found);
    TopHolds(chain, key, position, inner);
    assert !Definition(chain, key)[position].Include?;
    DefinedIsKey(chain, inner);
    assert visited == rank.Keys + KeysOf(stack);
    hide StackOk, Ranked, FoundOk, Rendered, Resolved, Keys, VisitedOk, AllFrames, Remaining, Counted, KeysOf,
      Definition;
    OpenIsRendered(chain, rank.Keys, less, key, position, inner);
    NotOpen(stack, inner, visited, rank.Keys);
    Started(chain, rank.Keys, less, key, position, inner);
    FoundPiece(chain, rank.Keys, less, key, position, found, found);
    FoundStart(chain, rank.Keys, less + [(key, position + 1)], inner, found);
    VisitedPast(chain, rank.Keys, less, key, position, position + 1, visited);
    VisitedInto(chain, rank.Keys, less + [(key, position + 1)], inner, visited);
    assert IsFrame(chain, (key, position + 1)) && IsFrame(chain, (inner, 0));
    FramesMore(chain, less, (key, position), (key, position + 1));
    FramesOneMore(chain, less + [(key, position + 1)], (inner, 0));
  }

  /** The next piece renders a definition that is open. */
  lemma GoingRound(chain: Chain, rank: Ranks, less: seq<Frame>, key: Key, position: nat, visited: set<Key>,
      found: seq<string>, inner: Key)
    requires chain != [] && Going(chain, rank, less + [(key, position)], visited, found)
    requires Defined(chain, key) && position < |Definition(chain, key)|
    requires Resolved(chain, key, Definition(chain, key)[position]) == Some(inner)
    requires exists f :: f in less + [(key, position + 1)] && f.0 == inner
    ensures HoldsItself(chain)
  {
    var stack := less + [(key, position)];
    TopHolds(chain, key, position, inner);
    hide StackOk, HoldsItself, Holds;
    SameKeys(less, (key, position), (key, position + 1), inner);
    OpenIsRendered(chain, rank.Keys, less, key, position, inner);
  }

  /** The names the page of a chain includes, each definition visited once; refused exactly when
      a definition that is rendered holds itself. */
  method IncludesOf(chain: Chain) returns (r: Included, ghost rank: Ranks)
    requires Wellformed(chain)
    ensures r.Unrenderable? <==> HoldsItself(chain)
    ensures r.Names? ==> forall name :: name in r.names <==> IsIncluded(chain, name)
    ensures r.Names? ==> Ranked(chain, rank) && Root(chain) in rank
  {
    hide HoldsItself, Going, Rendered, Resolved, IncludesName, Ranked, Keys;
    var found: seq<string>, visited, stack: seq<Frame> := [], {Root(chain)}, [(Root(chain), 0)];
    rank := map[];
    Begun(chain);
    GoingFrames(chain, rank, stack, visited, found);
    while stack != []
      invariant Going(chain, rank, stack, visited, found)
      invariant AllFrames(chain, stack)
      decreases Keys(chain) - visited, Remaining(chain, stack)
    {
      var (key, position) := stack[|stack| - 1];
      var less := stack[..|stack| - 1];
      assert stack == less + [(key, position)];
      GoingTop(chain, rank, less, key, position, visited, found);
      if position == |Definition(chain, key)| {
        GoingEnds(chain, rank, less, key, position, visited, found);
        rank := rank[key := |rank|];
        stack := less;
      } else {
        var piece := Definition(chain, key)[position];
        stack := less + [(key, position + 1)];
        var inner := Resolved(chain, key, piece);
        if piece.Block? {
          BlockResolved(chain, key, piece);
          assert inner.Some?;
        }
        if inner.Some? && exists f :: f in stack && f.0 == inner.value {
          GoingRound(chain, rank, less, key, position, visited, found, inner.value);
          return Unrenderable(inner.value.name), rank;
        } else if inner.Some? && inner.value !in visited {
          GoingInto(chain, rank, less, key, position, visited, found, inner.value);
          visited := visited + {inner.value};
          stack := stack + [(inner.value, 0)];
        } else {
          GoingPast(chain, rank, less, key, position, visited, found);
          found := Noted(found, piece);
        }
      }
      GoingFrames(chain, rank, stack, visited, found);
    }
    GoingDone(chain, rank, visited, found);
    r := Names(found);
  }

  lemma GoingFrames(chain: Chain, rank: Ranks, stack: seq<Frame>, visited: set<Key>, found: seq<string>)
    requires chain != [] && Going(chain, rank, stack, visited, found)
    ensures AllFrames(chain, stack)
  {
  }

  lemma GoingDone(chain: Chain, rank: Ranks, visited: set<Key>, found: seq<string>)
    requires chain != [] && Going(chain, rank, [], visited, found)
    ensures !HoldsItself(chain) && Ranked(chain, rank) && Root(chain) in rank
    ensures forall name :: name in found <==> IsIncluded(chain, name)
  {
    assert KeysOf([]) == {};
    RankedHoldsNone(chain, rank);
    AllRendered(chain, rank, found);
  }

  lemma Begun(chain: Chain)
    requires chain != []
    ensures Going(chain, map[], [(Root(chain), 0)], {Root(chain)}, [])
  {
    var root := Root(chain);
    var none: Ranks := map[];
    assert none.Keys == {};
    assert IsPath(chain, [root]);
    KeysMore([], (root, 0));
    assert [] + [(root, 0)] == [(root, 0)];
    assert KeysOf([]) == {};
  }

  lemma SameKeys(less: seq<Frame>, f: Frame, g: Frame, k: Key)
    requires f.0 == g.0
    ensures (exists h :: h in less + [g] && h.0 == k) <==> exists h :: h in less + [f] && h.0 == k
  {
    if h :| h in less + [g] && h.0 == k {
      assert (if h in less then h else f) in less + [f];
    }
    if h :| h in less + [f] && h.0 == k {
      assert (if h in less then h else g) in less + [g];
    }
  }

  lemma NotOpen(stack: seq<Frame>, k: Key, visited: set<Key>, done: set<Key>)
    requires visited == done + KeysOf(stack) && k !in visited
    ensures k !in done && forall f :: f in stack ==> f.0 != k
  {
  }

  lemma AlreadyDone(chain: Chain, done: set<Key>, stack: seq<Frame>, visited: set<Key>, less: seq<Frame>, key: Key,
      position: nat)
    requires visited == done + KeysOf(stack) && stack == less + [(key, position)] && Defined(chain, key)
      && position < |Definition(chain, key)|
    requires var inner := Resolved(chain, key, Definition(chain, key)[position]);
      inner.Some? ==> inner.value in visited && !exists f :: f in less + [(key, position + 1)] && f.0 == inner.value
    ensures PieceDone(chain, done, key, position)
  {
    var inner := Resolved(chain, key, Definition(chain, key)[position]);
    if inner.Some? {
      SameKeys(less, (key, position), (key, position + 1), inner.value);
    }
  }

  lemma AllRendered(chain: Chain, rank: Ranks, found: seq<string>)
    requires chain != [] && Ranked(chain, rank) && Root(chain) in rank && FoundOk(chain, rank.Keys, [], found)
    ensures forall name :: name in found <==> IsIncluded(chain, name)
  {
    forall name, k | Rendered(chain, k) && IncludesName(chain, k, name) ensures name in found {
      var p :| IsPath(chain, p) && p[0] == Root(chain) && p[|p| - 1] == k;
      PathDescends(chain, rank, p);
    }
  }

  // ---- putting the page together ----

  /** What the first `n` pieces of a definition render to, expanded recursively; nothing if an
      include cannot be put together. */
  ghost function Expanded(chain: Chain, included: string -> Option<string>, rank: Ranks, k: Key, n: nat): Option<string>
    requires Ranked(chain, rank) && k in rank && Defined(chain, k) && n <= |Definition(chain, k)|
    decreases rank[k], n
  {
    if n == 0 then Some("")
    else
      var before := Expanded(chain, included, rank, k, n - 1);
      var piece := Definition(chain, k)[n - 1];
      var inner := Resolved(chain, k, piece);
      var text :=
        if piece.Text? then Some(piece.text)
        else if piece.Include? then included(piece.name)
        else if inner.None? then Some("")
        else
          assert Holds(chain, k, inner.value) && RankedAt(chain, rank, k);
          assert RankedAt(chain, rank, inner.value);
          Expanded(chain, included, rank, inner.value, |Definition(chain, inner.value)|);
      if before.Some? && text.Some? then Some(before.value + text.value) else None
  }

  ghost function Expansion(chain: Chain, included: string -> Option<string>, rank: Ranks, k: Key): Option<string>
    requires Ranked(chain, rank) && k in rank
  {
    assert RankedAt(chain, rank, k);
    Expanded(chain, included, rank, k, |Definition(chain, k)|)
  }

  /** The expansion does not depend on the ranks that show it ends. */
  lemma {:induction false} ExpandedOneWay(chain: Chain, included: string -> Option<string>, rank: Ranks, other: Ranks,
      k: Key, n: nat)
    requires Ranked(chain, rank) && Ranked(chain, other) && k in rank && k in other && Defined(chain, k)
      && n <= |Definition(chain, k)|
    ensures Expanded(chain, included, rank, k, n) == Expanded(chain, included, other, k, n)
    decreases rank[k], n
  {
    if n > 0 {
      ExpandedOneWay(chain, included, rank, other, k, n - 1);
      var piece := Definition(chain, k)[n - 1];
      var inner := Resolved(chain, k, piece);
      if inner.Some? {
        assert Holds(chain, k, inner.value) && RankedAt(chain, rank, k) && RankedAt(chain, other, k);
        assert RankedAt(chain, rank, inner.value);
        ExpandedOneWay(chain, included, rank, other, inner.value, |Definition(chain, inner.value)|);
      }
    }
  }

  /** Nor does the page: it is the same whatever ranks the definitions. */
  lemma OnePage(chain: Chain, included: string -> Option<string>, rank: Ranks, other: Ranks)
    requires chain != [] && Ranked(chain, rank) && Ranked(chain, other) && Root(chain) in rank && Root(chain) in other
    ensures Expansion(chain, included, rank, Root(chain)) == Expansion(chain, included, other, Root(chain))
  {
    ExpandedOneWay(chain, included, rank, other, Root(chain), |Definition(chain, Root(chain))|);
  }

  /** A definition being put together: how many of its pieces are, and what they render to. */
  datatype Part = Part(key: Key, position: nat, text: string, size: nat)

  ghost predicate PartIs(chain: Chain, included: string -> Option<string>, rank: Ranks, limit: nat, p: Part, n: nat) {
    && Ranked(chain, rank) && p.key in rank && Defined(chain, p.key) && n <= p.position <= |Definition(chain, p.key)|
    && Expanded(chain, included, rank, p.key, n) == Some(p.text) && p.size == |p.text| <= limit
  }

  /** The part waits for the definition `inner`. */
  ghost predicate PartWaits(chain: Chain, included: string -> Option<string>, rank: Ranks, limit: nat, p: Part,
      inner: Key) {
    && p.position > 0 && PartIs(chain, included, rank, limit, p, p.position - 1)
    && Resolved(chain, p.key, Definition(chain, p.key)[p.position - 1]) == Some(inner)
    && inner in rank && rank[inner] < rank[p.key]
  }

  ghost predicate MadeOk(chain: Chain, included: string -> Option<string>, rank: Ranks, limit: nat,
      made: map<Key, string>) {
    Ranked(chain, rank) && forall k :: k in made ==>
      k in rank && Expansion(chain, included, rank, k) == Some(made[k]) && |made[k]| <= limit
  }

  /** The expansion fails, or is over the limit. */
  ghost predicate Over(chain: Chain, included: string -> Option<string>, rank: Ranks, limit: nat, k: Key, n: nat)
    requires Ranked(chain, rank) && k in rank && Defined(chain, k) && n <= |Definition(chain, k)|
  {
    var e := Expanded(chain, included, rank, k, n);
    e.None? || |e.value| > limit
  }

  lemma {:induction false} OverLater(chain: Chain, included: string -> Option<string>, rank: Ranks, limit: nat, k: Key,
      n: nat, m: nat)
    requires Ranked(chain, rank) && k in rank && Defined(chain, k) && n <= m <= |Definition(chain, k)|
    requires Over(chain, included, rank, limit, k, n)
    ensures Over(chain, included, rank, limit, k, m)
  {
    if n < m {
      OverLater(chain, included, rank, limit, k, n, m - 1);
    }
  }

  /** What the piece a part is at renders to. */
  ghost predicate Renders(chain: Chain, included: string -> Option<string>, rank: Ranks, k: Key, position: nat,
      text: string)
    requires Defined(chain, k) && position < |Definition(chain, k)|
  {
    var piece := Definition(chain, k)[position];
    var inner := Resolved(chain, k, piece);
    if piece.Text? then text == piece.text
    else if piece.Include? then included(piece.name) == Some(text)
    else if inner.None? then text == ""
    else Ranked(chain, rank) && inner.value in rank && Expansion(chain, included, rank, inner.value) == Some(text)
  }

  lemma Appended(chain: Chain, included: string -> Option<string>, rank: Ranks, k: Key, n: nat, before: string,
      text: string)
    requires Ranked(chain, rank) && k in rank && Defined(chain, k) && n < |Definition(chain, k)|
    requires Expanded(chain, included, rank, k, n) == Some(before) && Renders(chain, included, rank, k, n, text)
    ensures Expanded(chain, included, rank, k, n + 1) == Some(before + text)
  {
  }

  /** All parts but the last wait, each for the next. */
  ghost predicate Below(chain: Chain, included: string -> Option<string>, rank: Ranks, limit: nat, less: seq<Part>,
      key: Key) {
    && chain != [] && (if less == [] then key else less[0].key) == Root(chain)
    && forall i {:trigger less[i]} :: 0 <= i < |less| ==>
      PartWaits(chain, included, rank, limit, less[i], if i + 1 < |less| then less[i + 1].key else key)
  }

  ghost predicate PartsOk(chain: Chain, included: string -> Option<string>, rank: Ranks, limit: nat, less: seq<Part>,
      p: Part) {
    Below(chain, included, rank, limit, less, p.key) && PartIs(chain, included, rank, limit, p, p.position)
  }

  function Grown(p: Part, text: string): Part {
    Part(p.key, p.position, p.text + text, p.size + |text|)
  }

  /** The piece before the part's position is added to it. */
  lemma PieceFits(chain: Chain, included: string -> Option<string>, rank: Ranks, limit: nat, p: Part, text: string)
    requires p.position > 0 && PartIs(chain, included, rank, limit, p, p.position - 1)
      && Renders(chain, included, rank, p.key, p.position - 1, text)
    requires p.size + |text| <= limit
    ensures PartIs(chain, included, rank, limit, Grown(p, text), p.position)
  {
    Appended(chain, included, rank, p.key, p.position - 1, p.text, text);
    hide Expanded, Renders, Ranked, Resolved, Definition;
    assert |p.text + text| == |p.text| + |text|;
  }

  /** The piece takes the part, and so the page, over the limit. */
  lemma PieceOver(chain: Chain, included: string -> Option<string>, rank: Ranks, limit: nat, less: seq<Part>, p: Part,
      text: string)
    requires Below(chain, included, rank, limit, less, p.key)
    requires p.position > 0 && PartIs(chain, included, rank, limit, p, p.position - 1)
      && Renders(chain, included, rank, p.key, p.position - 1, text)
    requires p.size + |text| > limit
    ensures PageOver(chain, included, rank, limit)
  {
    NowOver(chain, included, rank, limit, p, text);
    hide *;
    BelowOver(chain, included, rank, limit, less, p.key, p.position);
  }

  lemma NowOver(chain: Chain, included: string -> Option<string>, rank: Ranks, limit: nat, p: Part, text: string)
    requires p.position > 0 && PartIs(chain, included, rank, limit, p, p.position - 1)
      && Renders(chain, included, rank, p.key, p.position - 1, text)
    requires p.size + |text| > limit
    ensures Ranked(chain, rank) && p.key in rank && Defined(chain, p.key) && p.position <= |Definition(chain, p.key)|
    ensures Over(chain, included, rank, limit, p.key, p.position)
  {
    Appended(chain, included, rank, p.key, p.position - 1, p.text, text);
    hide Expanded, Renders, Ranked, Resolved;
    assert |p.text + text| == |p.text| + |text|;
  }

  /** An include that cannot be put together leaves no page. */
  lemma IncludeFails(chain: Chain, included: string -> Option<string>, rank: Ranks, limit: nat, less: seq<Part>,
      p: Part)
    requires PartsOk(chain, included, rank, limit, less, p) && p.position < |Definition(chain, p.key)|
    requires var piece := Definition(chain, p.key)[p.position];
      piece.Include? && included(piece.name).None?
    ensures PageOver(chain, included, rank, limit)
  {
    FailsNext(chain, included, rank, limit, p);
    var k, n := p.key, p.position + 1;
    assert Below(chain, included, rank, limit, less, k);
    hide *;
    BelowOver(chain, included, rank, limit, less, k, n);
  }

  lemma FailsNext(chain: Chain, included: string -> Option<string>, rank: Ranks, limit: nat, p: Part)
    requires PartIs(chain, included, rank, limit, p, p.position) && p.position < |Definition(chain, p.key)|
    requires var piece := Definition(chain, p.key)[p.position];
      piece.Include? && included(piece.name).None?
    ensures Ranked(chain, rank) && p.key in rank && Defined(chain, p.key)
    ensures Over(chain, included, rank, limit, p.key, p.position + 1)
  {
    hide Ranked, Resolved;
  }

  /** Parts that wait still do below one more that waits. */
  lemma BelowMore(
    chain: Chain, included: string -> Option<string>, rank: Ranks, limit: nat, less: seq<Part>, q: Part, inner: Key)
    requires Below(chain, included, rank, limit, less, q.key) && PartWaits(chain, included, rank, limit, q, inner)
    ensures Below(chain, included, rank, limit, less + [q], inner)
  {
    hide PartWaits, Root;
    var more := less + [q];
    forall i | 0 <= i < |more|
      ensures PartWaits(chain, included, rank, limit, more[i], if i + 1 < |more| then more[i + 1].key else inner)
    {
      if i < |less| {
        assert more[i] == less[i];
      }
    }
  }

  /** The parts below the last that waits, and that it waits. */
  lemma BelowRest(chain: Chain, included: string -> Option<string>, rank: Ranks, limit: nat, less: seq<Part>, key: Key)
    requires Below(chain, included, rank, limit, less, key) && less != []
    ensures var rest, parent := less[..|less| - 1], less[|less| - 1];
      Below(chain, included, rank, limit, rest, parent.key) && PartWaits(chain, included, rank, limit, parent, key)
  {
    hide PartWaits, Root;
    var rest, parent := less[..|less| - 1], less[|less| - 1];
    assert PartWaits(chain, included, rank, limit, parent, key);
    forall i | 0 <= i < |rest|
      ensures PartWaits(chain, included, rank, limit, rest[i], if i + 1 < |rest| then rest[i + 1].key else parent.key)
    {
      assert PartWaits(chain, included, rank, limit, less[i], less[i + 1].key);
    }
  }

  /** A definition not made yet is started on. */
  lemma PartStarted(
    chain: Chain, included: string -> Option<string>, rank: Ranks, limit: nat, less: seq<Part>, p: Part, inner: Key)
    requires PartsOk(chain, included, rank, limit, less, p) && p.position < |Definition(chain, p.key)|
    requires Resolved(chain, p.key, Definition(chain, p.key)[p.position]) == Some(inner)
    ensures PartsOk(chain, included, rank, limit, less + [p.(position := p.position + 1)], Part(inner, 0, "", 0))
    ensures inner in rank && rank[inner] < rank[p.key]
  {
    var q := p.(position := p.position + 1);
    InnerRanked(chain, included, rank, limit, p, inner);
    hide Expanded, Ranked, Resolved, Root, Below;
    BelowMore(chain, included, rank, limit, less, q, inner);
  }

  lemma InnerRanked(chain: Chain, included: string -> Option<string>, rank: Ranks, limit: nat, p: Part, inner: Key)
    requires PartIs(chain, included, rank, limit, p, p.position) && p.position < |Definition(chain, p.key)|
    requires Resolved(chain, p.key, Definition(chain, p.key)[p.position]) == Some(inner)
    ensures inner in rank && rank[inner] < rank[p.key]
    ensures PartWaits(chain, included, rank, limit, p.(position := p.position + 1), inner)
    ensures PartIs(chain, included, rank, limit, Part(inner, 0, "", 0), 0)
  {
    assert RankedAt(chain, rank, p.key);
    TopHolds(chain, p.key, p.position, inner);
    assert RankedAt(chain, rank, inner);
    hide Resolved, Ranked;
  }

  /** What is finished is what the part that waits for it renders next. */
  lemma WaitedFor(
    chain: Chain, included: string -> Option<string>, rank: Ranks, limit: nat, parent: Part, key: Key, text: string)
    requires PartWaits(chain, included, rank, limit, parent, key)
    requires Ranked(chain, rank) && key in rank && Expansion(chain, included, rank, key) == Some(text)
    ensures parent.position > 0 && PartIs(chain, included, rank, limit, parent, parent.position - 1)
    ensures Renders(chain, included, rank, parent.key, parent.position - 1, text)
  {
    hide Expansion, Expanded, Ranked, FirstDefining;
  }

  /** A finished part is what the one that waits for it renders next. */
  lemma PartEnded(chain: Chain, included: string -> Option<string>, rank: Ranks, limit: nat, less: seq<Part>, p: Part)
    requires PartsOk(chain, included, rank, limit, less, p) && p.position == |Definition(chain, p.key)|
    ensures Expansion(chain, included, rank, p.key) == Some(p.text) && |p.text| <= limit
    ensures less == [] ==> p.key == Root(chain)
    ensures less != [] ==> var rest, parent := less[..|less| - 1], less[|less| - 1];
      && Below(chain, included, rank, limit, rest, parent.key) && parent.position > 0
      && PartIs(chain, included, rank, limit, parent, parent.position - 1)
      && Renders(chain, included, rank, parent.key, parent.position - 1, p.text)
  {
    hide Expanded, Ranked, PartWaits, Resolved, Renders;
    if less != [] {
      BelowRest(chain, included, rank, limit, less, p.key);
      WaitedFor(chain, included, rank, limit, less[|less| - 1], p.key, p.text);
    }
  }

  ghost predicate PageOver(chain: Chain, included: string -> Option<string>, rank: Ranks, limit: nat) {
    && chain != [] && Ranked(chain, rank) && Root(chain) in rank
    && var e := Expansion(chain, included, rank, Root(chain)); e.None? || |e.value| > limit
  }

  /** What is over in a definition is over in the part that waits for it. */
  lemma OverAbove(chain: Chain, included: string -> Option<string>, rank: Ranks, limit: nat, parent: Part, k: Key)
    requires PartWaits(chain, included, rank, limit, parent, k)
    requires Ranked(chain, rank) && k in rank && Defined(chain, k)
    requires Over(chain, included, rank, limit, k, |Definition(chain, k)|)
    ensures parent.key in rank && Defined(chain, parent.key) && parent.position <= |Definition(chain, parent.key)|
    ensures Over(chain, included, rank, limit, parent.key, parent.position)
  {
    hide Ranked, FirstDefining;
  }

  lemma PageIsOver(chain: Chain, included: string -> Option<string>, rank: Ranks, limit: nat, k: Key)
    requires chain != [] && k == Root(chain) && Ranked(chain, rank) && k in rank && Defined(chain, k)
    requires Over(chain, included, rank, limit, k, |Definition(chain, k)|)
    ensures PageOver(chain, included, rank, limit)
  {
    hide Expanded, Ranked;
  }

  lemma {:induction false} BelowOver(
    chain: Chain, included: string -> Option<string>, rank: Ranks, limit: nat, less: seq<Part>, k: Key, n: nat)
    requires Below(chain, included, rank, limit, less, k)
    requires Ranked(chain, rank) && k in rank && Defined(chain, k) && n <= |Definition(chain, k)|
    requires Over(chain, included, rank, limit, k, n)
    ensures PageOver(chain, included, rank, limit)
    decreases |less|
  {
    hide Ranked, Over, PageOver, PartWaits, Definition, Defined, Root;
    OverLater(chain, included, rank, limit, k, n, |Definition(chain, k)|);
    if less == [] {
      PageIsOver(chain, included, rank, limit, k);
    } else {
      var rest, parent := less[..|less| - 1], less[|less| - 1];
      BelowRest(chain, included, rank, limit, less, k);
      OverAbove(chain, included, rank, limit, parent, k);
      hide Below;
      BelowOver(chain, included, rank, limit, rest, parent.key, parent.position);
    }
  }

  ghost predicate Unmade(rank: Ranks, made: map<Key, string>, less: seq<Part>, p: Part) {
    && (forall q :: q in less ==> q.key in rank && q.key !in made)
    && p.key in rank && p.key !in made
    && (forall i, j :: 0 <= i < j < |less| ==> rank[less[j].key] < rank[less[i].key])
    && (forall q :: q in less ==> rank[p.key] < rank[q.key])
  }

  lemma UnmadeStart(rank: Ranks, made: map<Key, string>, less: seq<Part>, p: Part, q: Part, inner: Part)
    requires Unmade(rank, made, less, p) && q.key == p.key && inner.key in rank && inner.key !in made
      && rank[inner.key] < rank[p.key]
    ensures Unmade(rank, made, less + [q], inner)
  {
  }

  lemma UnmadeEnd(rank: Ranks, made: map<Key, string>, less: seq<Part>, p: Part, text: string, q: Part)
    requires Unmade(rank, made, less, p) && less != [] && q.key == less[|less| - 1].key
    ensures Unmade(rank, made[p.key := text], less[..|less| - 1], q)
  {
    var rest := less[..|less| - 1];
    forall x | x in rest ensures x in less && rank[q.key] < rank[x.key] {
      var i :| 0 <= i < |rest| && rest[i] == x;
      assert less[i] == x;
    }
    assert less[|less| - 1] in less;
  }

  /** The page of a chain none of whose definitions holds itself, each definition put together
      once: its expansion, unless an include fails or the page goes over the limit. */
  method Markup(chain: Chain, included: string -> Option<string>, limit: nat, ghost rank: Ranks)
      returns (page: Option<string>)
    requires Wellformed(chain) && Ranked(chain, rank) && Root(chain) in rank
    ensures page == var e := Expansion(chain, included, rank, Root(chain)); if e.Some? && |e.value| <= limit then e
      else None
  {
    hide Expanded, Renders, Below, Ranked, Resolved, Unmade, PartIs, Wellformed, MadeOk;
    var made: map<Key, string> := map[];
    var less: seq<Part>, top := [], Part(Root(chain), 0, "", 0);
    RootStarts(chain, included, rank, limit, top);
    while true
      invariant PartsOk(chain, included, rank, limit, less, top) && MadeOk(chain, included, rank, limit, made)
        && Unmade(rank, made, less, top)
      invariant top.key in rank && Defined(chain, top.key) && top.position <= |Definition(chain, top.key)|
      decreases rank.Keys - made.Keys, rank[top.key], |Definition(chain, top.key)| - top.position
    {
      if top.position == |Definition(chain, top.key)| {
        PartEnded(chain, included, rank, limit, less, top);
        if less == [] {
          return Some(top.text);
        }
        ghost var before, key := made, top.key;
        var parent := less[|less| - 1];
        UnmadeEnd(rank, made, less, top, top.text, Grown(parent, top.text));
        NotMade(rank, made, less, top);
        MadeMore(chain, included, rank, limit, made, top.key, top.text);
        made := made[top.key := top.text];
        if parent.size + |top.text| > limit {
          PieceOver(chain, included, rank, limit, less[..|less| - 1], parent, top.text);
          return None;
        }
        PieceFits(chain, included, rank, limit, parent, top.text);
        less, top := less[..|less| - 1], Grown(parent, top.text);
        assert key in rank && key !in before && key in made;
      } else {
        var piece := Definition(chain, top.key)[top.position];
        var inner := Resolved(chain, top.key, piece);
        var text := "";
        var next := top.(position := top.position + 1);
        PartNext(chain, included, rank, limit, less, top);
        if piece.Text? {
          text := piece.text;
        } else if piece.Include? {
          var it := included(piece.name);
          if it.None? {
            IncludeFails(chain, included, rank, limit, less, top);
            return None;
          }
          text := it.value;
        } else if inner.Some? {
          if inner.value !in made {
            PartStarted(chain, included, rank, limit, less, top, inner.value);
            UnmadeStart(rank, made, less, top, next, Part(inner.value, 0, "", 0));
            less, top := less + [next], Part(inner.value, 0, "", 0);
            continue;
          }
          text := made[inner.value];
        }
        PieceRenders(chain, included, rank, limit, made, top, piece, inner, text);
        if next.size + |text| > limit {
          PieceOver(chain, included, rank, limit, less, next, text);
          return None;
        }
        PieceFits(chain, included, rank, limit, next, text);
        UnmadeSame(rank, made, less, top, Grown(next, text));
        top := Grown(next, text);
      }
      TopIs(chain, included, rank, limit, less, top);
    }
  }

  lemma MadeMore(chain: Chain, included: string -> Option<string>, rank: Ranks, limit: nat, made: map<Key, string>,
      k: Key, text: string)
    requires MadeOk(chain, included, rank, limit, made) && k in rank && Expansion(chain, included, rank, k)
      == Some(text) && |text| <= limit
    ensures MadeOk(chain, included, rank, limit, made[k := text])
  {
    hide Expansion;
  }

  lemma RootStarts(chain: Chain, included: string -> Option<string>, rank: Ranks, limit: nat, top: Part)
    requires chain != [] && Ranked(chain, rank) && Root(chain) in rank && top == Part(Root(chain), 0, "", 0)
    ensures PartsOk(chain, included, rank, limit, [], top) && MadeOk(chain, included, rank, limit, map[])
      && Unmade(rank, map[], [], top)
  {
  }

  lemma NotMade(rank: Ranks, made: map<Key, string>, less: seq<Part>, p: Part)
    requires Unmade(rank, made, less, p)
    ensures p.key in rank && p.key !in made
  {
  }

  lemma UnmadeSame(rank: Ranks, made: map<Key, string>, less: seq<Part>, p: Part, q: Part)
    requires Unmade(rank, made, less, p) && q.key == p.key
    ensures Unmade(rank, made, less, q)
  {
  }

  lemma TopIs(chain: Chain, included: string -> Option<string>, rank: Ranks, limit: nat, less: seq<Part>, p: Part)
    requires PartsOk(chain, included, rank, limit, less, p)
    ensures p.key in rank && Defined(chain, p.key) && p.position <= |Definition(chain, p.key)|
  {
  }

  lemma PartNext(chain: Chain, included: string -> Option<string>, rank: Ranks, limit: nat, less: seq<Part>, p: Part)
    requires PartsOk(chain, included, rank, limit, less, p) && Defined(chain, p.key)
      && p.position < |Definition(chain, p.key)|
    ensures PartIs(chain, included, rank, limit, p.(position := p.position + 1), p.position)
  {
  }

  lemma PieceRenders(chain: Chain, included: string -> Option<string>, rank: Ranks, limit: nat, made: map<Key, string>,
      p: Part, piece: Piece, inner: Option<Key>, text: string)
    requires Defined(chain, p.key) && p.position < |Definition(chain, p.key)|
      && piece == Definition(chain, p.key)[p.position]
    requires inner == Resolved(chain, p.key, piece) && MadeOk(chain, included, rank, limit, made)
    requires if piece.Text? then text == piece.text
             else if piece.Include? then included(piece.name) == Some(text)
             else if inner.Some? then inner.value in made && text == made[inner.value]
             else text == ""
    ensures Renders(chain, included, rank, p.key, p.position, text)
  {
  }
}
