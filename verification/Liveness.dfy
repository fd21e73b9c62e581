/** Backward liveness of locals, found by iterating until nothing changes, and shown to be
    exactly the locals some walk reads before assigning them. */
module Liveness {
  import opened IR
  import opened SSAForm

  /** The locals the code stores. */
  function StoredNames(code: seq<Instruction>): set<string> {
    set i | 0 <= i < |code| && code[i].StoreLocal? :: code[i].name
  }

  lemma StoredStep(code: seq<Instruction>, k: nat)
    requires k < |code|
    ensures StoredNames(code[..k + 1]) == StoredNames(code[..k]) + (if code[k].StoreLocal? then {code[k].name} else {})
  {
    var p, q := code[..k + 1], code[..k];
    forall x | x in StoredNames(p) ensures x in StoredNames(q) + (if code[k].StoreLocal? then {code[k].name} else {}) {
      var i :| 0 <= i < |p| && p[i].StoreLocal? && p[i].name == x;
      if i < k { assert q[i] == p[i]; }
    }
    forall x | x in StoredNames(q) ensures x in StoredNames(p) {
      var i :| 0 <= i < |q| && q[i].StoreLocal? && q[i].name == x;
      assert p[i] == q[i];
    }
    assert p[k] == code[k];
  }

  lemma {:induction false} LiveAppend(code: seq<Instruction>, i: Instruction, out: set<string>)
    ensures LiveBefore(code + [i], out) == LiveBefore(code, LiveAcross(i, out))
  {
    if code != [] {
      assert (code + [i])[1..] == code[1..] + [i];
      LiveAppend(code[1..], i, out);
    }
  }

  lemma {:induction false} LiveSplits(code: seq<Instruction>, out: set<string>)
    ensures LiveBefore(code, out) == LiveBefore(code, {}) + (out - StoredNames(code))
  {
    if code != [] {
      var k := |code| - 1;
      var rest := code[..k];
      assert code == rest + [code[k]] && code[..k + 1] == code;
      LiveAppend(rest, code[k], out);
      LiveAppend(rest, code[k], {});
      LiveSplits(rest, LiveAcross(code[k], out));
      LiveSplits(rest, LiveAcross(code[k], {}));
      StoredStep(code, k);
    }
  }

  /** What a block reads of the locals it is entered with, and what it assigns. */
  method UsesAndDefs(src: Source, b: BlockId) returns (uses: set<string>, defs: set<string>)
    requires b in src.blocks
    ensures uses == Uses(src, b) && defs == Defs(src, b)
  {
    var code := src.blocks[b].instructions;
    uses, defs := {}, LoopName(src, b);
    var k := 0;
    while k < |code|
      invariant 0 <= k <= |code|
      invariant uses == LiveBefore(code[..k], {}) - LoopName(src, b)
      invariant defs == StoredNames(code[..k]) + LoopName(src, b)
    {
      assert code[..k + 1] == code[..k] + [code[k]];
      LiveAppend(code[..k], code[k], {});
      LiveSplits(code[..k], LiveAcross(code[k], {}));
      StoredStep(code, k);
      if code[k].LoadLocal? && code[k].name !in defs {
        uses := uses + {code[k].name};
      } else if code[k].StoreLocal? {
        defs := defs + {code[k].name};
      }
      k := k + 1;
    }
    assert code[..k] == code;
  }

  function Uses(src: Source, b: BlockId): set<string>
    requires b in src.blocks
  {
    LiveBefore(src.blocks[b].instructions, {}) - LoopName(src, b)
  }

  function Defs(src: Source, b: BlockId): set<string>
    requires b in src.blocks
  {
    StoredNames(src.blocks[b].instructions) + LoopName(src, b)
  }

  /** A walk from `b` that reads `x` in its last block and assigns it in none before. */
  ghost predicate Reading(src: Source, b: BlockId, x: string, p: seq<BlockId>) {
    && |p| > 0 && p[0] == b
    && (forall i :: 0 <= i < |p| ==> p[i] in src.blocks)
    && (forall i :: 0 <= i < |p| - 1 ==> p[i + 1] in Successors(src.blocks[p[i]]) && x !in Defs(src, p[i]))
    && x in Uses(src, p[|p| - 1])
  }

  ghost predicate Read(src: Source, b: BlockId, x: string) {
    exists p :: Reading(src, b, x, p)
  }

  ghost predicate BlocksClosed(src: Source) {
    forall b, s :: b in src.blocks && s in Successors(src.blocks[b]) ==> s in src.blocks
  }

  ghost function Pairs(live: map<BlockId, set<string>>): set<(BlockId, string)> {
    set b, x | b in live && x in live[b] :: (b, x)
  }

  ghost function AllPairs(src: Source, names: set<string>): set<(BlockId, string)> {
    set b, x | b in src.blocks && x in names :: (b, x)
  }

  /** What the successors of `b` have live so far. */
  method Union(live: map<BlockId, set<string>>, succs: seq<BlockId>) returns (out: set<string>)
    requires forall s :: s in succs ==> s in live
    ensures forall x :: x in out <==> exists s :: s in succs && x in live[s]
  {
    out := {};
    var k := 0;
    while k < |succs|
      invariant 0 <= k <= |succs|
      invariant forall x :: x in out <==> exists s :: s in succs[..k] && x in live[s]
    {
      assert succs[..k + 1] == succs[..k] + [succs[k]];
      assert succs[k] in succs;
      out := out + live[succs[k]];
      k := k + 1;
    }
    assert succs[..k] == succs;
  }

  /** The names found live so far are really read, and follow from those of the successors. */
  ghost predicate Sound(src: Source, names: set<string>, live: map<BlockId, set<string>>) {
    && live.Keys == src.blocks.Keys
    && (forall b, x :: b in live && x in live[b] ==> x in names && Read(src, b, x))
    && (forall b, x :: b in live && x in live[b] ==> Follows(src, live, b, x))
  }

  /** `x` is read in `b`, or live in a successor and not assigned in `b`. */
  ghost predicate Follows(src: Source, live: map<BlockId, set<string>>, b: BlockId, x: string)
    requires b in src.blocks
  {
    x in Uses(src, b) || (x !in Defs(src, b) && exists s :: s in Successors(src.blocks[b]) && s in live && x in live[s])
  }

  lemma FollowsIsRead(src: Source, names: set<string>, live: map<BlockId, set<string>>, b: BlockId, x: string)
    requires Sound(src, names, live) && b in src.blocks && Follows(src, live, b, x)
    ensures Read(src, b, x)
  {
    if x in Uses(src, b) {
      assert Reading(src, b, x, [b]);
    } else {
      var s :| s in Successors(src.blocks[b]) && s in live && x in live[s];
      assert Read(src, s, x);
      var p :| Reading(src, s, x, p);
      var q := [b] + p;
      forall i | 0 <= i < |q| ensures q[i] in src.blocks {
        if i > 0 { assert p[i - 1] in src.blocks; }
      }
      forall i | 0 <= i < |q| - 1 ensures q[i + 1] in Successors(src.blocks[q[i]]) && x !in Defs(src, q[i]) {
        if i > 0 { assert p[i - 1 + 1] in Successors(src.blocks[p[i - 1]]); }
      }
      assert Reading(src, b, x, q);
    }
  }

  /** One block's names replaced by all that follow. */
  lemma Grown(src: Source, names: set<string>, live: map<BlockId, set<string>>, b: BlockId, grown: set<string>)
    requires Sound(src, names, live) && b in src.blocks
    requires forall x :: x in grown <==> Follows(src, live, b, x)
    requires grown <= names
    ensures live[b] <= grown && Sound(src, names, live[b := grown])
    ensures grown != live[b] ==> Pairs(live) < Pairs(live[b := grown])
    ensures Pairs(live) <= Pairs(live[b := grown])
  {
    var live' := live[b := grown];
    forall x | x in live[b] ensures x in grown {
      assert Follows(src, live, b, x);
    }
    forall c, x | c in live' && x in live'[c] ensures Read(src, c, x) && Follows(src, live', c, x) {
      if c == b {
        FollowsIsRead(src, names, live, b, x);
        StillFollows(src, live, live', c, x);
      } else {
        assert Follows(src, live, c, x);
        StillFollows(src, live, live', c, x);
      }
    }
    if grown != live[b] {
      var x :| x in grown && x !in live[b];
      assert (b, x) in Pairs(live') && (b, x) !in Pairs(live);
    }
  }

  lemma StillFollows(src: Source, live: map<BlockId, set<string>>, live': map<BlockId, set<string>>, b: BlockId,
      x: string)
    requires b in src.blocks && Follows(src, live, b, x)
    requires live.Keys == live'.Keys && forall c :: c in live ==> live[c] <= live'[c]
    ensures Follows(src, live', b, x)
  {
    if x !in Uses(src, b) {
      var s :| s in Successors(src.blocks[b]) && s in live && x in live[s];
      assert s in live' && x in live'[s];
    }
  }

  /** The uses and definitions of every block, and all names used. */
  method AllUsesAndDefs(src: Source) returns (uses: map<BlockId, set<string>>, defs: map<BlockId, set<string>>,
      names: set<string>)
    ensures uses.Keys == defs.Keys == src.blocks.Keys
    ensures forall b :: b in src.blocks ==> uses[b] == Uses(src, b) && defs[b] == Defs(src, b) && uses[b] <= names
  {
    names, uses, defs := {}, map[], map[];
    var rest := src.blocks.Keys;
    while rest != {}
      invariant rest <= src.blocks.Keys
      invariant uses.Keys == defs.Keys == src.blocks.Keys - rest
      invariant forall b :: b in uses ==> uses[b] == Uses(src, b) && defs[b] == Defs(src, b) && uses[b] <= names
    {
      var b :| b in rest;
      var u, d := UsesAndDefs(src, b);
      uses, defs, names, rest := uses[b := u], defs[b := d], names + u, rest - {b};
    }
  }

  /** What `b` gets from its uses and from what is live in its successors. */
  method Step(src: Source, ghost names: set<string>, live: map<BlockId, set<string>>, b: BlockId, uses: set<string>,
      defs: set<string>)
    returns (next: set<string>)
    requires Sound(src, names, live) && BlocksClosed(src) && b in src.blocks
    requires uses == Uses(src, b) && defs == Defs(src, b) && uses <= names
    ensures next <= names && forall x :: x in next <==> Follows(src, live, b, x)
  {
    hide Uses, Defs;
    var out := Union(live, Successors(src.blocks[b]));
    next := uses + (out - defs);
    forall x | x in next ensures x in names {
      if x !in uses {
        var s :| s in Successors(src.blocks[b]) && x in live[s];
      }
    }
  }

  /** What a pass over the blocks has done so far. */
  ghost predicate Passed(src: Source, names: set<string>, before: map<BlockId, set<string>>,
      live: map<BlockId, set<string>>, todo: set<BlockId>, changed: bool) {
    && Sound(src, names, live)
    && (if changed then Pairs(before) < Pairs(live)
        else live == before && forall b, x :: b in live && b !in todo && Follows(src, live, b, x) ==> x in live[b])
  }

  /** One pass over the blocks. */
  method Pass(src: Source, ghost names: set<string>, live0: map<BlockId, set<string>>, uses: map<BlockId, set<string>>,
      defs: map<BlockId, set<string>>)
    returns (live: map<BlockId, set<string>>, changed: bool)
    requires Sound(src, names, live0) && BlocksClosed(src)
    requires uses.Keys == defs.Keys == src.blocks.Keys
    requires forall b :: b in src.blocks ==> uses[b] == Uses(src, b) && defs[b] == Defs(src, b) && uses[b] <= names
    ensures Passed(src, names, live0, live, {}, changed)
  {
    hide Uses, Defs, Follows, Pairs;
    live, changed := live0, false;
    var todo := src.blocks.Keys;
    while todo != {}
      invariant todo <= src.blocks.Keys && Passed(src, names, live0, live, todo, changed)
    {
      var b :| b in todo;
      todo := todo - {b};
      var next := Step(src, names, live, b, uses[b], defs[b]);
      Grown(src, names, live, b, next);
      if next != live[b] {
        live := live[b := next];
        changed := true;
      } else {
        assert live[b := next] == live;
      }
    }
  }

  /** The locals live where each block starts. */
  method LiveIn(src: Source) returns (live: map<BlockId, set<string>>)
    requires BlocksClosed(src)
    ensures live.Keys == src.blocks.Keys
    ensures forall b, x :: b in live ==> (x in live[b] <==> Follows(src, live, b, x))
    ensures forall b, x :: b in live ==> (x in live[b] <==> Read(src, b, x))
  {
    hide Uses, Defs, Follows, Pairs, AllPairs, Read;
    var uses, defs, names := AllUsesAndDefs(src);
    live := map b | b in src.blocks :: {};
    var changed := true;
    while changed
      invariant Sound(src, names, live)
      invariant !changed ==> forall b, x :: b in live && Follows(src, live, b, x) ==> x in live[b]
      decreases AllPairs(src, names) - Pairs(live), changed
    {
      ghost var before := live;
      live, changed := Pass(src, names, live, uses, defs);
      PairsBounded(src, names, live);
      if changed {
        assert AllPairs(src, names) - Pairs(live) < AllPairs(src, names) - Pairs(before) by {
          var q :| q in Pairs(live) && q !in Pairs(before);
          assert q in AllPairs(src, names) - Pairs(before);
        }
      }
    }
    forall b, x | b in live && Read(src, b, x) ensures x in live[b] {
      ReadIsLive(src, live, b, x);
    }
  }

  lemma PairsBounded(src: Source, names: set<string>, live: map<BlockId, set<string>>)
    requires Sound(src, names, live)
    ensures Pairs(live) <= AllPairs(src, names)
  {
  }

  lemma ReadIsLive(src: Source, live: map<BlockId, set<string>>, b: BlockId, x: string)
    requires live.Keys == src.blocks.Keys && Read(src, b, x)
    requires forall b, x :: b in live && Follows(src, live, b, x) ==> x in live[b]
    ensures b in live && x in live[b]
  {
    var p :| Reading(src, b, x, p);
    ReadingIsLive(src, live, b, x, p);
  }

  lemma {:induction false} ReadingIsLive(src: Source, live: map<BlockId, set<string>>, b: BlockId, x: string,
      p: seq<BlockId>)
    requires live.Keys == src.blocks.Keys && Reading(src, b, x, p)
    requires forall b, x :: b in live && Follows(src, live, b, x) ==> x in live[b]
    ensures x in live[b]
    decreases |p|
  {
    if |p| == 1 {
      assert Follows(src, live, b, x);
    } else {
      var q := p[1..];
      forall i | 0 <= i < |q| - 1 ensures q[i + 1] in Successors(src.blocks[q[i]]) && x !in Defs(src, q[i]) {
        assert p[i + 1 + 1] in Successors(src.blocks[p[i + 1]]);
      }
      ReadingIsLive(src, live, p[1], x, q);
      assert p[0 + 1] in Successors(src.blocks[p[0]]);
      assert Follows(src, live, b, x);
    }
  }

  /** Liveness so computed is what phi pruning relies on. */
  lemma LivenessFlows(src: Source)
    requires src.live.Keys == src.blocks.Keys && BlocksClosed(src)
    requires forall b, x :: b in src.live ==> (x in src.live[b] <==> Follows(src, src.live, b, x))
    ensures LiveFlows(src)
  {
    forall b | b in src.blocks ensures LiveFlowsAt(src, b) {
      LiveSplits(src.blocks[b].instructions, LiveOut(src, b));
      forall x | x in LiveBefore(src.blocks[b].instructions, LiveOut(src, b)) - LoopName(src, b)
        ensures x in src.live[b] {
        assert Follows(src, src.live, b, x);
      }
    }
  }
}
