/** Where phis go: on the iterated dominance frontier of the blocks assigning a local, where
    the local is live. */
module PhiPlacement {
  import opened DominatorTrees
  import opened IR
  import opened SSAForm
  import opened SSAMeaning
  import opened Liveness
  import opened RenamingWork

  // ---- the blocks assigning each local ----

  type Definitions = map<string, set<BlockId>>

  function BlocksOf(definitions: Definitions, x: string): set<BlockId> {
    if x in definitions then definitions[x] else {}
  }

  function Added(definitions: Definitions, x: string, b: BlockId): Definitions {
    definitions[x := BlocksOf(definitions, x) + {b}]
  }

  /** `h` is a loop header that assigns `x` on entering `b`. */
  predicate Enters(src: Source, h: BlockId, b: BlockId, x: string) {
    h in src.blocks && src.blocks[h].terminator.ForNext? && src.blocks[h].terminator.body == b
      && src.blocks[h].terminator.name == x
  }

  /** What the blocks outside `rest` assign. */
  ghost predicate Collected(src: Source, definitions: Definitions, rest: set<BlockId>) {
    forall x, b {:trigger b in BlocksOf(definitions, x)} ::
      b in BlocksOf(definitions, x) <==>
        b in src.blocks && ((b !in rest && x in StoredNames(src.blocks[b].instructions))
        || EnteredFrom(src, rest, b, x))
  }

  ghost predicate EnteredFrom(src: Source, rest: set<BlockId>, b: BlockId, x: string) {
    exists h :: h in src.blocks && h !in rest && Enters(src, h, b, x)
  }

  method AddStores(definitions0: Definitions, b: BlockId, code: seq<Instruction>) returns (definitions: Definitions)
    ensures forall x :: BlocksOf(definitions, x) == BlocksOf(definitions0, x) + (if x in StoredNames(code) then {b}
      else {})
  {
    definitions := definitions0;
    var k := 0;
    while k < |code|
      invariant 0 <= k <= |code|
      invariant forall x :: BlocksOf(definitions, x) == BlocksOf(definitions0, x) + (if x in StoredNames(code[..k])
        then {b} else {})
    {
      StoredStep(code, k);
      if code[k].StoreLocal? {
        definitions := Added(definitions, code[k].name, b);
      }
      k := k + 1;
    }
    assert code[..k] == code;
  }

  method CollectDefinitions(src: Source) returns (definitions: Definitions)
    requires Lowered(src) && TreeOf(src)
    ensures forall x :: BlocksOf(definitions, x) == Assigners(src, x)
  {
    hide Lowered, TreeOf, StoredNames;
    definitions := map[];
    var rest := src.blocks.Keys;
    while rest != {}
      invariant rest <= src.blocks.Keys && Collected(src, definitions, rest)
    {
      var b :| b in rest;
      ghost var before := definitions;
      definitions := AddStores(definitions, b, src.blocks[b].instructions);
      ghost var stored := definitions;
      if src.blocks[b].terminator.ForNext? {
        BodyReachable(src, b);
        definitions := Added(definitions, src.blocks[b].terminator.name, src.blocks[b].terminator.body);
      }
      CollectedMore(src, before, definitions, rest, b);
      rest := rest - {b};
    }
    forall x ensures BlocksOf(definitions, x) == Assigners(src, x) {
      forall b ensures b in BlocksOf(definitions, x) <==> b in Assigners(src, x) {
        if b in src.blocks {
          AssignsHow(src, b, x);
        }
      }
    }
  }

  lemma BodyReachable(src: Source, h: BlockId)
    requires Lowered(src) && TreeOf(src) && h in src.blocks && src.blocks[h].terminator.ForNext?
    ensures src.blocks[h].terminator.body in src.blocks
  {
    hide Lowered, TreeOf;
    assert src.blocks[h].terminator.body in Successors(src.blocks[h]);
    SuccessorReachable(src, h, src.blocks[h].terminator.body);
  }

  lemma CollectedMore(src: Source, before: Definitions, definitions: Definitions, rest: set<BlockId>, b: BlockId)
    requires Collected(src, before, rest) && b in rest && b in src.blocks
    requires src.blocks[b].terminator.ForNext? ==> src.blocks[b].terminator.body in src.blocks
    requires forall x, c {:trigger c in BlocksOf(definitions, x)} :: c in BlocksOf(definitions, x) <==>
        c in BlocksOf(before, x) || (c == b && x in StoredNames(src.blocks[b].instructions)) || Enters(src, b, c, x)
    ensures Collected(src, definitions, rest - {b})
  {
    hide StoredNames;
    forall x, c ensures EnteredFrom(src, rest - {b}, c, x) <==> EnteredFrom(src, rest, c, x) || Enters(src, b, c, x) {
      if EnteredFrom(src, rest - {b}, c, x) && !Enters(src, b, c, x) {
        var h :| h in src.blocks && h !in rest - {b} && Enters(src, h, c, x);
        assert h !in rest;
      }
      if EnteredFrom(src, rest, c, x) {
        var h :| h in src.blocks && h !in rest && Enters(src, h, c, x);
        assert h !in rest - {b};
      }
      if Enters(src, b, c, x) {
        assert b !in rest - {b};
      }
    }
  }

  /** A block assigns what it stores, and the variable of the loop whose body it is. */
  lemma AssignsHow(src: Source, b: BlockId, x: string)
    requires Lowered(src) && b in src.blocks
    ensures Assigns(src, b, x) <==> x in StoredNames(src.blocks[b].instructions) || EnteredFrom(src, {}, b, x)
  {
    hide BlocksAndTree, SingleDefinitions, UsesDefined;
    if x in LoopName(src, b) {
      assert BodyOk(src, b);
      assert Enters(src, src.loopOf[b].1, b, x);
    }
    if h :| h in src.blocks && Enters(src, h, b, x) {
      assert HeaderOk(src, h);
    }
  }

  // ---- placing phis ----

  ghost predicate HasPhiFor(r: Renaming, b: BlockId, x: string) {
    b in r.phis && x in r.phis[b]
  }

  /** Definitions of `x` meet in `b`, where `x` is live. */
  ghost predicate Wanted(src: Source, b: BlockId, x: string)
    requires b in src.live
  {
    x in src.live[b] && InIteratedFrontier(src.tree.frontier, Assigners(src, x), b)
  }

  /** The phis are those of the names in `done`, and for `name` those of the blocks in `here`. */
  ghost predicate PlacedFor(src: Source, r: Renaming, done: set<string>, name: string, here: set<BlockId>)
    requires src.live.Keys == src.blocks.Keys
  {
    forall b, x {:trigger HasPhiFor(r, b, x)} :: b in src.blocks ==>
      (HasPhiFor(r, b, x) <==> Wanted(src, b, x) && (x in done || (x == name && b in here)))
  }

  lemma FrontierInTree(src: Source)
    requires BlocksAndTree(src)
    ensures src.tree.frontier.Keys == src.blocks.Keys
    ensures forall x :: x in src.tree.frontier ==> src.tree.frontier[x] <= src.tree.frontier.Keys
  {
    hide BlockOk, SuccessorTable;
    forall x, y | x in src.tree.frontier && y in src.tree.frontier[x] ensures y in src.tree.frontier {
      assert InFrontier(SuccessorTable(src.code.blocks), src.tree.root, x, y);
      FrontierReached(SuccessorTable(src.code.blocks), src.tree.root, x, y);
    }
  }

  lemma FrontierReachable(src: Source, x: string)
    requires BlocksAndTree(src)
    ensures forall b :: InIteratedFrontier(src.tree.frontier, Assigners(src, x), b) ==> b in src.blocks
  {
    hide Assigns;
    FrontierInTree(src);
    forall b | InIteratedFrontier(src.tree.frontier, Assigners(src, x), b) ensures b in src.blocks {
      var c :| FrontierChain(src.tree.frontier, Assigners(src, x), c) && |c| > 1 && c[|c| - 1] == b;
      assert c[|c| - 2 + 1] in src.tree.frontier[c[|c| - 2]];
    }
  }

  lemma NothingDoneYet(src: Source, r: Renaming, r': Renaming, terminators: map<BlockId, Terminator>)
    requires AllDone(src, r, map[], terminators, {}) && r' == r.(phis := r'.phis)
    ensures AllDone(src, r', map[], terminators, {})
  {
  }

  lemma NotAssigned(src: Source, b: BlockId, x: string)
    requires Assigners(src, x) == {}
    ensures !InIteratedFrontier(src.tree.frontier, Assigners(src, x), b)
  {
  }

  /** The next number becomes the phi of `x` in `b`. */
  function WithPhi(phis: map<BlockId, map<string, Value>>, b: BlockId, x: string, v: Value): map<BlockId,
      map<string, Value>> {
    phis[b := (if b in phis then phis[b] else map[])[x := v]]
  }

  lemma NewPhi(src: Source, r: Renaming, phis: map<BlockId, seq<Instruction>>, base: Value, site: map<Value, Site>,
      nextId: Value, b: BlockId, x: string)
    requires AllPhis(src, r, {}, phis) && b in src.blocks && !HasPhiFor(r, b, x)
    requires Fresh(src, r, base, site) && Numbered(base, site, nextId)
    ensures var r' := r.(phis := WithPhi(r.phis, b, x, nextId)); var site' := site[nextId := PhiSite(b, x)];
      && Fresh(src, r', base, site') && Numbered(base, site', nextId + 1)
      && AllPhis(src, r', {}, phis[b := (if b in phis then phis[b] else []) + [Phi(nextId, x, [])]])
  {
    NewPhiFresh(src, r, base, site, nextId, b, x);
    NewPhiListed(src, r, phis, nextId, b, x);
  }

  lemma NewPhiFresh(src: Source, r: Renaming, base: Value, site: map<Value, Site>, nextId: Value, b: BlockId, x: string)
    requires !HasPhiFor(r, b, x) && Fresh(src, r, base, site) && Numbered(base, site, nextId)
    ensures var r' := r.(phis := WithPhi(r.phis, b, x, nextId)); var site' := site[nextId := PhiSite(b, x)];
      Fresh(src, r', base, site') && Numbered(base, site', nextId + 1)
  {
    var r' := r.(phis := WithPhi(r.phis, b, x, nextId));
    var site' := site[nextId := PhiSite(b, x)];
    forall c, y | c in r'.phis && y in r'.phis[c] ensures r'.phis[c][y] in site'
      && site'[r'.phis[c][y]] == PhiSite(c, y) {
      if c != b || y != x {
        assert r'.phis[c][y] == r.phis[c][y];
      }
    }
  }

  lemma NewPhiListed(src: Source, r: Renaming, phis: map<BlockId, seq<Instruction>>, nextId: Value, b: BlockId,
      x: string)
    requires AllPhis(src, r, {}, phis) && b in src.blocks && !HasPhiFor(r, b, x)
    ensures var r' := r.(phis := WithPhi(r.phis, b, x, nextId));
      AllPhis(src, r', {}, phis[b := (if b in phis then phis[b] else []) + [Phi(nextId, x, [])]])
  {
    var r' := r.(phis := WithPhi(r.phis, b, x, nextId));
    var list := if b in phis then phis[b] else [];
    var phis' := phis[b := list + [Phi(nextId, x, [])]];
    forall s | s in phis' ensures PhisOf(src, r', {}, s, phis'[s]) {
      if s == b {
        ListedOne(src, r, r', b, x, nextId, list);
      } else {
        assert PhisOf(src, r, {}, s, phis[s]);
        forall k | 0 <= k < |phis[s]| ensures PhiOf(src, r', {}, s, phis'[s][k]) {
          StillListed(src, r, r', s, phis[s][k]);
        }
      }
    }
  }

  lemma StillListed(src: Source, r: Renaming, r': Renaming, s: BlockId, i: Instruction)
    requires PhiOf(src, r, {}, s, i) && r' == r.(phis := r'.phis)
    requires s in r'.phis && i.name in r'.phis[s] && r'.phis[s][i.name] == r.phis[s][i.name]
    ensures PhiOf(src, r', {}, s, i)
  {
    forall j | 0 <= j < |i.incoming| ensures ListsOne(src, r', s, i.name, i.incoming[j]) {
      assert ListsOne(src, r, s, i.name, i.incoming[j]);
    }
  }

  lemma ListedOne(src: Source, r: Renaming, r': Renaming, b: BlockId, x: string, v: Value, list: seq<Instruction>)
    requires b in r.phis ==> PhisOf(src, r, {}, b, list)
    requires b !in r.phis ==> list == []
    requires !HasPhiFor(r, b, x) && r' == r.(phis := WithPhi(r.phis, b, x, v))
    ensures PhisOf(src, r', {}, b, list + [Phi(v, x, [])])
  {
    var list' := list + [Phi(v, x, [])];
    forall k | 0 <= k < |list'| ensures PhiOf(src, r', {}, b, list'[k]) {
      if k < |list| {
        assert PhiOf(src, r, {}, b, list[k]);
        StillListed(src, r, r', b, list[k]);
      }
    }
    forall y | y in r'.phis[b] ensures HasPhi(list', y) {
      if y == x {
        assert list'[|list|].name == x;
      } else {
        assert HasPhi(list, y);
        var k :| 0 <= k < |list| && list[k].Phi? && list[k].name == y;
        assert list'[k] == list[k];
      }
    }
    forall j, k | 0 <= j < k < |list'| ensures list'[j].name != list'[k].name {
      assert PhiOf(src, r, {}, b, list[j]);
      if k < |list| {
        assert list[j].name != list[k].name;
      }
    }
  }

  lemma PlacedOne(src: Source, r: Renaming, r': Renaming, done: set<string>, x: string, here: set<BlockId>, b: BlockId)
    requires src.live.Keys == src.blocks.Keys && PlacedFor(src, r, done, x, here) && b in src.blocks
    requires if Wanted(src, b, x) then exists v :: r'.phis == WithPhi(r.phis, b, x, v) else r'.phis == r.phis
    ensures PlacedFor(src, r', done, x, here + {b})
  {
    hide InIteratedFrontier;
    forall c, y | c in src.blocks ensures HasPhiFor(r', c, y) <==>
      Wanted(src, c, y) && (y in done || (y == x && c in here + {b})) {
      if Wanted(src, b, x) {
        var v :| r'.phis == WithPhi(r.phis, b, x, v);
        assert HasPhiFor(r', c, y) <==> HasPhiFor(r, c, y) || (c == b && y == x);
      } else {
        assert HasPhiFor(r', c, y) <==> HasPhiFor(r, c, y);
      }
    }
  }

  lemma NothingPlaced(src: Source, r: Renaming)
    requires src.live.Keys == src.blocks.Keys && r.phis == map[]
    ensures PlacedFor(src, r, {}, "", {})
  {
    hide InIteratedFrontier;
  }

  lemma NextName(src: Source, r: Renaming, done: set<string>, x: string)
    requires src.live.Keys == src.blocks.Keys && PlacedFor(src, r, done, "", {})
    ensures PlacedFor(src, r, done, x, {})
  {
    hide InIteratedFrontier;
  }

  lemma NotYetPlaced(src: Source, r: Renaming, done: set<string>, x: string, here: set<BlockId>, b: BlockId)
    requires src.live.Keys == src.blocks.Keys && PlacedFor(src, r, done, x, here)
    requires b in src.blocks && x !in done && b !in here
    ensures !HasPhiFor(r, b, x)
  {
  }

  /** A name whose frontier has been gone through is done. */
  lemma NameDone(src: Source, r: Renaming, done: set<string>, x: string, here: set<BlockId>)
    requires src.live.Keys == src.blocks.Keys && PlacedFor(src, r, done, x, here)
    requires forall b :: b in here <==> InIteratedFrontier(src.tree.frontier, Assigners(src, x), b)
    ensures PlacedFor(src, r, done + {x}, "", {})
  {
    hide InIteratedFrontier;
    forall c, z | c in src.blocks ensures HasPhiFor(r, c, z) <==> Wanted(src, c, z) && z in done + {x} {
    }
  }

  lemma NameSettled(src: Source, r: Renaming, done: set<string>, b: BlockId, x: string)
    requires src.live.Keys == src.blocks.Keys && PlacedFor(src, r, done, "", {})
    requires x !in done ==> Assigners(src, x) == {}
    requires b in src.blocks
    ensures HasPhiFor(r, b, x) <==> Wanted(src, b, x)
  {
    hide InIteratedFrontier, HasPhiFor;
    if x !in done {
      NotAssigned(src, b, x);
    }
  }

  lemma AllNamesDone(src: Source, r: Renaming, done: set<string>)
    requires src.live.Keys == src.blocks.Keys && PlacedFor(src, r, done, "", {})
    requires forall x :: x !in done ==> Assigners(src, x) == {}
    ensures PhisPlaced(src, r)
  {
    hide InIteratedFrontier, Assigners;
    forall b, x {:trigger InIteratedFrontier(src.tree.frontier, Assigners(src, x), b)} | b in src.blocks
      ensures (b in r.phis && x in r.phis[b]) <==>
        x in src.live[b] && InIteratedFrontier(src.tree.frontier, Assigners(src, x), b)
    {
      NameSettled(src, r, done, b, x);
    }
  }
}
