/** The builder: it updates its blocks, counters and contexts in place, and lays statements out
    exactly as `Layout` says. */
module CfgBuilder {
  import opened Graphs
  import opened Options
  import opened Structured
  import opened Layout
  import opened LayoutFacts
  import opened CfgShape
  import LayoutMeaning

  /** The block left open, or the keyword found outside any loop. */
  datatype Result = Done(out: Option<Open>) | Stray(keyword: string)

  datatype Cfg = Cfg(blocks: Blocks) | CfgError(keyword: string)

  class Builder {
    var blocks: Blocks
    var counters: map<string, nat>
    var loops: seq<(BlockId, BlockId)>
    var handlers: seq<seq<BlockId>>

    ghost function State(): Building
      reads this
    {
      Building(blocks, counters, loops, handlers)
    }

    /** What was done is what the layout says. */
    ghost predicate Did(laid: Laid, result: Result)
      reads this
    {
      match laid
      case Laid(b, out) => result == Done(out) && State() == b
      case Failed(keyword) => result == Stray(keyword)
    }

    constructor ()
      ensures State() == Building(map[], map[], [], [])
    {
      blocks, counters, loops, handlers := map[], map[], [], [];
    }

    method NewId(kind: string) returns (id: BlockId)
      modifies `counters
      ensures State() == Counted(old(State()), kind) && id == Next(old(State()), kind)
    {
      counters := counters[kind := (if kind in counters then counters[kind] else 0) + 1];
      id := Node(kind, counters[kind]);
    }

    method NewIds(kind: string, n: nat) returns (ids: seq<BlockId>)
      modifies `counters
      ensures (State(), ids) == NextIds(old(State()), kind, n)
    {
      ids := [];
      for k := 0 to n
        invariant (State(), ids) == NextIds(old(State()), kind, k)
      {
        var id := NewId(kind);
        ids := ids + [id];
      }
    }

    method Finish(open: Open, terminator: Exit)
      modifies `blocks
      ensures State() == Finished(old(State()), open, terminator)
    {
      var targets := if handlers != [] then handlers[|handlers| - 1] else [];
      blocks := blocks[open.id := CfgBlock(open.id, open.items, terminator, targets)];
    }

    /** `LayAll` done step by step. */
    method Sequence(statements: seq<Statement>, open: Open, continuation: Option<BlockId>) returns (result: Result)
      modifies this
      ensures Did(LayAll(old(State()), statements, open, continuation), result)
      decreases SizeAll(statements), |statements| + 3
    {
      hide LayStatement, Finished, Counted, Next;
      var current := Some(open);
      var k := 0;
      while k < |statements|
        invariant 0 <= k <= |statements|
        invariant k < |statements| ==> current.Some?
        invariant LayUpTo(old(State()), statements, k, open, continuation) == Laid(State(), current)
      {
        var last := k == |statements| - 1;
        var r := Statement(statements[k], current.value, if last then continuation else None);
        if r.Stray? {
          StraysEarly(old(State()), statements, k + 1, open, continuation);
          return r;
        }
        current := r.out;
        if current.None? && !last {
          var id := NewId("dead");
          current := Some(Open(id, []));
        }
        k := k + 1;
      }
      if current.Some? && continuation.Some? {
        Finish(current.value, Jump(continuation.value));
        current := None;
      }
      result := Done(current);
    }

    method Statement(s: Statement, open: Open, continuation: Option<BlockId>) returns (result: Result)
      modifies this
      ensures Did(LayStatement(old(State()), s, open, continuation), result)
      decreases Size(s), 1
    {
      match s {
        case Simple(text) => result := Done(Some(Appended(open, [Plain(text)])));
        case Return(v) =>
          Finish(open, Leave(v));
          result := Done(None);
        case Raise(e) =>
          Finish(open, Throw(e));
          result := Done(None);
        case Break =>
          if loops == [] {
            return Stray("break");
          }
          Finish(open, Jump(loops[|loops| - 1].1));
          result := Done(None);
        case Continue =>
          if loops == [] {
            return Stray("continue");
          }
          Finish(open, Jump(loops[|loops| - 1].0));
          result := Done(None);
        case If(_, _, _) => result := Conditional(s, open, continuation);
        case While(setup, _, _, _) =>
          if setup != [] {
            RewrittenSmaller(s);
          }
          result := Loop(if setup == [] then s else Rewritten(s), open, continuation);
        case For(_, _, _, _) => result := Loop(s, open, continuation);
        case With(contexts, body) => result := WithStatement(s, open);
        case Try(_, _, _, _) => result := TryStatement(s, open, continuation);
      }
    }

    /** Lays the body out inline, between entering and leaving the contexts. */
    method WithStatement(s: Statement, open: Open) returns (result: Result)
      requires s.With?
      modifies this
      ensures Did(LayStatement(old(State()), s, open, None), result)
      decreases Size(s), 0
    {
      result := Sequence(s.body, Appended(open, Enters(s.contexts)), None);
      if result.Done? && result.out.Some? {
        result := Done(Some(Appended(result.out.value, Exits(s.contexts))));
      }
    }

    method Conditional(s: Statement, open: Open, continuation: Option<BlockId>) returns (result: Result)
      requires s.If?
      modifies this
      ensures Did(LayIf(old(State()), s, open, continuation), result)
      decreases Size(s), 0
    {
      var merge;
      if continuation.Some? {
        merge := continuation.value;
      } else {
        merge := NewId("merge");
      }
      var thenId := NewId("then");
      var elseId := merge;
      if s.orelse != [] {
        elseId := NewId("else");
      }
      Finish(open, Branch(s.condition, thenId, elseId));
      result := Sequence(s.body, Open(thenId, []), Some(merge));
      if result.Stray? {
        return;
      }
      if s.orelse != [] {
        result := Sequence(s.orelse, Open(elseId, []), Some(merge));
        if result.Stray? {
          return;
        }
      }
      result := Done(if continuation.Some? then None else Some(Open(merge, [])));
    }

    method Loop(s: Statement, open: Open, continuation: Option<BlockId>) returns (result: Result)
      requires s.While? || s.For?
      modifies this
      ensures Did(LayLoop(old(State()), s, open, continuation), result)
      decreases Size(s), 0
    {
      hide TakeLoopIds, Counted, Next;
      SameLoops(State(), s, continuation);
      var ids := TakeLoop(s, continuation);
      Finish(open, Jump(ids.header));
      Finish(Open(ids.header, []), LoopExit(s, ids.body, ids.exit));
      ghost var around := loops;
      loops := loops + [(ids.header, ids.after)];
      result := Sequence(s.body, Open(ids.body, []), Some(ids.header));
      if result.Stray? {
        return;
      }
      assert loops[..|loops| - 1] == around;
      loops := loops[..|loops| - 1];
      if s.orelse != [] {
        result := Sequence(s.orelse, Open(ids.exit, []), Some(ids.after));
        if result.Stray? {
          return;
        }
      }
      result := Done(if continuation.Some? then None else Some(Open(ids.after, [])));
    }

    method TakeLoop(s: Statement, continuation: Option<BlockId>) returns (ids: LoopIds)
      requires s.While? || s.For?
      modifies `counters
      ensures (State(), ids) == TakeLoopIds(old(State()), s, continuation)
    {
      var header := NewId("loop");
      var body := NewId("body");
      var after;
      if continuation.Some? {
        after := continuation.value;
      } else {
        after := NewId("exit");
      }
      var exit := after;
      if s.orelse != [] {
        exit := NewId("else");
      }
      ids := LoopIds(header, body, after, exit);
    }

    /** `LayTry` done step by step, with the handlers pushed only while the body is laid out. */
    method TryStatement(s: Statement, open: Open, continuation: Option<BlockId>) returns (result: Result)
      requires s.Try?
      modifies this
      ensures Did(LayTry(old(State()), s, open, continuation), result)
      decreases Size(s), 0
    {
      hide TakeTryIds, Counted, Next, LayAll;
      SameLoops(State(), s, continuation);
      var ids := TakeIds(s, continuation);
      Finish(open, Jump(ids.body));
      ghost var around := handlers;
      handlers := handlers + [ids.handlers];
      result := Sequence(s.body, Open(ids.body, []), None);
      if result.Stray? {
        return;
      }
      var end := result.out;
      if end.Some? {
        Finish(end.value, Jump(if s.orelse != [] then ids.orelse else ids.join));
      }
      assert handlers[..|handlers| - 1] == around;
      handlers := handlers[..|handlers| - 1];
      if end.Some? && s.orelse != [] {
        result := Sequence(s.orelse, Open(ids.orelse, []), Some(ids.join));
        if result.Stray? {
          return;
        }
      }
      result := LayoutHandlers(s, ids.handlers, ids.join);
      if result.Stray? {
        return;
      }
      if s.finalbody != [] {
        result := Sequence(s.finalbody, Open(ids.final, []), Some(ids.after));
        if result.Stray? {
          return;
        }
      }
      result := Done(if continuation.Some? then None else Some(Open(ids.after, [])));
    }

    method TakeIds(s: Statement, continuation: Option<BlockId>) returns (ids: TryIds)
      requires s.Try?
      modifies `counters
      ensures (State(), ids) == TakeTryIds(old(State()), s, continuation)
      ensures |ids.handlers| == |s.handlers|
    {
      NextIdsLength(Counted(State(), "try"), "handler", |s.handlers|);
      var body := NewId("try");
      var handlerIds := NewIds("handler", |s.handlers|);
      var orelse, final, after := None, None, continuation;
      if s.orelse != [] {
        var id := NewId("else");
        orelse := Some(id);
      }
      if s.finalbody != [] {
        var id := NewId("finally");
        final := Some(id);
      }
      if continuation.None? {
        var id := NewId("after");
        after := Some(id);
      }
      var join := if final.Some? then final.value else after.value;
      ids := TryIds(body, handlerIds, if orelse.Some? then orelse.value else after.value, join, after.value, join);
    }

    method LayoutHandlers(s: Statement, ids: seq<BlockId>, join: BlockId) returns (result: Result)
      requires s.Try? && |ids| == |s.handlers|
      modifies this
      ensures Did(LayHandlers(old(State()), s.handlers, ids, |s.handlers|, join), result)
      decreases SizeHandlers(s.handlers)
    {
      hide LayAll, Counted, Next, Finished;
      var k := 0;
      result := Done(None);
      while k < |s.handlers|
        invariant 0 <= k <= |s.handlers| && result.Done?
        invariant LayHandlers(old(State()), s.handlers, ids, k, join) == Laid(State(), result.out)
      {
        result := Sequence(s.handlers[k].body, Open(ids[k], [EnterHandler(s.handlers[k].name)]), Some(join));
        if result.Stray? {
          HandlersStray(old(State()), s.handlers, ids, k + 1, join);
          return;
        }
        k := k + 1;
      }
    }
  }

  /** Once a prefix fails, the whole fails alike. */
  lemma {:induction false} StraysEarly(b: Building, statements: seq<Statement>, k: nat, open: Open,
      continuation: Option<BlockId>)
    requires k <= |statements| && LayUpTo(b, statements, k, open, continuation).Failed?
    ensures LayAll(b, statements, open, continuation) == LayUpTo(b, statements, k, open, continuation)
    decreases |statements| - k
  {
    if k < |statements| {
      assert LayUpTo(b, statements, k + 1, open, continuation) == LayUpTo(b, statements, k, open, continuation);
      StraysEarly(b, statements, k + 1, open, continuation);
    }
  }

  lemma {:induction false} HandlersStray(b: Building, handlers: seq<Handler>, ids: seq<BlockId>, k: nat, join: BlockId)
    requires k <= |handlers| == |ids| && LayHandlers(b, handlers, ids, k, join).Failed?
    ensures LayHandlers(b, handlers, ids, |handlers|, join) == LayHandlers(b, handlers, ids, k, join)
    decreases |handlers| - k
  {
    if k < |handlers| {
      assert LayHandlers(b, handlers, ids, k + 1, join) == LayHandlers(b, handlers, ids, k, join);
      HandlersStray(b, handlers, ids, k + 1, join);
    }
  }

  /** The graph of a function body. It fails exactly for a break or continue outside any loop;
      otherwise it holds the body, and every id it mentions is a block of it. */
  method BuildCfg(body: seq<Statement>) returns (cfg: Cfg)
    ensures cfg.CfgError? <==> StraysAll(body, false)
    ensures cfg.Cfg? ==> LayBody(body).Laid? && cfg.blocks == LayBody(body).b.blocks
    ensures cfg.Cfg? ==> HoldsAll(cfg.blocks, body) && Complete(cfg.blocks)
  {
    BodyFails(body);
    BodyComplete(body);
    if LayBody(body).Laid? {
      LayoutMeaning.BodyHeld(body);
    }
    var builder := new Builder();
    var r := builder.Sequence(body, Open(ENTRY, []), None);
    match r {
      case Stray(keyword) => cfg := CfgError(keyword);
      case Done(end) =>
        if end.Some? {
          builder.Finish(end.value, Leave(None));
        }
        cfg := Cfg(builder.blocks);
    }
  }
}
