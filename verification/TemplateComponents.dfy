/** The strongly connected components of the templates' references, by a search with an explicit
    stack of work instead of recursion. */
module TemplateComponents {
  import opened Graphs
  import opened Components

  // ---- the nodes waiting below the one at hand ----

  /** A node, and how many of its references were followed before it was put aside. */
  type Entry = (Node, nat)

  function Opened(path: seq<Entry>): set<Node> {
    set e | e in path :: e.0
  }

  /** The index of a node, or the one it is about to get. */
  function Top(s: Search, n: Node): nat {
    if n in s.index then s.index[n] else |s.index|
  }

  function Following(path: seq<Entry>, last: Node, i: nat): Node
    requires i < |path|
  {
    if i + 1 < |path| then path[i + 1].0 else last
  }

  /** Entry `i` waits for the node of the entry after it, or `last` at the end, that the reference
      before its position names. */
  ghost predicate Waits(succ: Table, s: Search, path: seq<Entry>, last: Node, i: nat)
    requires i < |path|
  {
    var (n, position) := path[i];
    && n in succ && 0 < position <= |succ[n]| && succ[n][position - 1] == Following(path, last, i)
    && n in s.index && Frame(succ, s, n, position - 1, Top(s, Following(path, last, i)))
  }

  ghost predicate Rising(s: Search, path: seq<Entry>, last: Node) {
    && (forall i :: 0 <= i < |path| ==> path[i].0 in s.index && s.index[path[i].0] < Top(s, last))
    && (forall i, j :: 0 <= i < j < |path| ==> s.index[path[i].0] < s.index[path[j].0])
  }

  ghost predicate Waiting(succ: Table, s: Search, path: seq<Entry>, last: Node) {
    && Rising(s, path, last)
    && forall i {:trigger Waits(succ, s, path, last, i)} :: 0 <= i < |path| ==> Waits(succ, s, path, last, i)
  }

  lemma WaitingFound(succ: Table, s: Search, path: seq<Entry>, n: Node)
    requires StackOk(s) && n !in s.index && Waiting(succ, s, path, n)
    ensures Waiting(succ, Found(s, n), path, n)
  {
    hide Frame;
    InFound(s, n, n);
    forall i | 0 <= i < |path| ensures Waits(succ, Found(s, n), path, n, i) {
      assert Waits(succ, s, path, n, i);
      FoundKeeps(succ, s, n, path[i].0, path[i].1 - 1, Top(s, Following(path, n, i)));
    }
  }

  lemma WaitingLowered(succ: Table, s: Search, path: seq<Entry>, n: Node, l: nat)
    requires n in s.index && n in s.low && Waiting(succ, s, path, n)
    ensures Waiting(succ, Lowered(s, n, l), path, n)
  {
    hide Frame;
    forall i | 0 <= i < |path| ensures Waits(succ, Lowered(s, n, l), path, n, i) {
      assert Waits(succ, s, path, n, i);
      LoweredKeeps(succ, s, n, l, path[i].0, path[i].1 - 1, Top(s, Following(path, n, i)));
    }
  }

  lemma WaitingCompleted(succ: Table, s: Search, path: seq<Entry>, n: Node, at: nat)
    requires StackOk(s) && n in s.index && at < |s.stack| && s.stack[at] == n && Waiting(succ, s, path, n)
    ensures Waiting(succ, Completed(s, at), path, n)
  {
    hide Frame;
    forall i | 0 <= i < |path| ensures Waits(succ, Completed(s, at), path, n, i) {
      assert Waits(succ, s, path, n, i);
      CompletedKeeps(succ, s, at, path[i].0, path[i].1 - 1, Top(s, Following(path, n, i)));
    }
  }

  /** `n` waits for a node not found yet. */
  lemma WaitingMore(succ: Table, s: Search, path: seq<Entry>, n: Node, k: nat)
    requires StackOk(s) && Waiting(succ, s, path, n) && n in s.index && n in succ && k < |succ[n]|
      && succ[n][k] !in s.index
    requires Frame(succ, s, n, k, |s.index|)
    ensures Waiting(succ, s, path + [(n, k + 1)], succ[n][k])
  {
    hide Frame;
    var more := path + [(n, k + 1)];
    forall i | 0 <= i < |more| ensures Waits(succ, s, more, succ[n][k], i) {
      if i < |path| {
        assert Waits(succ, s, path, n, i);
        assert Following(more, succ[n][k], i) == Following(path, n, i);
      }
    }
  }

  /** The node of the last entry, once what it waited for is finished. */
  lemma WaitingLess(succ: Table, s: Search, path: seq<Entry>, n: Node)
    requires StackOk(s) && Waiting(succ, s, path, n) && path != [] && n in s.index && Done(succ, s, n)
    ensures var e := path[|path| - 1];
            && e.0 in s.low && n in s.low && e.0 in s.index && e.0 in succ && 0 < e.1 <= |succ[e.0]|
            && Waiting(succ, Lowered(s, e.0, s.low[n]), path[..|path| - 1], e.0)
            && Frame(succ, Lowered(s, e.0, s.low[n]), e.0, e.1, |s.index|)
  {
    var less, e := path[..|path| - 1], path[|path| - 1];
    assert Waits(succ, s, path, n, |path| - 1);
    assert n in s.low && s.index[e.0] < s.index[n];
    hide Frame, Done, Rising, StackOk;
    ChildDone(succ, s, e.0, e.1 - 1, s.index[n]);
    assert Waiting(succ, s, less, e.0) by {
      LessWaiting(succ, s, path, n);
    }
    hide *;
    WaitingLowered(succ, s, less, e.0, s.low[n]);
  }

  /** What waits for the last entry, without it. */
  lemma LessWaiting(succ: Table, s: Search, path: seq<Entry>, n: Node)
    requires Waiting(succ, s, path, n) && path != []
    ensures Waiting(succ, s, path[..|path| - 1], path[|path| - 1].0)
  {
    hide Frame;
    var less, e := path[..|path| - 1], path[|path| - 1];
    forall i | 0 <= i < |less| ensures Waits(succ, s, less, e.0, i) {
      assert Waits(succ, s, path, n, i);
      assert Following(less, e.0, i) == Following(path, n, i);
    }
  }

  // ---- the node at hand ----

  /** `n` is open, its first `k` references followed. */
  ghost predicate Busy(succ: Table, s: Search, path: seq<Entry>, n: Node, k: nat) {
    && Inv(succ, s, Opened(path) + {n}) && n in s.index
    && Waiting(succ, s, path, n) && Frame(succ, s, n, k, |s.index|)
  }

  /** `n` is about to be found. */
  ghost predicate Fresh(succ: Table, s: Search, path: seq<Entry>, n: Node) {
    && Inv(succ, s, Opened(path)) && n in succ && n !in s.index && Waiting(succ, s, path, n)
    && forall g :: g in Opened(path) ==> Reaches(succ, g, n)
  }

  /** What holds whenever the next entry is taken. */
  ghost predicate AtWork(succ: Table, s: Search, work: seq<Entry>) {
    if work == [] then Inv(succ, s, {})
    else
      var path := work[..|work| - 1];
    var (n, k) := work[|work| - 1];
      if k == 0 then Fresh(succ, s, path, n) else Busy(succ, s, path, n, k)
  }

  lemma OpenedMore(path: seq<Entry>, e: Entry)
    ensures Opened(path + [e]) == Opened(path) + {e.0}
  {
    forall n ensures n in Opened(path + [e]) <==> n in Opened(path) + {e.0} {
      if n == e.0 {
        assert e in path + [e];
      }
    }
  }

  lemma EnterBusy(succ: Table, s: Search, path: seq<Entry>, n: Node)
    requires Fresh(succ, s, path, n)
    ensures Busy(succ, Found(s, n), path, n, 0)
  {
    InvHas(succ, s, Opened(path));
    hide Inv, Frame, Waiting;
    FoundOk(succ, s, Opened(path), n);
    WaitingFound(succ, s, path, n);
    InFound(s, n, n);
  }

  lemma InvHas(succ: Table, s: Search, gray: set<Node>)
    requires Inv(succ, s, gray)
    ensures Closed(succ) && StackOk(s) && s.index.Keys <= succ.Keys && Ordered(succ, s.components)
  {
  }

  lemma SeenBusy(succ: Table, s: Search, path: seq<Entry>, n: Node, k: nat)
    requires Busy(succ, s, path, n, k) && n in succ && k < |succ[n]| && succ[n][k] in s.index
    ensures n in s.low && Busy(succ, Seen(succ, s, n, k), path, n, k + 1)
  {
    BusyHas(succ, s, path, n, k);
    hide Inv, Frame, Waiting;
    SeenOk(succ, s, n, k, |s.index|);
    if succ[n][k] in s.stack {
      LoweredOk(succ, s, Opened(path) + {n}, n, s.index[succ[n][k]]);
      WaitingLowered(succ, s, path, n, s.index[succ[n][k]]);
    }
  }

  lemma BusyHas(succ: Table, s: Search, path: seq<Entry>, n: Node, k: nat)
    requires Busy(succ, s, path, n, k)
    ensures n in succ && k <= |succ[n]| && n in s.index && n in s.low && n in s.stack && s.low[n] <= s.index[n]
    ensures Closed(succ) && StackOk(s) && s.index.Keys <= succ.Keys
  {
  }

  lemma Reaching(succ: Table, s: Search, gray: set<Node>, n: Node, b: Node)
    requires Inv(succ, s, gray) && Latest(s, gray, n) && n in s.stack && Edge(succ, n, b)
    ensures forall g :: g in gray ==> Reaches(succ, g, b)
  {
    hide Reaches;
    forall g | g in gray ensures Reaches(succ, g, b) {
      assert Reaches(succ, g, n);
      ReachesEdge(succ, g, n, b);
    }
  }

  lemma LastOfPath(succ: Table, s: Search, path: seq<Entry>, n: Node)
    requires Rising(s, path, n) && n in s.index
    ensures Latest(s, Opened(path) + {n}, n) && n !in Opened(path)
  {
    forall g | g in Opened(path) ensures g in s.index && s.index[g] < s.index[n] {
      var e :| e in path && e.0 == g;
      var i :| 0 <= i < |path| && path[i] == e;
    }
  }

  lemma PushWork(succ: Table, s: Search, path: seq<Entry>, n: Node, k: nat)
    requires Busy(succ, s, path, n, k) && n in succ && k < |succ[n]| && succ[n][k] !in s.index
    ensures AtWork(succ, s, path + [(n, k + 1), (succ[n][k], 0)])
  {
    BusyHas(succ, s, path, n, k);
    LastOfPath(succ, s, path, n);
    assert Edge(succ, n, succ[n][k]);
    Reaching(succ, s, Opened(path) + {n}, n, succ[n][k]);
    hide Inv, Frame, Waiting;
    WaitingMore(succ, s, path, n, k);
    OpenedMore(path, (n, k + 1));
    assert path + [(n, k + 1), (succ[n][k], 0)] == (path + [(n, k + 1)]) + [(succ[n][k], 0)];
  }

  /** The state once `n`, at position `at` of the stack, is finished. */
  function Finished(s: Search, n: Node, at: nat): Search
    requires n in s.index && n in s.low && at <= |s.stack|
  {
    if s.low[n] == s.index[n] then Completed(s, at) else s
  }

  lemma FinishBusy(succ: Table, s: Search, path: seq<Entry>, n: Node, at: nat)
    requires n in succ && Busy(succ, s, path, n, |succ[n]|) && at < |s.stack| && s.stack[at] == n
    ensures n in s.low && Inv(succ, Finished(s, n, at), Opened(path)) && Done(succ, Finished(s, n, at), n)
    ensures Waiting(succ, Finished(s, n, at), path, n)
    ensures forall j :: at < j < |s.stack| ==> s.stack[j] != n
  {
    BusyHas(succ, s, path, n, |succ[n]|);
    LastOfPath(succ, s, path, n);
    assert Opened(path) + {n} - {n} == Opened(path);
    forall j | at < j < |s.stack| ensures s.stack[j] != n {
      assert s.index[s.stack[at]] < s.index[s.stack[j]];
    }
    hide Inv, Frame, Waiting, StackOk, Latest, Opened, Done;
    if s.low[n] == s.index[n] {
      CompletedOk(succ, s, Opened(path) + {n}, n, at);
      WaitingCompleted(succ, s, path, n, at);
    } else {
      FinishedOk(succ, s, Opened(path) + {n}, n);
    }
  }

  /** The low link of a finished node goes to the one that waits for it. */
  function Returned(s: Search, path: seq<Entry>, n: Node): Search
    requires n in s.low && (path != [] ==> path[|path| - 1].0 in s.low)
  {
    if path == [] then s else Lowered(s, path[|path| - 1].0, s.low[n])
  }

  lemma ReturnWork(succ: Table, s: Search, path: seq<Entry>, n: Node)
    requires Inv(succ, s, Opened(path)) && Done(succ, s, n) && Waiting(succ, s, path, n)
    ensures n in s.low && (path != [] ==> path[|path| - 1].0 in s.low)
    ensures AtWork(succ, Returned(s, path, n), path)
  {
    if path == [] {
      assert Opened(path) == {};
    } else {
      InvHas(succ, s, Opened(path));
      var less, e := path[..|path| - 1], path[|path| - 1];
      assert n in s.index && n in s.low;
      hide Inv, Done, Frame, Waiting;
      WaitingLess(succ, s, path, n);
      assert path == less + [e];
      OpenedMore(less, e);
      LoweredOk(succ, s, Opened(path), e.0, s.low[n]);
    }
  }

  lemma StartWork(succ: Table, s: Search, root: Node)
    requires Inv(succ, s, {}) && root in succ && root !in s.index
    ensures AtWork(succ, s, [(root, 0)])
  {
    hide Inv;
    assert Opened([]) == {};
  }

  lemma TakeWork(succ: Table, s: Search, work: seq<Entry>)
    requires AtWork(succ, s, work) && work != []
    ensures var path, (n, k) := work[..|work| - 1], work[|work| - 1];
            && n in succ
            && (k == 0 ==> n !in s.index && Busy(succ, Found(s, n), path, n, 0))
            && (k != 0 ==> Busy(succ, s, path, n, k))
  {
    hide Inv, Busy, Waiting;
    var path := work[..|work| - 1];
    var (n, k) := work[|work| - 1];
    if k == 0 {
      EnterBusy(succ, s, path, n);
    } else {
      BusyHas(succ, s, path, n, k);
    }
  }

  lemma DoneWork(succ: Table, s: Search)
    requires AtWork(succ, s, [])
    ensures Inv(succ, s, {})
  {
  }

  // ---- the search ----

  ghost function AsSets(components: seq<seq<Node>>): (r: seq<set<Node>>)
    ensures |r| == |components|
  {
    seq(|components|, k requires 0 <= k < |components| => set x | x in components[k])
  }

  lemma AsSetsMore(components: seq<seq<Node>>, c: seq<Node>)
    ensures AsSets(components + [c]) == AsSets(components) + [set x | x in c]
  {
  }

  /** The nodes not found, the one about to be found aside. */
  ghost function ToFind(references: Table, index: map<Node, nat>, work: seq<Entry>): set<Node> {
    references.Keys - index.Keys - (if work != [] && work[|work| - 1].1 == 0 then {work[|work| - 1].0} else {})
  }

  ghost predicate OnStack(onStack: set<Node>, stack: seq<Node>) {
    forall n {:trigger n in onStack} {:trigger n in stack} :: n in onStack <==> n in stack
  }

  /** No component lists a node twice. */
  ghost predicate EachOnce(components: seq<seq<Node>>) {
    forall k, i, j :: 0 <= k < |components| && 0 <= i < j < |components[k]| ==> components[k][i] != components[k][j]
  }

  /** One search: its tables, and the components it has completed. */
  class ComponentSearch {
    const references: Table
    var index: map<Node, nat>
    var low: map<Node, nat>
    var stack: seq<Node>
    var onStack: set<Node>
    var components: seq<seq<Node>>

    ghost function State(): Search
      reads this
    {
      Search(index, low, stack, AsSets(components))
    }

    constructor (references: Table)
      requires Closed(references)
      ensures this.references == references && Inv(references, State(), {}) && OnStack(onStack, stack)
        && EachOnce(components)
    {
      this.references := references;
      index, low, stack, onStack, components := map[], map[], [], {}, [];
      new;
      StartOk(references);
      assert AsSets(components) == [];
    }

    /** `current` is found. */
    method Enter(current: Node, ghost path: seq<Entry>)
      requires current in references && current !in index && Busy(references, Found(State(), current), path, current, 0)
      requires OnStack(onStack, stack)
      modifies this`index, this`low, this`stack, this`onStack
      ensures Busy(references, State(), path, current, 0) && OnStack(onStack, stack)
      ensures index.Keys == old(index.Keys) + {current}
    {
      hide Busy;
      index, low := index[current := |index|], low[current := |index|];
      stack, onStack := stack + [current], onStack + {current};
      assert State() == Found(old(State()), current);
    }

    /** Follows the references of `current` from `position` on, up to one not found yet. */
    method Follow(current: Node, position: nat, ghost path: seq<Entry>) returns (following: nat)
      requires Busy(references, State(), path, current, position) && OnStack(onStack, stack)
      modifies this`low
      ensures Busy(references, State(), path, current, following)
      ensures current in references && following <= |references[current]|
      ensures following < |references[current]| ==>
        references[current][following] in references && references[current][following] !in index
    {
      hide Busy;
      following := position;
      BusyHas(references, State(), path, current, following);
      while following < |references[current]| && references[current][following] in index
        invariant position <= following <= |references[current]|
        invariant Busy(references, State(), path, current, following)
      {
        BusyHas(references, State(), path, current, following);
        SeenBusy(references, State(), path, current, following);
        var below := references[current][following];
        if below in onStack {
          low := low[current := if index[below] < low[current] then index[below] else low[current]];
        }
        following := following + 1;
      }
      assert following < |references[current]| ==> Edge(references, current, references[current][following]);
    }

    /** Takes the stack off down to `current`, as a component. */
    method Complete(current: Node, ghost at: nat)
      requires at < |stack| && stack[at] == current && forall j :: at < j < |stack| ==> stack[j] != current
      requires OnStack(onStack, stack) && Sorted(State()) && EachOnce(components)
      modifies this`stack, this`onStack, this`components
      ensures State() == Completed(old(State()), at) && OnStack(onStack, stack) && EachOnce(components)
    {
      hide Sorted;
      ghost var was := stack;
      OnceEach(State());
      var component: seq<Node> := [];
      while component == [] || component[|component| - 1] != current
        invariant at <= |stack| <= |was| && stack == was[..|stack|]
        invariant component == [] ==> at < |stack|
        invariant |component| == |was| - |stack| && forall i :: 0 <= i < |component| ==>
          component[i] == was[|was| - 1 - i]
        invariant OnStack(onStack, stack) && components == old(components)
        decreases |stack|
      {
        DropLast(stack, onStack);
        component := component + [stack[|stack| - 1]];
        stack := stack[..|stack| - 1];
        onStack := onStack - {component[|component| - 1]};
      }
      forall i, j | 0 <= i < j < |component| ensures component[i] != component[j] {
        assert was[|was| - 1 - j] != was[|was| - 1 - i];
      }
      ReversedHolds(component, was[at..]);
      AsSetsMore(components, component);
      components := components + [component];
    }

    /** `current` is finished: its component is complete or waits, and its low link goes up. */
    method Finish(current: Node, path: seq<Entry>)
      requires current in references && Busy(references, State(), path, current, |references[current]|)
        && OnStack(onStack, stack) && EachOnce(components)
      modifies this`low, this`stack, this`onStack, this`components
      ensures AtWork(references, State(), path) && OnStack(onStack, stack) && EachOnce(components)
    {
      hide Busy, AtWork, Inv, Waiting, Done, Completed, Sorted, EachOnce;
      ghost var s := State();
      BusyHas(references, s, path, current, |references[current]|);
      ghost var at :| 0 <= at < |stack| && stack[at] == current;
      FinishBusy(references, s, path, current, at);
      if low[current] == index[current] {
        Complete(current, at);
      }
      ReturnWork(references, State(), path, current);
      if path != [] {
        var parent := path[|path| - 1].0;
        low := low[parent := if low[current] < low[parent] then low[current] else low[parent]];
      }
    }

    /** Finds all that `root` leads to. */
    method From(root: Node)
      requires Inv(references, State(), {}) && root in references && root !in index && OnStack(onStack, stack)
        && EachOnce(components)
      modifies this
      ensures Inv(references, State(), {}) && OnStack(onStack, stack) && EachOnce(components)
      ensures root in index && old(index.Keys) <= index.Keys
    {
      hide Inv, AtWork, Busy, EachOnce;
      var work: seq<Entry> := [(root, 0)];
      StartWork(references, State(), root);
      while work != []
        invariant AtWork(references, State(), work) && OnStack(onStack, stack) && EachOnce(components)
        invariant old(index.Keys) <= index.Keys && (root in index || work == [(root, 0)])
        decreases ToFind(references, index, work), |work|
      {
        var (current, position) := work[|work| - 1];
        var path := work[..|work| - 1];
        TakeWork(references, State(), work);
        if position == 0 {
          Enter(current, path);
        }
        var following := Follow(current, position, path);
        if following < |references[current]| {
          PushWork(references, State(), path, current, following);
          work := path + [(current, following + 1), (references[current][following], 0)];
        } else {
          Finish(current, path);
          work := path;
        }
      }
      DoneWork(references, State());
    }
  }

  /** The strongly connected components of `references`, each after all that it reaches. */
  method ComponentsOf(templates: seq<Node>, references: Table) returns (components: seq<seq<Node>>)
    requires Closed(references) && forall n :: n in templates <==> n in references
    ensures Ordered(references, AsSets(components)) && Popped(AsSets(components)) == references.Keys
    ensures EachOnce(components)
  {
    hide Inv, Ordered, EachOnce;
    var search := new ComponentSearch(references);
    var at := 0;
    while at < |templates|
      invariant at <= |templates| && Inv(references, search.State(), {}) && OnStack(search.onStack, search.stack)
        && EachOnce(search.components)
      invariant forall i :: 0 <= i < at ==> templates[i] in search.index
    {
      if templates[at] !in search.index {
        search.From(templates[at]);
      }
      at := at + 1;
    }
    NothingWaits(references, search.State());
    InvHas(references, search.State(), {});
    components := search.components;
  }

  lemma OnceEach(s: Search)
    requires Sorted(s)
    ensures forall i, j :: 0 <= i < j < |s.stack| ==> s.stack[i] != s.stack[j]
  {
    forall i, j | 0 <= i < j < |s.stack| ensures s.stack[i] != s.stack[j] {
      assert s.index[s.stack[i]] < s.index[s.stack[j]];
    }
  }

  lemma DropLast(stack: seq<Node>, onStack: set<Node>)
    requires stack != [] && forall i, j :: 0 <= i < j < |stack| ==> stack[i] != stack[j]
    requires OnStack(onStack, stack)
    ensures OnStack(onStack - {stack[|stack| - 1]}, stack[..|stack| - 1])
  {
    var less, last := stack[..|stack| - 1], stack[|stack| - 1];
    assert stack == less + [last];
    forall i | 0 <= i < |less| ensures less[i] != last {
      assert stack[i] != stack[|stack| - 1];
    }
  }

  lemma ReversedHolds(component: seq<Node>, part: seq<Node>)
    requires |component| == |part| && forall i :: 0 <= i < |component| ==> component[i] == part[|part| - 1 - i]
    ensures (set x | x in component) == (set x | x in part)
  {
    forall x ensures x in component <==> x in part {
      if x in part {
        var i :| 0 <= i < |part| && part[i] == x;
        assert component[|component| - 1 - i] == x;
      }
    }
  }
}
