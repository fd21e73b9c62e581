/** Reading a template's markup in one pass that stands for every way its comments may end. The text
    is known by where its constructs start and what they are. */
module MarkupReading {
  import opened Options

  /** What a `<` starts, other than a comment: what the reading refuses, a construct that ends
      somewhere, perhaps left open, or nothing. */
  datatype Construct = Comment | Refused | Solid(end: nat, open: bool) | Plain

  /** `opens` says where a `<` stands, `close` where a comment close starting there would end. */
  datatype Markup = Markup(
    length: nat,
    opens: nat -> bool,
    construct: nat -> Construct,
    tag: nat -> bool,
    close: nat -> Option<nat>,
    inserted: nat -> bool)

  /** Constructs and closes end within the text, past their start, those left open at its end; closes
      end in the order they start. */
  ghost predicate Sane(m: Markup) {
    && (forall s: nat {:trigger m.construct(s)} :: s < m.length && m.construct(s).Solid? ==>
          s < m.construct(s).end <= m.length && (m.construct(s).open ==> m.construct(s).end == m.length))
    && (forall s: nat {:trigger m.close(s)} :: m.close(s).Some? ==> s < m.close(s).value <= m.length)
    && (forall s: nat, t: nat {:trigger m.close(s), m.close(t)} :: s < t && m.close(s).Some? && m.close(t).Some? ==>
      m.close(s).value <= m.close(t).value)
  }

  // ---- finding ----

  /** The next `<` from `p` on. */
  function Next(m: Markup, p: nat): (r: Option<nat>)
    ensures r.Some? ==> p <= r.value < m.length && m.opens(r.value) && forall q :: p <= q < r.value ==> !m.opens(q)
    ensures r.None? ==> forall q :: p <= q < m.length ==> !m.opens(q)
    decreases m.length - p
  {
    if p >= m.length then None
    else if m.opens(p) then Some(p)
    else Next(m, p + 1)
  }

  /** The start of the first comment close from `p` on. */
  function FirstClose(m: Markup, p: nat): (r: Option<nat>)
    ensures r.Some? ==> p <= r.value < m.length && m.close(r.value).Some? && forall q :: p <= q < r.value ==>
      m.close(q).None?
    ensures r.None? ==> forall q :: p <= q < m.length ==> m.close(q).None?
    decreases m.length - p
  {
    if p >= m.length then None
    else if m.close(p).Some? then Some(p)
    else FirstClose(m, p + 1)
  }

  /** The first template tag from `p` on, before `end`. */
  function FirstTag(m: Markup, p: nat, end: nat): (r: Option<nat>)
    ensures r.Some? ==> p <= r.value < end && m.tag(r.value) && forall q :: p <= q < r.value ==> !m.tag(q)
    ensures r.None? ==> forall q :: p <= q < end ==> !m.tag(q)
    decreases end - p
  {
    if p >= end then None
    else if m.tag(p) then Some(p)
    else FirstTag(m, p + 1, end)
  }

  /** How far a comment starting at `s` hides the text. */
  function HiddenTo(m: Markup, s: nat): nat {
    var c := FirstClose(m, s + 2);
    if c.Some? then c.value else m.length
  }

  predicate Inserts(m: Markup, s: nat) {
    exists q :: s + 4 <= q < HiddenTo(m, s) && m.inserted(q)
  }

  // ---- every reading ----

  ghost predicate InComment(m: Markup, s: nat, t: nat) {
    s + 4 <= t < HiddenTo(m, s) && m.tag(t)
  }

  /** Every reading of the text from `p`, in HTML data, accepts it and, if `settled` is asked,
      leaves nothing open. */
  ghost predicate AllAccept(m: Markup, settled: bool, p: nat)
    requires Sane(m)
    decreases m.length - p, 1
  {
    var next := Next(m, p);
    next.Some? ==> AllAcceptAt(m, settled, next.value)
  }

  /** Every reading accepts from the construct at `s` on. A tag of a comment may be
      what closes it; if none is, its own close does, or else it hides the rest. */
  ghost predicate AllAcceptAt(m: Markup, settled: bool, s: nat)
    requires Sane(m) && s < m.length
    decreases m.length - s, 0
  {
    match m.construct(s)
    case Refused => false
    case Plain => AllAccept(m, settled, s + 1)
    case Solid(end, open) => !(settled && open) && AllAccept(m, settled, end)
    case Comment =>
      var c := FirstClose(m, s + 2);
      && (forall q: nat {:trigger m.inserted(q)} :: s + 4 <= q < (if c.Some? then c.value else m.length) ==>
            !m.inserted(q))
      && (settled ==> c.Some?)
      && (forall t: nat {:trigger m.tag(t)} :: InComment(m, s, t) ==> AllAccept(m, settled, t + 1))
      && (c.Some? ==> AllAccept(m, settled, m.close(c.value).value))
  }

  // ---- the one reading ----

  /** Where the reading goes on after the construct at `s`: a comment ends at its first tag or its
      close. */
  function EndOf(m: Markup, s: nat): (e: nat)
    requires s < m.length
  {
    match m.construct(s)
    case Refused => m.length
    case Plain => s + 1
    case Solid(end, _) => end
    case Comment =>
      var tag, c := FirstTag(m, s + 4, HiddenTo(m, s)), FirstClose(m, s + 2);
      if tag.Some? then tag.value + 1 else if c.Some? && m.close(c.value).Some? then m.close(c.value).value
        else m.length
  }

  lemma EndIsLater(m: Markup, s: nat)
    requires Sane(m) && s < m.length
    ensures s < EndOf(m, s) <= m.length
  {
  }

  /** Where other readings of the comment at `s` resume: after its later tags, and at its close. */
  ghost function Resumes(m: Markup, s: nat): set<nat>
    requires s < m.length
  {
    if !m.construct(s).Comment? || FirstTag(m, s + 4, HiddenTo(m, s)).None? then {}
    else
      var first, c := FirstTag(m, s + 4, HiddenTo(m, s)).value, FirstClose(m, s + 2);
      (set t | first < t < HiddenTo(m, s) && m.tag(t) :: t + 1) + (if c.Some? && m.close(c.value).Some?
        then {m.close(c.value).value} else {})
  }

  ghost predicate Crosses(points: set<nat>, s: nat, e: nat) {
    exists x :: x in points && s < x < e
  }

  /** The construct at `s` is refused where it stands, or left open where nothing may be. */
  ghost predicate Stops(m: Markup, settled: bool, s: nat)
    requires s < m.length
  {
    match m.construct(s)
    case Refused => true
    case Plain => false
    case Solid(_, open) => settled && open
    case Comment => Inserts(m, s) || (settled && FirstClose(m, s + 2).None?)
  }

  /** The reading from `p` accepts, other readings resuming at `points`: none of these is inside a
      construct it reads. */
  ghost predicate Reads(m: Markup, settled: bool, p: nat, points: set<nat>)
    requires Sane(m)
    decreases m.length - p
  {
    var next := Next(m, p);
    next.Some? ==>
      var s := next.value;
      EndIsLater(m, s);
      && !Stops(m, settled, s) && !Crosses(points, s, EndOf(m, s))
      && Reads(m, settled, EndOf(m, s), points + Resumes(m, s))
  }

  lemma SameNext(m: Markup, p: nat, x: nat)
    requires p <= x && (Next(m, p).Some? ==> x <= Next(m, p).value)
    ensures Next(m, x) == Next(m, p)
  {
  }

  /** Readings merge: where the one reading accepts, every reading accepts, from where it stands and
      from every point where another resumes. */
  lemma {:induction false} ReadingsMerge(m: Markup, settled: bool, p: nat, points: set<nat>)
    requires Sane(m) && Reads(m, settled, p, points)
    ensures AllAccept(m, settled, p)
    ensures forall x :: x in points && p <= x ==> AllAccept(m, settled, x)
    decreases m.length - p
  {
    hide AllAcceptAt, Resumes, EndOf, Stops;
    if Next(m, p).Some? {
      var s := Next(m, p).value;
      EndIsLater(m, s);
      ReadingsMerge(m, settled, EndOf(m, s), points + Resumes(m, s));
      Accepts(m, settled, s, points);
    }
    forall x | x in points && p <= x ensures AllAccept(m, settled, x) {
      if Next(m, p).None? || x <= Next(m, p).value {
        SameNext(m, p, x);
      } else {
        assert !Crosses(points, Next(m, p).value, EndOf(m, Next(m, p).value));
        assert x in points + Resumes(m, Next(m, p).value);
      }
    }
  }

  /** All ways the construct at `s` may end accept, if the points they resume at do. */
  lemma Accepts(m: Markup, settled: bool, s: nat, points: set<nat>)
    requires Sane(m) && s < m.length && !Stops(m, settled, s) && AllAccept(m, settled, EndOf(m, s))
    requires forall x :: x in points + Resumes(m, s) && EndOf(m, s) <= x ==> AllAccept(m, settled, x)
    ensures AllAcceptAt(m, settled, s)
  {
    hide AllAccept;
    if m.construct(s).Comment? {
      var first, c := FirstTag(m, s + 4, HiddenTo(m, s)), FirstClose(m, s + 2);
      forall t: nat | InComment(m, s, t) ensures AllAccept(m, settled, t + 1) {
        if first.Some? && t > first.value {
          assert t + 1 in Resumes(m, s);
        }
      }
      if c.Some? && first.Some? {
        assert m.close(c.value).value in Resumes(m, s);
      }
    }
  }

  lemma NoTagNoResume(m: Markup, s: nat)
    requires s < m.length
    requires m.construct(s).Comment? ==> forall t: nat :: !InComment(m, s, t)
    ensures Resumes(m, s) == {}
  {
    var first := FirstTag(m, s + 4, HiddenTo(m, s));
    assert first.Some? ==> InComment(m, s, first.value) || !m.construct(s).Comment?;
  }

  /** Where no comment holds a tag there is one reading, and the text is accepted exactly when that
      reading accepts. */
  lemma {:induction false} OneReading(m: Markup, settled: bool, p: nat)
    requires Sane(m)
    requires forall s: nat, t: nat {:trigger InComment(m, s, t)} :: s < m.length && m.construct(s).Comment? ==>
      !InComment(m, s, t)
    ensures Reads(m, settled, p, {}) <==> AllAccept(m, settled, p)
    decreases m.length - p
  {
    if Next(m, p).Some? {
      var s := Next(m, p).value;
      EndIsLater(m, s);
      OneReading(m, settled, EndOf(m, s));
      NoTagNoResume(m, s);
      assert {} + Resumes(m, s) == {} && !Crosses({}, s, EndOf(m, s));
      hide Next, FirstTag, FirstClose;
      assert Inserts(m, s) <==> exists q: nat :: s + 4 <= q < HiddenTo(m, s) && m.inserted(q);
      assert Reads(m, settled, p, {}) <==> !Stops(m, settled, s) && Reads(m, settled, EndOf(m, s), {});
    }
  }

  // ---- the two queues ----

  ghost predicate Sorted(queue: seq<nat>) {
    forall i, j :: 0 <= i < j < |queue| ==> queue[i] <= queue[j]
  }

  /** The queues hold, in order, the points past `floor` where other readings resume. */
  ghost predicate Queued(points: set<nat>, tags: seq<nat>, closes: seq<nat>, floor: nat) {
    && Sorted(tags) && Sorted(closes)
    && (forall x :: x in tags || x in closes ==> x in points)
    && (forall x :: x in points && x > floor ==> x in tags || x in closes)
  }

  /** Takes off what is reached by `start`. */
  method Reached(queue: seq<nat>, start: nat) returns (rest: seq<nat>)
    requires Sorted(queue)
    ensures Sorted(rest) && (forall x :: x in rest <==> x in queue && x > start)
  {
    rest := queue;
    while rest != [] && rest[0] <= start
      invariant Sorted(rest)
      invariant forall x :: x in rest ==> x in queue
      invariant forall x :: x in queue && x > start ==> x in rest
      decreases |rest|
    {
      assert rest == [rest[0]] + rest[1..];
      rest := rest[1..];
    }
    forall x | x in rest ensures x > start {
      var i :| 0 <= i < |rest| && rest[i] == x;
      assert rest[0] <= rest[i];
    }
  }

  lemma FrontIsLeast(queue: seq<nat>, end: nat)
    requires Sorted(queue)
    ensures (queue != [] && queue[0] < end) <==> exists x :: x in queue && x < end
  {
    if queue != [] {
      assert queue[0] in queue;
    }
    if x :| x in queue && x < end {
      var i :| 0 <= i < |queue| && queue[i] == x;
      assert queue[0] <= queue[i];
    }
  }

  /** Decides `Crosses` from the fronts of the queues alone. */
  method Crossed(ghost points: set<nat>, tags0: seq<nat>, closes0: seq<nat>, ghost floor: nat, start: nat, end: nat)
      returns (crossed: bool, tags: seq<nat>, closes: seq<nat>)
    requires Queued(points, tags0, closes0, floor) && floor <= start
    ensures Queued(points, tags, closes, start)
    ensures crossed <==> Crosses(points, start, end)
    ensures forall x :: x in tags ==> x in tags0
    ensures forall x :: x in closes ==> x in closes0
  {
    if tags0 == [] && closes0 == [] {
      return false, tags0, closes0;
    }
    tags := Reached(tags0, start);
    closes := Reached(closes0, start);
    FrontIsLeast(tags, end);
    FrontIsLeast(closes, end);
    crossed := (tags != [] && tags[0] < end) || (closes != [] && closes[0] < end);
  }

  // ---- comments ----

  lemma CloseLater(m: Markup, p: nat, q: nat)
    requires p <= q
    ensures FirstClose(m, p).None? ==> FirstClose(m, q).None?
    ensures FirstClose(m, q).Some? ==> FirstClose(m, p).Some? && FirstClose(m, p).value <= FirstClose(m, q).value
    ensures FirstClose(m, p).Some? && q <= FirstClose(m, p).value ==> FirstClose(m, q) == FirstClose(m, p)
  {
  }

  /** The close found last, from `since`, and where it is known that none is left. */
  ghost predicate Closing(m: Markup, close: Option<nat>, since: nat, unclosedFrom: nat, position: nat) {
    && (close.Some? ==> since <= position + 2 && FirstClose(m, since) == close)
    && (unclosedFrom <= m.length ==> FirstClose(m, unclosedFrom + 2).None?)
  }

  /** `FirstClose` for the comment at `start`, reusing the answer for an earlier one where it still holds. */
  method CloseOf(m: Markup, close0: Option<nat>, ghost since0: nat, unclosedFrom0: nat, start: nat)
      returns (close: Option<nat>, ghost since: nat, unclosedFrom: nat)
    requires Closing(m, close0, since0, unclosedFrom0, start) && start < m.length
    ensures Closing(m, close, since, unclosedFrom, start) && close == FirstClose(m, start + 2)
  {
    close, since, unclosedFrom := close0, since0, unclosedFrom0;
    if start >= unclosedFrom {
      CloseLater(m, unclosedFrom + 2, start + 2);
      close := None;
    } else if close.None? || close.value < start + 2 {
      close, since := FirstClose(m, start + 2), start + 2;
      if close.None? {
        unclosedFrom := start;
      }
    } else {
      CloseLater(m, since, start + 2);
    }
  }

  /** `x` is right after a tag. */
  ghost predicate AfterTag(m: Markup, x: nat) {
    x > 0 && m.tag(x - 1)
  }

  /** The tags past `lastFirst`, the first tag of the comment read last, are listed up to
      `listedTo`, each once and in order. */
  ghost predicate Listed(m: Markup, points: set<nat>, tags: seq<nat>, lastFirst: nat, listedTo: nat) {
    && (forall x {:trigger AfterTag(m, x)} :: lastFirst + 1 < x <= listedTo && AfterTag(m, x) ==> x in points)
    && (forall x :: x in tags ==> x <= listedTo)
  }

  lemma SortedMore(queue: seq<nat>, x: nat)
    requires Sorted(queue) && forall y :: y in queue ==> y <= x
    ensures Sorted(queue + [x])
  {
    forall i | 0 <= i < |queue| ensures queue[i] <= x {
      assert queue[i] in queue;
    }
  }

  /** Lists the points after the tags from `from` on, before `end`. */
  method ListTags(m: Markup, tags0: seq<nat>, from: nat, end: nat) returns (tags: seq<nat>)
    requires Sorted(tags0) && forall x :: x in tags0 ==> x <= from
    ensures Sorted(tags)
    ensures forall x {:trigger AfterTag(m, x)} {:trigger x in tags} :: x in tags <==>
      x in tags0 || (from < x <= end && AfterTag(m, x))
  {
    tags := tags0;
    var tag := FirstTag(m, from, end);
    ghost var at := from;
    while tag.Some?
      invariant from <= at && tag == FirstTag(m, at, end) && Sorted(tags)
      invariant forall x :: x in tags ==> x <= at
      invariant forall x {:trigger AfterTag(m, x)} {:trigger x in tags} ::
        x in tags <==> x in tags0 || (from < x <= at && x <= end && AfterTag(m, x))
      decreases if at < end then end - at else 0
    {
      SortedMore(tags, tag.value + 1);
      tags := tags + [tag.value + 1];
      at := tag.value + 1;
      tag := FirstTag(m, tag.value + 1, end);
    }
  }

  /** No close queued ends after the first close from `position` on. */
  ghost predicate ClosesBehind(m: Markup, closes: seq<nat>, position: nat) {
    var c := FirstClose(m, position + 2);
    c.Some? && m.close(c.value).Some? ==> forall x :: x in closes ==> x <= m.close(c.value).value
  }

  lemma StillBehind(m: Markup, closes: seq<nat>, position: nat, later: nat)
    requires Sane(m) && ClosesBehind(m, closes, position) && position <= later
    ensures ClosesBehind(m, closes, later)
  {
    CloseLater(m, position + 2, later + 2);
  }

  /** A close found from `start` on is queued in order. */
  lemma CloseQueued(m: Markup, closes: seq<nat>, start: nat, later: nat)
    requires Sane(m) && Sorted(closes) && ClosesBehind(m, closes, start) && start <= later
      && FirstClose(m, start + 2).Some?
    ensures var end := m.close(FirstClose(m, start + 2).value).value;
      Sorted(closes + [end]) && ClosesBehind(m, closes + [end], later)
  {
    CloseLater(m, start + 2, later + 2);
    SortedMore(closes, m.close(FirstClose(m, start + 2).value).value);
  }

  /** The queues after a comment holding tags: its later tags and its close join them, those tags
      already listed for a comment around it being there. */
  lemma CommentQueued(
    m: Markup, points: set<nat>, tags: seq<nat>, closes: seq<nat>, start: nat, first: nat, lastFirst: nat,
      listedTo: nat,
    tags': seq<nat>, closes': seq<nat>)
    requires Sane(m) && start < m.length && m.construct(start).Comment? && FirstTag(m, start + 4, HiddenTo(m, start))
      == Some(first)
    requires Queued(points, tags, closes, start) && Listed(m, points, tags, lastFirst, listedTo)
      && (listedTo > 0 ==> lastFirst < first)
    requires Sorted(tags') && Sorted(closes')
    requires var from := if first + 1 > listedTo then first + 1 else listedTo;
      forall x {:trigger AfterTag(m, x)} {:trigger x in tags'} ::
        x in tags' <==> x in tags || (from < x <= HiddenTo(m, start) && AfterTag(m, x))
    requires var c := FirstClose(m, start + 2); closes' == closes + (if c.Some? then [m.close(c.value).value] else [])
    ensures Queued(points + Resumes(m, start), tags', closes', start)
    ensures Listed(m, points + Resumes(m, start), tags', first, if listedTo > HiddenTo(m, start) then listedTo
      else HiddenTo(m, start))
  {
    ResumesAre(m, start, first);
    hide HiddenTo, FirstTag, FirstClose, Resumes, AfterTag, Sorted, Sane;
  }

  /** The points where other readings of a comment resume. */
  lemma ResumesAre(m: Markup, start: nat, first: nat)
    requires Sane(m) && start < m.length && m.construct(start).Comment? && FirstTag(m, start + 4, HiddenTo(m, start))
      == Some(first)
    ensures var c := FirstClose(m, start + 2);
      forall x {:trigger x in Resumes(m, start)} {:trigger AfterTag(m, x)} :: x in Resumes(m, start) <==>
        (first + 1 < x <= HiddenTo(m, start) && AfterTag(m, x)) || (c.Some? && x == m.close(c.value).value)
  {
    var resumes, hidden, c := Resumes(m, start), HiddenTo(m, start), FirstClose(m, start + 2);
    hide HiddenTo, FirstTag, FirstClose;
    forall x | first + 1 < x <= hidden && AfterTag(m, x) ensures x in resumes {
      assert first < x - 1 < hidden && m.tag(x - 1) && x == (x - 1) + 1;
    }
  }

  // ---- the reading ----

  /** The verdict of the pass. An accepted text may leave a construct `open`; it is `settled` when what
      follows it is read as data. */
  datatype Reading = NotRead | Read(open: bool, settled: bool)

  /** Where the last construct other than a plain `<` stands that the reading from `p` reads. */
  ghost function LastRead(m: Markup, p: nat): (r: Option<nat>)
    requires Sane(m)
    ensures r.Some? ==> p <= r.value < m.length && !m.construct(r.value).Plain?
    decreases m.length - p
  {
    var next := Next(m, p);
    if next.None? then None
    else
      var s := next.value;
      EndIsLater(m, s);
      var later := LastRead(m, EndOf(m, s));
      if later.Some? then later else if m.construct(s).Plain? then None else Some(s)
  }

  /** The text ends inside a construct that is neither closed nor a comment. */
  ghost predicate EndsOpen(m: Markup)
    requires Sane(m)
  {
    var last := LastRead(m, 0);
    last.Some? && m.construct(last.value).Solid? && m.construct(last.value).open
  }

  /** Whether the text ends open is known, but for what is read from `position` on. */
  ghost predicate OpenSoFar(m: Markup, position: nat, open: bool)
    requires Sane(m)
  {
    var last := LastRead(m, position);
    EndsOpen(m) <==> if last.Some? then m.construct(last.value).Solid? && m.construct(last.value).open else open
  }

  /** Going past the construct at `s`. */
  lemma OpenPast(m: Markup, position: nat, open: bool, s: nat)
    requires Sane(m) && OpenSoFar(m, position, open) && Next(m, position) == Some(s)
    ensures var c := m.construct(s);
      OpenSoFar(m, EndOf(m, s), if c.Solid? then c.open else c.Plain? && open)
  {
    EndIsLater(m, s);
    hide EndsOpen;
  }

  /** What the whole reading comes to, from `position`. */
  ghost predicate Equivalent(m: Markup, position: nat, points: set<nat>, left: bool)
    requires Sane(m)
  {
    && (Reads(m, false, 0, {}) <==> Reads(m, false, position, points))
    && (Reads(m, true, 0, {}) <==> !left && Reads(m, true, position, points))
  }

  /** Going past the construct at `s`; `leaves` is whether it leaves something open. */
  lemma Past(m: Markup, position: nat, points: set<nat>, left: bool, s: nat, leaves: bool)
    requires Sane(m) && Equivalent(m, position, points, left) && Next(m, position) == Some(s)
    requires !Stops(m, false, s) && !Crosses(points, s, EndOf(m, s)) && (leaves <==> Stops(m, true, s))
    ensures Equivalent(m, EndOf(m, s), points + Resumes(m, s), left || leaves)
  {
    EndIsLater(m, s);
    hide Stops, Crosses, EndOf, Resumes, Next;
  }

  /** The construct at `s` refuses the text. */
  lemma Fails(m: Markup, position: nat, points: set<nat>, left: bool, s: nat)
    requires Sane(m) && Equivalent(m, position, points, left) && Next(m, position) == Some(s)
    requires Stops(m, false, s) || Crosses(points, s, EndOf(m, s))
    ensures !Reads(m, false, 0, {})
  {
  }

  /** Nothing is left to read. */
  lemma ReadToEnd(m: Markup, position: nat, points: set<nat>, left: bool)
    requires Sane(m) && Equivalent(m, position, points, left) && Next(m, position).None?
    ensures Reads(m, false, 0, {}) && AllAccept(m, false, 0)
    ensures Reads(m, true, 0, {}) <==> !left
    ensures !left ==> AllAccept(m, true, 0)
  {
    ReadingsMerge(m, false, 0, {});
    if !left {
      ReadingsMerge(m, true, 0, {});
    }
  }

  /** Where the reading of a comment goes on, and where others resume. */
  datatype Comments = Comments(
    tags: seq<nat>, closes: seq<nat>, listedTo: nat, ghost lastFirst: nat,
    close: Option<nat>, ghost since: nat, unclosedFrom: nat)

  ghost predicate CommentsOk(m: Markup, points: set<nat>, floor: nat, position: nat, c: Comments) {
    && floor <= position
    && Queued(points, c.tags, c.closes, floor) && Listed(m, points, c.tags, c.lastFirst, c.listedTo)
    && (c.listedTo > 0 ==> c.lastFirst < position)
    && ClosesBehind(m, c.closes, position) && Closing(m, c.close, c.since, c.unclosedFrom, position)
  }

  lemma NoResumes(m: Markup, s: nat)
    requires s < m.length && (!m.construct(s).Comment? || FirstTag(m, s + 4, HiddenTo(m, s)).None?)
    ensures Resumes(m, s) == {}
  {
  }

  /** How reading a comment ends: refused, hiding the rest of the text, or at a position, left open
      when nothing closes it. */
  datatype CommentEnd = Refusing | HidingRest | GoingOn(position: nat, left: bool)

  /** Goes past the construct from `start` to `end` unless a point of resumption is inside it. */
  method Pass(m: Markup, ghost points: set<nat>, ghost floor: nat, ghost position: nat, c0: Comments, start: nat,
      end: nat)
      returns (crossed: bool, c: Comments)
    requires Sane(m) && CommentsOk(m, points, floor, position, c0) && position <= start < end
    ensures crossed <==> Crosses(points, start, end)
    ensures CommentsOk(m, points, start, start, c) && c == c0.(tags := c.tags, closes := c.closes)
  {
    hide Queued, Sane;
    var tags, closes;
    crossed, tags, closes := Crossed(points, c0.tags, c0.closes, floor, start, end);
    StillBehind(m, c0.closes, position, start);
    c := c0.(tags := tags, closes := closes);
  }

  lemma StillOk(m: Markup, points: set<nat>, floor: nat, position: nat, later: nat, c: Comments)
    requires Sane(m) && CommentsOk(m, points, floor, position, c) && position <= later
    ensures CommentsOk(m, points, floor, later, c)
  {
    hide Queued, Listed, Sane;
    StillBehind(m, c.closes, position, later);
  }

  method ReadComment(m: Markup, ghost points: set<nat>, ghost floor: nat, ghost position: nat, c0: Comments, start: nat)
      returns (r: CommentEnd, c: Comments)
    requires Sane(m) && CommentsOk(m, points, floor, position, c0)
    requires Next(m, position) == Some(start) && start < m.length && m.construct(start).Comment?
    ensures r.Refusing? <==> Stops(m, false, start) || Crosses(points, start, EndOf(m, start))
    ensures r.HidingRest? ==> EndOf(m, start) == m.length && Stops(m, true, start)
    ensures r.GoingOn? ==> r.position == EndOf(m, start) && (r.left <==> Stops(m, true, start))
    ensures r.GoingOn? ==> CommentsOk(m, points + Resumes(m, start), start, r.position, c)
  {
    hide Queued, Listed, Sane, Resumes, Crosses, FirstTag, FirstClose, ClosesBehind, Closing, AfterTag;
    c := c0;
    StillOk(m, points, floor, position, start, c0);
    var close, unclosedFrom;
    ghost var since;
    close, since, unclosedFrom := CloseOf(m, c.close, c.since, c.unclosedFrom, start);
    c := c.(close := close, since := since, unclosedFrom := unclosedFrom);
    var hiddenTo := if close.None? then m.length else close.value;
    assert hiddenTo == HiddenTo(m, start);
    if Inserts(m, start) {
      return Refusing, c;
    }
    var firstTag := FirstTag(m, start + 4, hiddenTo);
    if firstTag.Some? {
      var crossed;
      crossed, c := Pass(m, points, floor, start, c, start, firstTag.value + 1);
      if crossed {
        return Refusing, c;
      }
      c := CommentRead(m, points, c, start, firstTag.value, hiddenTo);
      r := GoingOn(firstTag.value + 1, close.None?);
    } else {
      NoResumes(m, start);
      EndIsLater(m, start);
      var crossed;
      crossed, c := Pass(m, points, floor, start, c, start, if close.Some? then m.close(close.value).value
        else m.length);
      if crossed {
        return Refusing, c;
      }
      if close.None? {
        return HidingRest, c;
      }
      r := GoingOn(m.close(close.value).value, false);
      assert points + Resumes(m, start) == points;
      StillOk(m, points, start, start, r.position, c);
    }
  }

  /** Lists the later tags of a comment, and queues its close. */
  method CommentRead(m: Markup, ghost points: set<nat>, c0: Comments, start: nat, first: nat, hiddenTo: nat)
      returns (c: Comments)
    requires Sane(m) && CommentsOk(m, points, start, start, c0) && c0.close == FirstClose(m, start + 2)
    requires start < m.length && m.construct(start).Comment? && hiddenTo == HiddenTo(m, start)
      && FirstTag(m, start + 4, hiddenTo) == Some(first)
    ensures CommentsOk(m, points + Resumes(m, start), start, first + 1, c)
  {
    hide Queued, Listed, Sane, Resumes, AfterTag, FirstTag, FirstClose, HiddenTo, ClosesBehind, Closing;
    ListedBy(m, points, c0, start);
    var tags := ListTags(m, c0.tags, if first + 1 > c0.listedTo then first + 1 else c0.listedTo, hiddenTo);
    c := c0.(
      tags := tags, closes := c0.closes + (if c0.close.Some? then [m.close(c0.close.value).value] else []),
      listedTo := if c0.listedTo > hiddenTo then c0.listedTo else hiddenTo, lastFirst := first);
    ClosesNow(m, c0.closes, c.closes, start, first + 1);
    CommentQueued(m, points, c0.tags, c0.closes, start, first, c0.lastFirst, c0.listedTo, tags, c.closes);
    ClosingStill(m, c0.close, c0.since, c0.unclosedFrom, start, first + 1);
  }

  lemma ClosesNow(m: Markup, closes: seq<nat>, more: seq<nat>, start: nat, later: nat)
    requires Sane(m) && Sorted(closes) && ClosesBehind(m, closes, start) && start <= later
    requires var c := FirstClose(m, start + 2); more == closes + (if c.Some? then [m.close(c.value).value] else [])
    ensures Sorted(more) && ClosesBehind(m, more, later)
  {
    hide Sane, Sorted, FirstClose, ClosesBehind;
    if FirstClose(m, start + 2).Some? {
      CloseQueued(m, closes, start, later);
    } else {
      StillBehind(m, closes, start, later);
      assert more == closes;
    }
  }

  lemma ClosingStill(m: Markup, close: Option<nat>, since: nat, unclosedFrom: nat, start: nat, later: nat)
    requires Closing(m, close, since, unclosedFrom, start) && start <= later
    ensures Closing(m, close, since, unclosedFrom, later)
  {
  }

  lemma ListedBy(m: Markup, points: set<nat>, c: Comments, start: nat)
    requires CommentsOk(m, points, start, start, c)
    ensures Sorted(c.tags) && Sorted(c.closes) && forall x :: x in c.tags ==> x <= c.listedTo
  {
  }

  /** Reads the text once. It accepts exactly when the reading does that other readings resume in,
      and then every reading accepts; it ends in data exactly when nothing is left open and nothing
      at the end opens a construct, and then every reading ends in data. */
  method ReadMarkup(m: Markup, endsOpening: bool) returns (r: Reading)
    requires Sane(m)
    ensures r.Read? <==> Reads(m, false, 0, {})
    ensures r.Read? ==> (r.settled <==> Reads(m, true, 0, {}) && !endsOpening)
    ensures r.Read? ==> (r.open <==> EndsOpen(m))
    ensures r.Read? ==> AllAccept(m, false, 0)
    ensures r.Read? && r.settled ==> AllAccept(m, true, 0)
  {
    hide Sane, Reads, AllAccept, Stops, Crosses, CommentsOk, EndOf, Resumes, Equivalent, OpenSoFar, EndsOpen, LastRead;
    var position, open, left := 0, false, false;
    var c := Comments([], [], 0, 0, None, 0, m.length + 1);
    ghost var points: set<nat>, floor: nat := {}, 0;
    Beginning(m, c);
    while Next(m, position).Some?
      invariant position <= m.length && CommentsOk(m, points, floor, position, c)
      invariant Equivalent(m, position, points, open || left) && (open ==> position == m.length)
      invariant OpenSoFar(m, position, open)
      decreases m.length - position
    {
      var start := Next(m, position).value;
      EndIsLater(m, start);
      OpenPast(m, position, open, start);
      if m.construct(start).Comment? {
        var end;
        end, c := ReadComment(m, points, floor, position, c, start);
        match end {
          case Refusing =>
            Fails(m, position, points, open || left, start);
            return NotRead;
          case HidingRest =>
            StopsMore(m, start);
            Past(m, position, points, open || left, start, true);
            assert Next(m, EndOf(m, start)).None?;
            ReadToEnd(m, EndOf(m, start), points + Resumes(m, start), true);
            NothingLeft(m, EndOf(m, start), false);
            return Read(false, false);
          case GoingOn(next, unclosed) =>
            StopsMore(m, start);
            Past(m, position, points, open || left, start, unclosed);
            points, floor := points + Resumes(m, start), start;
            position, open, left := next, false, left || unclosed;
        }
      } else {
        StopsAt(m, start);
        NoResumes(m, start);
        var construct := m.construct(start);
        var end := if construct.Solid? then construct.end else if construct.Plain? then start + 1 else m.length;
        if construct.Refused? {
          Fails(m, position, points, open || left, start);
          return NotRead;
        }
        var crossed;
        crossed, c := Pass(m, points, floor, position, c, start, end);
        if crossed {
          Fails(m, position, points, open || left, start);
          return NotRead;
        }
        Past(m, position, points, open || left, start, construct.Solid? && construct.open);
        StillOk(m, points, start, start, end, c);
        assert points + Resumes(m, start) == points;
        floor := start;
        position, open := end, if construct.Solid? then construct.open else open;
      }
    }
    ReadToEnd(m, position, points, open || left);
    NothingLeft(m, position, open);
    r := Read(open, !open && !left && !endsOpening);
  }

  lemma NothingLeft(m: Markup, position: nat, open: bool)
    requires Sane(m) && OpenSoFar(m, position, open) && Next(m, position).None?
    ensures EndsOpen(m) <==> open
  {
  }

  lemma Beginning(m: Markup, c: Comments)
    requires Sane(m) && c == Comments([], [], 0, 0, None, 0, m.length + 1)
    ensures CommentsOk(m, {}, 0, 0, c) && Equivalent(m, 0, {}, false) && OpenSoFar(m, 0, false)
  {
  }

  lemma StopsMore(m: Markup, s: nat)
    requires s < m.length && m.construct(s).Comment?
    ensures Stops(m, false, s) ==> Stops(m, true, s)
  {
  }

  lemma StopsAt(m: Markup, s: nat)
    requires Sane(m) && s < m.length && !m.construct(s).Comment?
    ensures Stops(m, false, s) <==> m.construct(s).Refused?
    ensures Stops(m, true, s) <==> m.construct(s).Refused? || (m.construct(s).Solid? && m.construct(s).open)
    ensures m.construct(s).Solid? ==>
      EndOf(m, s) == m.construct(s).end && (m.construct(s).open ==> EndOf(m, s) == m.length)
    ensures m.construct(s).Plain? ==> EndOf(m, s) == s + 1
    ensures m.construct(s).Refused? ==> EndOf(m, s) == m.length
  {
  }
}
