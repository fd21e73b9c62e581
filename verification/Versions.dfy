/** Versions, the ranges specifiers describe, and whether a requirement may allow a version of a
    vulnerable range. */
module Versions {
  import opened Options

  /** The numbers of a version; there is always one. */
  type Version = v: seq<nat> | v != [] witness [0]

  datatype Operator = Equal | NotEqual | Less | AtMost | Greater | AtLeast | Compatible | Caret

  /** `wildcard` is whether the version is written with `.*` at its end. */
  datatype Clause = Clause(operator: Operator, wanted: Version, wildcard: bool)

  /** Alternatives of clauses that all hold; an empty specifier has one without clauses. */
  type Specifier = s: seq<seq<Clause>> | s != [] witness [[]]

  // ---- comparing, as tuples are compared ----

  function Zeros(n: int): (z: seq<nat>)
    ensures |z| == if n > 0 then n else 0
    ensures forall i :: 0 <= i < |z| ==> z[i] == 0
  {
    if n <= 0 then [] else Zeros(n - 1) + [0]
  }

  function Padded(v: seq<nat>, length: nat): (p: seq<nat>)
    ensures |v| <= |p| && length <= |p| && (|p| == length || |p| == |v|)
    ensures forall i :: 0 <= i < |p| ==> p[i] == if i < |v| then v[i] else 0
  {
    v + Zeros(length - |v|)
  }

  predicate TupleLess(a: seq<nat>, b: seq<nat>) {
    if b == [] then false
    else if a == [] then true
    else if a[0] != b[0] then a[0] < b[0]
    else TupleLess(a[1..], b[1..])
  }

  function Max(a: nat, b: nat): nat {
    if a > b then a else b
  }

  /** The least version the series of `wanted` stays below. */
  function Ceiling(operator: Operator, wanted: Version): Version {
    if operator.Compatible? then
      var series := if |wanted| > 1 then wanted[..|wanted| - 1] else [wanted[0]];
      series[|series| - 1 := series[|series| - 1] + 1]
    else Zeros(|wanted|)[FirstPart(wanted, 0) := wanted[FirstPart(wanted, 0)] + 1]
  }

  /** The first number from `i` on that is not zero, or else the last. */
  function FirstPart(wanted: Version, i: nat): (k: nat)
    requires i < |wanted|
    ensures i <= k < |wanted| && (wanted[k] != 0 || k == |wanted| - 1) && forall j :: i <= j < k ==> wanted[j] == 0
    decreases |wanted| - i
  {
    if wanted[i] != 0 || i == |wanted| - 1 then i else FirstPart(wanted, i + 1)
  }

  predicate SatisfiesClause(v: Version, c: Clause) {
    var length := Max(|v|, |c.wanted|);
    var mine, theirs := Padded(v, length), Padded(c.wanted, length);
    match c.operator
    case Equal => if c.wildcard then v[..if |c.wanted| < |v| then |c.wanted| else |v|] == c.wanted else mine == theirs
    case NotEqual => mine != theirs
    case Less => TupleLess(mine, theirs)
    case AtMost => !TupleLess(theirs, mine)
    case Greater => TupleLess(theirs, mine)
    case AtLeast => !TupleLess(mine, theirs)
    case _ =>
      var ceiling := Ceiling(c.operator, c.wanted);
      !TupleLess(mine, theirs) && TupleLess(Padded(v, |ceiling|), ceiling)
  }

  ghost predicate SatisfiesAll(v: Version, clauses: seq<Clause>) {
    forall c :: c in clauses ==> SatisfiesClause(v, c)
  }

  ghost predicate InRange(v: Version, s: Specifier) {
    exists clauses :: clauses in s && SatisfiesAll(v, clauses)
  }

  /** Whether a version is in a specifier. */
  method Satisfies(v: Version, s: Specifier) returns (r: bool)
    ensures r <==> InRange(v, s)
  {
    for i := 0 to |s|
      invariant forall j :: 0 <= j < i ==> !SatisfiesAll(v, s[j])
    {
      var all := true;
      for k := 0 to |s[i]|
        invariant all <==> forall j :: 0 <= j < k ==> SatisfiesClause(v, s[i][j])
      {
        if !SatisfiesClause(v, s[i][k]) {
          all := false;
        }
      }
      if all {
        assert SatisfiesAll(v, s[i]);
        return true;
      }
    }
    return false;
  }

  // ---- the order of versions ----

  function At(v: seq<nat>, i: nat): nat {
    if i < |v| then v[i] else 0
  }

  ghost predicate FirstDiffers(a: seq<nat>, b: seq<nat>, i: nat) {
    At(a, i) < At(b, i) && forall j: nat :: j < i ==> At(a, j) == At(b, j)
  }

  /** `a` is an earlier version than `b`, missing numbers counting as zero. */
  ghost predicate Below(a: seq<nat>, b: seq<nat>) {
    exists i: nat :: FirstDiffers(a, b, i)
  }

  ghost predicate Same(a: seq<nat>, b: seq<nat>) {
    forall i: nat :: At(a, i) == At(b, i)
  }

  /** Comparing tuples is comparing versions, provided the first is not the shorter. */
  lemma {:induction false} TupleLessIsBelow(a: seq<nat>, b: seq<nat>)
    requires |a| >= |b|
    ensures TupleLess(a, b) <==> Below(a, b)
  {
    if b == [] {
    } else if a[0] != b[0] {
      if a[0] < b[0] {
        assert FirstDiffers(a, b, 0);
      }
      if i: nat :| FirstDiffers(a, b, i) {
        assert i > 0 ==> At(a, 0) == At(b, 0);
      }
    } else {
      TupleLessIsBelow(a[1..], b[1..]);
      assert forall i: nat :: At(a[1..], i) == At(a, i + 1) && At(b[1..], i) == At(b, i + 1);
      if i: nat :| FirstDiffers(a[1..], b[1..], i) {
        assert forall j: nat :: j < i + 1 ==> At(a, j) == At(b, j) by {
          forall j: nat | j < i + 1 ensures At(a, j) == At(b, j) {
            if j > 0 {
              assert At(a[1..], j - 1) == At(b[1..], j - 1);
            }
          }
        }
        assert FirstDiffers(a, b, i + 1);
      }
      if i: nat :| FirstDiffers(a, b, i) {
        assert i > 0;
        assert At(a[1..], i - 1) < At(b[1..], i - 1);
        assert FirstDiffers(a[1..], b[1..], i - 1);
      }
    }
  }

  lemma PaddedSame(v: seq<nat>, length: nat)
    ensures Same(Padded(v, length), v)
  {
  }

  lemma BelowSame(a: seq<nat>, a': seq<nat>, b: seq<nat>, b': seq<nat>)
    requires Same(a, a') && Same(b, b') && Below(a, b)
    ensures Below(a', b')
  {
    var i: nat :| FirstDiffers(a, b, i);
    assert FirstDiffers(a', b', i);
  }

  lemma BelowOn(a: seq<nat>, b: seq<nat>, c: seq<nat>)
    requires Below(a, b) && Below(b, c)
    ensures Below(a, c)
  {
    var i: nat :| FirstDiffers(a, b, i);
    var j: nat :| FirstDiffers(b, c, j);
    assert FirstDiffers(a, c, if i < j then i else j);
  }

  lemma NotBelowItself(a: seq<nat>, b: seq<nat>)
    requires Below(a, b)
    ensures !Below(b, a) && !Same(a, b)
  {
    var i: nat :| FirstDiffers(a, b, i);
    forall j: nat ensures !FirstDiffers(b, a, j) {
      assert j > i ==> At(b, i) != At(a, i);
    }
  }

  /** Versions are totally ordered. */
  lemma Ordered(a: seq<nat>, b: seq<nat>)
    ensures Below(a, b) || Same(a, b) || Below(b, a)
  {
    var i: nat := 0;
    var n := Max(|a|, |b|);
    while i < n && At(a, i) == At(b, i)
      invariant i <= n && forall j: nat :: j < i ==> At(a, j) == At(b, j)
    {
      i := i + 1;
    }
    if i < n {
      assert FirstDiffers(a, b, i) || FirstDiffers(b, a, i);
    }
  }

  lemma PaddedLess(a: seq<nat>, b: seq<nat>, length: nat)
    requires length >= |b|
    ensures TupleLess(Padded(a, length), b) <==> Below(a, b)
  {
    var p := Padded(a, length);
    TupleLessIsBelow(p, b);
    PaddedSame(a, length);
    if Below(p, b) {
      BelowSame(p, a, b, b);
    }
    if Below(a, b) {
      BelowSame(a, p, b, b);
    }
  }

  lemma BothPadded(a: seq<nat>, b: seq<nat>, length: nat)
    requires length == Max(|a|, |b|)
    ensures TupleLess(Padded(a, length), Padded(b, length)) <==> Below(a, b)
    ensures Padded(a, length) == Padded(b, length) <==> Same(a, b)
  {
    var p, q := Padded(a, length), Padded(b, length);
    TupleLessIsBelow(p, q);
    PaddedSame(a, length);
    PaddedSame(b, length);
    if Below(p, q) {
      BelowSame(p, a, q, b);
    }
    if Below(a, b) {
      BelowSame(a, p, b, q);
    }
    if Same(a, b) {
      forall i | 0 <= i < length ensures p[i] == q[i] {
        assert At(a, i) == At(b, i);
      }
    }
    if p == q {
      forall i: nat ensures At(a, i) == At(b, i) {
        assert i < length ==> p[i] == q[i];
      }
    }
  }

  /** What each clause means in the order of versions. */
  lemma ClauseMeans(v: Version, c: Clause)
    ensures match c.operator
            case Equal => SatisfiesClause(v, c) <==> if c.wildcard then c.wanted <= v else Same(v, c.wanted)
            case NotEqual => SatisfiesClause(v, c) <==> !Same(v, c.wanted)
            case Less => SatisfiesClause(v, c) <==> Below(v, c.wanted)
            case AtMost => SatisfiesClause(v, c) <==> !Below(c.wanted, v)
            case Greater => SatisfiesClause(v, c) <==> Below(c.wanted, v)
            case AtLeast => SatisfiesClause(v, c) <==> !Below(v, c.wanted)
            case _ => SatisfiesClause(v, c) <==> !Below(v, c.wanted) && Below(v, Ceiling(c.operator, c.wanted))
  {
    var length := Max(|v|, |c.wanted|);
    BothPadded(v, c.wanted, length);
    BothPadded(c.wanted, v, length);
    if c.operator.Compatible? || c.operator.Caret? {
      var ceiling := Ceiling(c.operator, c.wanted);
      PaddedLess(v, ceiling, |ceiling|);
    }
  }

  // ---- where a series ends ----

  /** The numbers that every version of the series of `wanted` starts with: for `~=` all but the last,
      for `^` up to the first that is not zero. */
  ghost predicate IsSeries(operator: Operator, wanted: Version, series: Version) {
    && series <= wanted
    && match operator
       case Compatible => |series| == if |wanted| > 1 then |wanted| - 1 else 1
       case Caret => (series[|series| - 1] != 0 || series == wanted)
         && forall i :: 0 <= i < |series| - 1 ==> wanted[i] == 0
       case _ => false
  }

  ghost predicate PastSeries(series: Version, end: Version) {
    forall v: Version {:trigger Below(v, end)} :: series <= v ==> Below(v, end)
  }

  lemma ASeries(operator: Operator, wanted: Version) returns (series: Version)
    requires operator.Compatible? || operator.Caret?
    ensures IsSeries(operator, wanted, series)
  {
    if operator.Compatible? {
      series := if |wanted| > 1 then wanted[..|wanted| - 1] else wanted;
    } else {
      series := wanted[..FirstPart(wanted, 0) + 1];
    }
  }

  /** The ceiling is the series with its last number one higher. */
  lemma CeilingIs(operator: Operator, wanted: Version, series: Version)
    requires IsSeries(operator, wanted, series)
    ensures var last := |series| - 1;
      (forall i: nat :: i < last ==> At(Ceiling(operator, wanted), i) == series[i])
      && At(Ceiling(operator, wanted), last) == series[last] + 1
      && forall i: nat :: last < i ==> At(Ceiling(operator, wanted), i) == 0
  {
    if operator.Caret? {
      var k := FirstPart(wanted, 0);
      assert wanted[|series| - 1] == series[|series| - 1];
    }
  }

  lemma EndsNoSooner(series: Version, ceiling: Version, end: Version, i: nat)
    requires PastSeries(series, end) && At(ceiling, |series| - 1) == series[|series| - 1] + 1
    requires forall k: nat :: k < |series| - 1 ==> At(ceiling, k) == series[k]
    requires forall k: nat :: |series| - 1 < k ==> At(ceiling, k) == 0
    ensures !FirstDiffers(end, ceiling, i)
  {
    var last := |series| - 1;
    var v: Version := series + [At(end, |series|) + 1];
    assert Below(v, end);
    var j: nat :| FirstDiffers(v, end, j);
    assert At(v, |series|) > At(end, |series|);
    assert forall k: nat :: k <= last ==> At(v, k) == series[k];
    assert j <= last && At(ceiling, j) <= At(end, j);
    assert forall k: nat :: k < j ==> At(ceiling, k) == At(end, k);
  }

  /** The ceiling of `~=` and `^` is the least version past every version of the series. */
  lemma SeriesEnds(operator: Operator, wanted: Version, series: Version)
    requires IsSeries(operator, wanted, series)
    ensures PastSeries(series, Ceiling(operator, wanted))
    ensures forall end: Version :: PastSeries(series, end) ==> !Below(end, Ceiling(operator, wanted))
  {
    var ceiling, last := Ceiling(operator, wanted), |series| - 1;
    CeilingIs(operator, wanted, series);
    forall v: Version | series <= v ensures Below(v, ceiling) {
      assert forall i: nat :: i <= last ==> At(v, i) == series[i];
      assert FirstDiffers(v, ceiling, last);
    }
    forall end: Version, i: nat | PastSeries(series, end) ensures !FirstDiffers(end, ceiling, i) {
      EndsNoSooner(series, ceiling, end, i);
    }
  }

  // ---- requirements ----

  /** A declared requirement, or one pinned to a version. */
  datatype Requirement = Requirement(specifier: Specifier, pinned: Option<Version>)

  predicate BoundsBelow(operator: Operator) {
    operator.AtLeast? || operator.Greater? || operator.Compatible? || operator.Caret? || operator.Equal?
  }

  ghost predicate IsBound(s: Specifier, v: Version) {
    exists clauses, c :: clauses in s && c in clauses && c.wanted == v
      && !c.operator.NotEqual? && !c.operator.Less? && !c.operator.AtMost?
  }

  /** The versions the clauses bound their range below by. */
  method LowerBounds(s: Specifier) returns (bounds: seq<Version>)
    ensures forall v :: v in bounds <==> IsBound(s, v)
  {
    bounds := [];
    for i := 0 to |s|
      invariant forall v :: v in bounds <==>
        exists j, c :: 0 <= j < i && c in s[j] && BoundsBelow(c.operator) && c.wanted == v
    {
      ghost var before := bounds;
      for k := 0 to |s[i]|
        invariant forall v :: v in bounds <==>
          v in before || exists h :: 0 <= h < k && BoundsBelow(s[i][h].operator) && s[i][h].wanted == v
      {
        if BoundsBelow(s[i][k].operator) {
          bounds := bounds + [s[i][k].wanted];
        }
      }
      forall v ensures v in bounds <==>
        exists j, c :: 0 <= j < i + 1 && c in s[j] && BoundsBelow(c.operator) && c.wanted == v {
        if h :| 0 <= h < |s[i]| && BoundsBelow(s[i][h].operator) && s[i][h].wanted == v {
          assert s[i][h] in s[i];
        }
      }
    }
  }

  ghost predicate InBoth(v: Version, s: Specifier, vulnerable: Specifier) {
    InRange(v, s) && InRange(v, vulnerable)
  }

  /** Some version is in both ranges. */
  ghost predicate Overlap(s: Specifier, vulnerable: Specifier) {
    exists v: Version :: InBoth(v, s, vulnerable)
  }

  /** One of the versions tried is in both ranges. */
  ghost predicate Found(s: Specifier, vulnerable: Specifier) {
    exists v: Version :: InBoth(v, s, vulnerable) && (v == [0] || IsBound(s, v) || IsBound(vulnerable, v))
  }

  ghost predicate Uses(s: Specifier, operators: set<Operator>) {
    forall clauses, c :: clauses in s && c in clauses ==> c.operator in operators
  }

  /** Whether the requirement allows a version of the range. */
  method MayMatch(requirement: Requirement, vulnerable: Specifier) returns (r: bool)
    ensures requirement.pinned.Some? ==> (r <==> InRange(requirement.pinned.value, vulnerable))
    ensures requirement.pinned.None? ==> (r <==> Found(requirement.specifier, vulnerable))
  {
    if requirement.pinned.Some? {
      r := Satisfies(requirement.pinned.value, vulnerable);
      return;
    }
    var s := requirement.specifier;
    var mine := LowerBounds(s);
    var theirs := LowerBounds(vulnerable);
    var candidates: seq<Version> := [[0]] + mine + theirs;
    for k := 0 to |candidates|
      invariant forall j :: 0 <= j < k ==> !InBoth(candidates[j], s, vulnerable)
    {
      var one := Satisfies(candidates[k], s);
      var other := Satisfies(candidates[k], vulnerable);
      if one && other {
        assert candidates[k] == [0] || candidates[k] in mine || candidates[k] in theirs;
        assert InBoth(candidates[k], s, vulnerable);
        return true;
      }
    }
    forall v: Version | v == [0] || IsBound(s, v) || IsBound(vulnerable, v) ensures !InBoth(v, s, vulnerable) {
      assert v in candidates;
    }
    return false;
  }

  // ---- when the versions tried are enough ----

  lemma NotAbove(a: seq<nat>, b: seq<nat>, c: seq<nat>)
    requires !Below(b, a) && !Below(c, b)
    ensures !Below(c, a)
  {
    Ordered(a, b);
    Ordered(b, c);
    if Below(c, a) {
      if Below(a, b) {
        BelowOn(c, a, b);
      } else {
        BelowSame(c, c, a, b);
      }
    }
  }

  /** The greatest of the versions, and the longest of those that are the same. */
  lemma {:induction false} Greatest(versions: seq<Version>) returns (m: Version)
    requires versions != []
    ensures m in versions && forall b :: b in versions ==> Below(b, m) || (Same(b, m) && |b| <= |m|)
  {
    var last := versions[|versions| - 1];
    if |versions| == 1 {
      m := last;
    } else {
      var rest := versions[..|versions| - 1];
      var n := Greatest(rest);
      Ordered(n, last);
      m := if Below(n, last) || (Same(n, last) && |n| <= |last|) then last else n;
      assert versions == rest + [last];
      forall b | b in versions ensures Below(b, m) || (Same(b, m) && |b| <= |m|) {
        if b in rest && m == last {
          if Below(b, n) && Below(n, m) {
            BelowOn(b, n, m);
          } else if Below(b, n) {
            BelowSame(b, b, n, m);
          } else if Below(n, m) {
            BelowSame(n, b, m, m);
          }
        }
      }
    }
  }

  lemma PrefixNotAbove(p: Version, v: Version)
    requires p <= v
    ensures !Below(v, p)
  {
    forall i: nat ensures !FirstDiffers(v, p, i) {
      assert i < |p| ==> At(v, i) == At(p, i);
    }
  }

  /** What lies between a version and one that starts with it starts with it too, unless it is the
      same and shorter. */
  lemma Between(p: Version, m: Version, v: Version)
    requires p <= v && !Below(v, m) && (Below(p, m) || (Same(p, m) && |p| <= |m|))
    ensures p <= m
  {
    if Below(p, m) {
      var i: nat :| FirstDiffers(p, m, i);
      if i < |p| {
        assert FirstDiffers(v, m, i) by {
          forall j: nat | j <= i ensures At(v, j) == At(p, j) {
          }
        }
      } else {
        forall j | 0 <= j < |p| ensures p[j] == m[j] {
          assert At(p, j) == At(m, j);
        }
      }
    } else {
      forall j | 0 <= j < |p| ensures p[j] == m[j] {
        assert At(p, j) == At(m, j);
      }
    }
  }

  lemma BoundNotAbove(v: Version, c: Clause)
    requires SatisfiesClause(v, c) && BoundsBelow(c.operator) && !c.operator.Greater?
    ensures !Below(v, c.wanted)
  {
    ClauseMeans(v, c);
    if c.operator.Equal? {
      if c.wildcard {
        PrefixNotAbove(c.wanted, v);
      } else if Below(v, c.wanted) {
        NotBelowItself(v, c.wanted);
      }
    }
  }

  /** A version no later than one in a clause's range, and no earlier than the clause's bound, is
      in it too. */
  lemma StaysInClause(v: Version, m: Version, c: Clause)
    requires SatisfiesClause(v, c) && !c.operator.Greater? && !c.operator.NotEqual? && !Below(v, m)
    requires BoundsBelow(c.operator) ==> Below(c.wanted, m) || (Same(c.wanted, m) && |c.wanted| <= |m|)
    ensures SatisfiesClause(m, c)
  {
    ClauseMeans(v, c);
    ClauseMeans(m, c);
    var w := c.wanted;
    match c.operator
    case Equal =>
      if c.wildcard {
        Between(w, m, v);
      } else {
        if Below(w, m) {
          BelowSame(w, v, m, m);
        }
      }
    case Less => Earlier(m, v, w);
    case AtMost => NotAbove(m, v, w);
    case AtLeast => BoundBelow(w, m);
    case _ =>
      BoundBelow(w, m);
      Earlier(m, v, Ceiling(c.operator, w));
  }

  lemma BoundBelow(w: seq<nat>, m: seq<nat>)
    requires Below(w, m) || Same(w, m)
    ensures !Below(m, w)
  {
    if Below(w, m) {
      NotBelowItself(w, m);
    } else if Below(m, w) {
      NotBelowItself(m, w);
    }
  }

  lemma Earlier(m: seq<nat>, v: seq<nat>, w: seq<nat>)
    requires !Below(v, m) && Below(v, w)
    ensures Below(m, w)
  {
    Ordered(v, m);
    if Below(m, v) {
      BelowOn(m, v, w);
    } else {
      BelowSame(v, m, w, w);
    }
  }

  /** The bounds of some clauses. */
  function Bounds(clauses: seq<Clause>): (bounds: seq<Version>)
    ensures forall v :: v in bounds <==> exists c :: c in clauses && BoundsBelow(c.operator) && c.wanted == v
  {
    if clauses == [] then []
    else
      var rest, last := clauses[..|clauses| - 1], clauses[|clauses| - 1];
      assert clauses == rest + [last];
      Bounds(rest) + if BoundsBelow(last.operator) then [last.wanted] else []
  }

  lemma NoneBelowZero(v: Version)
    ensures !Below(v, [0])
  {
    assert forall i: nat :: !FirstDiffers(v, [0], i);
  }

  /** Without `>` and `!=`, if any version is in both ranges, one of those tried is. */
  lemma TriedIsEnough(s: Specifier, vulnerable: Specifier, v: Version)
    requires InBoth(v, s, vulnerable)
    requires forall clauses, c :: (clauses in s || clauses in vulnerable) && c in clauses ==>
      !c.operator.Greater? && !c.operator.NotEqual?
    ensures Found(s, vulnerable)
  {
    hide SatisfiesClause, Below;
    var one :| one in s && SatisfiesAll(v, one);
    var other :| other in vulnerable && SatisfiesAll(v, other);
    var zero: Version := [0];
    var bounds := [zero] + Bounds(one) + Bounds(other);
    var m := Greatest(bounds);
    forall b | b in bounds ensures !Below(v, b) {
      if b == zero {
        NoneBelowZero(v);
      } else {
        var c :| (c in one || c in other) && BoundsBelow(c.operator) && c.wanted == b;
        BoundNotAbove(v, c);
      }
    }
    forall c | c in one || c in other ensures SatisfiesClause(m, c) {
      if BoundsBelow(c.operator) {
        assert c.wanted in bounds;
      }
      StaysInClause(v, m, c);
    }
    assert SatisfiesAll(m, one) && SatisfiesAll(m, other);
    assert InBoth(m, s, vulnerable);
  }

  /** `>` has no version that bounds its range from inside. */
  lemma GreaterFails()
    ensures var s: Specifier, all: Specifier := [[Clause(Greater, [1], false)]], [[]];
            Overlap(s, all) && !Found(s, all) && Uses(s, {Greater}) && Uses(all, {Greater})
  {
    var c := Clause(Greater, [1], false);
    var s: Specifier, all: Specifier := [[c]], [[]];
    var two: Version, one: Version, zero: Version := [2], [1], [0];
    assert FirstDiffers(one, two, 0);
    ClauseMeans(two, c);
    assert SatisfiesAll(two, s[0]) && SatisfiesAll(two, all[0]);
    assert InBoth(two, s, all);
    forall v: Version | v == zero || IsBound(s, v) || IsBound(all, v) ensures !InBoth(v, s, all) {
      assert v == zero || v == one;
      ClauseMeans(v, c);
      assert forall i: nat :: !FirstDiffers(one, v, i);
      assert c in s[0];
    }
  }

  /** `!=` may exclude the very version that is tried. */
  lemma NotEqualFails()
    ensures var s: Specifier, all: Specifier := [[Clause(NotEqual, [0], false)]], [[]];
            Overlap(s, all) && !Found(s, all) && Uses(s, {NotEqual}) && Uses(all, {NotEqual})
  {
    var c := Clause(NotEqual, [0], false);
    var s: Specifier, all: Specifier := [[c]], [[]];
    var one: Version, zero: Version := [1], [0];
    ClauseMeans(one, c);
    assert At(one, 0) != At(zero, 0);
    assert SatisfiesAll(one, s[0]) && SatisfiesAll(one, all[0]);
    assert InBoth(one, s, all);
    forall v: Version | v == zero || IsBound(s, v) || IsBound(all, v) ensures !InBoth(v, s, all) {
      assert v == zero;
      ClauseMeans(v, c);
      assert c in s[0];
    }
  }

  /** The versions tried are enough for every specifier written with some operators exactly when
      neither `>` nor `!=` is among them. */
  lemma EnoughFor(operators: set<Operator>)
    ensures (forall s: Specifier, vulnerable: Specifier {:trigger Found(s, vulnerable)} ::
               Uses(s, operators) && Uses(vulnerable, operators) ==> (Found(s, vulnerable) <==> Overlap(s, vulnerable)))
            <==> Greater !in operators && NotEqual !in operators
  {
    if Greater in operators {
      GreaterFails();
    } else if NotEqual in operators {
      NotEqualFails();
    } else {
      forall s: Specifier, vulnerable: Specifier | Uses(s, operators) && Uses(vulnerable, operators)
        ensures Found(s, vulnerable) <==> Overlap(s, vulnerable)
      {
        if v: Version :| InBoth(v, s, vulnerable) {
          TriedIsEnough(s, vulnerable, v);
        }
      }
    }
  }
}
