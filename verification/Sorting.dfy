/** Sorting by a key. */
module Sorting {
  ghost predicate SortedBy<T>(s: seq<T>, key: T -> int) {
    forall i, j :: 0 <= i < j < |s| ==> key(s[i]) <= key(s[j])
  }

  /** `r` is `s` in another order: its element `i` is the one that stood at `from[i]`. */
  ghost predicate Rearranges<T>(s: seq<T>, r: seq<T>, from: seq<nat>) {
    && |r| == |s| == |from| && multiset(r) == multiset(s)
    && (forall i :: 0 <= i < |r| ==> from[i] < |s| && r[i] == s[from[i]])
    && (forall i, j :: 0 <= i < j < |r| ==> from[i] != from[j])
  }

  lemma SameElements<T>(s: seq<T>, r: seq<T>, from: seq<nat>, x: T)
    requires Rearranges(s, r, from)
    ensures x in r <==> x in s
  {
    assert x in r <==> x in multiset(r);
    assert x in s <==> x in multiset(s);
  }

  /** Where an element with this key goes: after all that have no greater one. */
  method PlaceFor<T>(r: seq<T>, key: T -> int, k: int) returns (at: nat)
    requires SortedBy(r, key)
    ensures at <= |r|
    ensures (forall i :: 0 <= i < at ==> key(r[i]) <= k) && (forall i :: at <= i < |r| ==> k < key(r[i]))
  {
    at := |r|;
    while at > 0 && k < key(r[at - 1])
      invariant at <= |r| && forall i :: at <= i < |r| ==> k < key(r[i])
    {
      at := at - 1;
    }
  }

  function Insert<T>(s: seq<T>, at: nat, x: T): (r: seq<T>)
    requires at <= |s|
    ensures |r| == |s| + 1
  {
    s[..at] + [x] + s[at..]
  }

  lemma InsertedAt<T>(s: seq<T>, at: nat, x: T)
    requires at <= |s|
    ensures var r := Insert(s, at, x);
      && |r| == |s| + 1 && multiset(r) == multiset(s) + multiset{x}
      && forall i :: 0 <= i < |r| ==> r[i] == if i < at then s[i] else if i == at then x else s[i - 1]
  {
    assert s == s[..at] + s[at..];
  }

  lemma StillSorted<T>(r: seq<T>, key: T -> int, x: T, at: nat)
    requires SortedBy(r, key) && at <= |r|
    requires (forall i :: 0 <= i < at ==> key(r[i]) <= key(x)) && (forall i :: at <= i < |r| ==> key(x) < key(r[i]))
    ensures SortedBy(Insert(r, at, x), key)
  {
    InsertedAt(r, at, x);
    hide Insert;
  }

  lemma StillRearranges<T>(s: seq<T>, r: seq<T>, from: seq<nat>, x: T, at: nat)
    requires Rearranges(s, r, from) && at <= |r|
    ensures Rearranges(s + [x], Insert(r, at, x), Insert(from, at, |s|))
  {
    InsertedAt(r, at, x);
    InsertedAt(from, at, |s|);
    assert multiset(s + [x]) == multiset(s) + multiset{x};
    hide Insert;
  }

  /** The elements of `s` in the order of their keys, those with the same key as they stood. */
  method SortBy<T>(s: seq<T>, key: T -> int) returns (r: seq<T>, ghost from: seq<nat>)
    ensures SortedBy(r, key) && Rearranges(s, r, from)
  {
    r, from := [], [];
    for k := 0 to |s|
      invariant SortedBy(r, key) && Rearranges(s[..k], r, from)
    {
      var at := PlaceFor(r, key, key(s[k]));
      StillSorted(r, key, s[k], at);
      StillRearranges(s[..k], r, from, s[k], at);
      assert s[..k + 1] == s[..k] + [s[k]];
      r, from := Insert(r, at, s[k]), Insert(from, at, k);
    }
    assert s[..|s|] == s;
  }

  /** When no two elements have the same key, there is one way to sort them. */
  lemma {:induction false} OneOrder<T(!new)>(a: seq<T>, b: seq<T>, key: T -> int)
    requires SortedBy(a, key) && SortedBy(b, key) && forall x :: x in a <==> x in b
    requires forall i, j :: 0 <= i < j < |a| ==> key(a[i]) != key(a[j])
    requires forall i, j :: 0 <= i < j < |b| ==> key(b[i]) != key(b[j])
    ensures a == b
  {
    assert b != [] ==> b[0] in b;
    if a != [] {
      assert a[0] in a;
      var k :| 0 <= k < |b| && b[k] == a[0];
      assert b[0] in b;
      var l :| 0 <= l < |a| && a[l] == b[0];
      assert key(a[0]) <= key(b[0]) && key(b[0]) <= key(a[0]);
      forall x ensures x in a[1..] <==> x in b[1..] {
        RestOf(a, x, key);
        RestOf(b, x, key);
      }
      OneOrder(a[1..], b[1..], key);
    }
  }

  lemma RestOf<T(!new)>(a: seq<T>, x: T, key: T -> int)
    requires a != [] && forall i, j :: 0 <= i < j < |a| ==> key(a[i]) != key(a[j])
    ensures x in a[1..] <==> x in a && x != a[0]
  {
    assert a == [a[0]] + a[1..];
    forall i | 0 <= i < |a[1..]| ensures a[1..][i] != a[0] {
      assert a[1..][i] == a[i + 1];
    }
  }
}
