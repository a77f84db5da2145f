/** Sorting of identifiers, as `sorted` does it on names of which only the order matters. */
module Sorting {
  import opened Ordering

  ghost predicate Ascending(s: seq<nat>) {
    forall i, k :: 0 <= i < k < |s| ==> s[i] < s[k]
  }

  ghost predicate Distinct(s: seq<nat>) {
    AllDifferent(s)
  }

  predicate AtMost(a: nat, b: nat) {
    a <= b
  }

  function Sort(s: seq<nat>): seq<nat> {
    SortBy(AtMost, s)
  }

  lemma SortAscends(a: seq<nat>)
    requires Distinct(a)
    ensures Ascending(Sort(a)) && forall x :: x in Sort(a) <==> x in a
  {
    SortBySorts(AtMost, a);
    MultisetDifferent(a, Sort(a));
  }

  /** Ascending lists with the same elements are equal. */
  lemma AscendingIsUnique(a: seq<nat>, b: seq<nat>)
    requires Ascending(a) && Ascending(b) && forall x :: x in a <==> x in b
    ensures a == b
  {
    SameMembers(a, b);
    SortedByUnique(AtMost, a, b);
  }

  /** The keys of a dictionary, sorted: the least first. */
  method SortedKeys(keys: set<nat>) returns (ids: seq<nat>)
    ensures Ascending(ids) && forall x :: x in ids <==> x in keys
  {
    var list := [];
    var rest := keys;
    while rest != {}
      invariant rest <= keys && Distinct(list)
      invariant forall x :: x in list <==> x in keys && x !in rest
      decreases rest
    {
      var x :| x in rest;
      rest := rest - {x};
      list := list + [x];
    }
    SortAscends(list);
    ids := Sort(list);
  }

  ghost function Elements(s: seq<nat>): set<nat> {
    set x | x in s
  }

  lemma SortedElements(r: seq<nat>, s: set<nat>)
    requires forall x :: x in r <==> x in s
    ensures Elements(r) == s && (r == [] <==> s == {})
  {
    if r != [] { assert r[0] in r; }
    if s != {} {
      var x :| x in s;
      assert x in r;
    }
  }

  lemma {:induction false} SubsetSize<T>(a: set<T>, b: set<T>)
    requires a <= b
    ensures |a| <= |b|
  {
    if a != {} {
      var x :| x in a;
      SubsetSize(a - {x}, b - {x});
    }
  }

  function Below(n: nat): (s: set<nat>)
    ensures forall i :: i in s <==> 0 <= i < n
  {
    if n == 0 then {} else Below(n - 1) + {n - 1}
  }

  function Upto(n: nat): (r: seq<nat>)
    ensures |r| == n && forall i :: 0 <= i < n ==> r[i] == i
  {
    seq(n, i => i)
  }
}
