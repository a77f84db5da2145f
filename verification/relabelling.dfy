/** Enumerating sets of indices, and what a renumbering leaves alone. */
module Relabelling {
  import opened Ordering
  import opened Sorting

  /** The members of `s` below `n`, ascending. */
  function Listed(s: set<nat>, n: nat): (r: seq<nat>)
    ensures Ascending(r) && forall x :: x in r <==> x in s && x < n
  {
    if n == 0 then []
    else
      var r := Listed(s, n - 1);
      if n - 1 in s then
        assert forall x: nat :: x in r + [n - 1] <==> x in r || x == n - 1;
        assert forall x :: x in r ==> x < n - 1;
        assert forall i :: 0 <= i < |r| ==> r[i] in r;
        r + [n - 1]
      else r
  }

  function Over<T>(f: nat -> T, s: seq<nat>): (r: seq<T>)
    ensures |r| == |s| && forall i :: 0 <= i < |s| ==> r[i] == f(s[i])
  {
    seq(|s|, i requires 0 <= i < |s| => f(s[i]))
  }

  /** `p` renumbers `0..|p|`. */
  ghost predicate Renumbers(p: seq<nat>) {
    AllDifferent(p) && (forall x :: x in p ==> x < |p|) && forall x: nat :: x < |p| ==> x in p
  }

  ghost function Image(p: seq<nat>, s: set<nat>): set<nat> {
    set x | x in s && x < |p| :: p[x]
  }

  function At(p: seq<nat>, i: nat): nat {
    if i < |p| then p[i] else 0
  }

  lemma {:induction false} OverMultiset<T(!new)>(f: nat -> T, a: seq<nat>, b: seq<nat>)
    requires multiset(a) == multiset(b)
    ensures multiset(Over(f, a)) == multiset(Over(f, b))
  {
    if a == [] {
      assert |b| == |multiset(b)| == 0;
    } else {
      assert a[0] in multiset(b);
      var k :| 0 <= k < |b| && b[k] == a[0];
      var c := b[..k] + b[k + 1..];
      assert b == b[..k] + [b[k]] + b[k + 1..];
      assert a == [a[0]] + a[1..];
      assert multiset(a[1..]) == multiset(a) - multiset{a[0]};
      assert multiset(c) == multiset(b) - multiset{a[0]};
      OverMultiset(f, a[1..], c);
      OverTaken(f, a, 0);
      OverTaken(f, b, k);
      assert a[..0] + a[1..] == a[1..];
    }
  }

  lemma OverTaken<T(!new)>(f: nat -> T, s: seq<nat>, k: nat)
    requires k < |s|
    ensures multiset(Over(f, s)) == multiset(Over(f, s[..k] + s[k + 1..])) + multiset{f(s[k])}
  {
    var a, b := Over(f, s[..k]), Over(f, s[k + 1..]);
    assert Over(f, s) == a + [f(s[k])] + b;
    assert Over(f, s[..k] + s[k + 1..]) == a + b;
  }

  function Renumbered(p: seq<nat>, s: set<nat>, n: nat): seq<nat> {
    Over((i: nat) => At(p, i), Listed(s, n))
  }

  lemma RenumberedMembers(p: seq<nat>, s: set<nat>, n: nat, x: nat)
    requires Renumbers(p) && |p| == n && forall y :: y in s ==> y < n
    ensures x in Renumbered(p, s, n) <==> x in Image(p, s)
    ensures x in Image(p, s) ==> x < n
  {
    var l, q := Listed(s, n), Renumbered(p, s, n);
    if x in q {
      var i :| 0 <= i < |q| && q[i] == x;
      assert l[i] in l;
    }
    if x in Image(p, s) {
      var y :| y in s && y < |p| && p[y] == x;
      assert y in l && p[y] in p;
      var i :| 0 <= i < |l| && l[i] == y;
      assert q[i] == x;
    }
  }

  lemma RenumberedDiffer(p: seq<nat>, s: set<nat>, n: nat)
    requires Renumbers(p) && |p| == n && forall x :: x in s ==> x < n
    ensures AllDifferent(Renumbered(p, s, n))
  {
    var l, q := Listed(s, n), Renumbered(p, s, n);
    forall i, k | 0 <= i < k < |q| ensures q[i] != q[k] {
      assert l[i] in l && l[k] in l;
    }
  }

  lemma RenumberedList(p: seq<nat>, s: set<nat>, n: nat)
    requires Renumbers(p) && |p| == n && forall x :: x in s ==> x < n
    ensures multiset(Renumbered(p, s, n)) == multiset(Listed(Image(p, s), n))
  {
    forall x ensures x in Renumbered(p, s, n) <==> x in Listed(Image(p, s), n) { RenumberedMembers(p, s, n, x); }
    RenumberedDiffer(p, s, n);
    SameMembers(Renumbered(p, s, n), Listed(Image(p, s), n));
  }

  /** What is listed over a set, in any order, does not change when the set is renumbered. */
  lemma RenumberedOver<T(!new)>(p: seq<nat>, s: set<nat>, n: nat, f: nat -> T, g: nat -> T)
    requires Renumbers(p) && |p| == n && (forall x :: x in s ==> x < n)
    requires forall x :: x in s ==> g(At(p, x)) == f(x)
    ensures multiset(Over(f, Listed(s, n))) == multiset(Over(g, Listed(Image(p, s), n)))
  {
    var l := Listed(s, n);
    var q := Renumbered(p, s, n);
    RenumberedList(p, s, n);
    OverMultiset(g, q, Listed(Image(p, s), n));
    forall i | 0 <= i < |l| ensures g(q[i]) == f(l[i]) { assert l[i] in l; }
    assert Over(g, q) == Over(f, l);
  }

  lemma {:induction false} RenumberedSize(p: seq<nat>, s: set<nat>)
    requires Renumbers(p) && forall x :: x in s ==> x < |p|
    ensures |Image(p, s)| == |s|
  {
    if s != {} {
      var x :| x in s;
      RenumberedSize(p, s - {x});
      assert Image(p, s) == Image(p, s - {x}) + {p[x]};
      forall y | y in s - {x} ensures p[y] != p[x] {}
    }
  }
}
