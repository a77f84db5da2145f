/** The dataset builder's union-find (`_UF` of cad2ml/datasets/builder.py): path halving, and linking
    the larger root under the smaller. Identifiers are naturals: of the strings the code uses, only
    equality and order matter. */
module UnionFind {
  import opened Partition

  predicate OrderedAt(p: map<nat, nat>, x: nat) {
    x in p ==> p[x] in p && p[x] <= x
  }

  /** Parents are keys and never exceed their children. */
  ghost predicate Ordered(p: map<nat, nat>) {
    forall x {:trigger OrderedAt(p, x)} :: OrderedAt(p, x)
  }

  /** The end of the parent chain; the order of the identifiers makes it finite. */
  function Root(p: map<nat, nat>, x: nat): (r: nat)
    requires Ordered(p) && x in p
    ensures r in p && p[r] == r && r <= x
    decreases x
  {
    assert OrderedAt(p, x);
    if p[x] == x then x else Root(p, p[x])
  }

  /** The root is the least identifier of its class. */
  lemma RootIsLeast(p: map<nat, nat>, x: nat, y: nat)
    requires Ordered(p) && x in p && y in p && Root(p, x) == Root(p, y)
    ensures Root(p, x) <= y && Root(p, Root(p, x)) == Root(p, x)
  {
    assert Root(p, y) <= y;
  }

  ghost function Roots(p: map<nat, nat>): map<nat, nat>
    requires Ordered(p)
  {
    map x | x in p :: Root(p, x)
  }

  // ---- path halving -----------------------------------------------------------------------

  function Halved(p: map<nat, nat>, x: nat): map<nat, nat>
    requires x in p && p[x] in p
  {
    p[x := p[p[x]]]
  }

  lemma HalvedOrdered(p: map<nat, nat>, x: nat)
    requires Ordered(p) && x in p && p[x] in p
    ensures Ordered(Halved(p, x))
  {
    assert OrderedAt(p, x) && OrderedAt(p, p[x]);
    forall z ensures OrderedAt(Halved(p, x), z) { assert OrderedAt(p, z); }
  }

  /** Pointing `x` at its grandparent changes no root. */
  lemma {:induction false} HalvingKeepsRoot(p: map<nat, nat>, x: nat, y: nat)
    requires Ordered(p) && x in p && p[x] in p && Ordered(Halved(p, x)) && y in p
    ensures Root(Halved(p, x), y) == Root(p, y)
    decreases y
  {
    assert OrderedAt(p, y) && OrderedAt(p, p[y]);
    if y == x {
      if p[p[x]] != x { HalvingKeepsRoot(p, x, p[p[x]]); }
    } else if p[y] != y {
      HalvingKeepsRoot(p, x, p[y]);
    }
  }

  lemma HalvingKeepsRoots(p: map<nat, nat>, x: nat)
    requires Ordered(p) && x in p && p[x] in p
    ensures Ordered(Halved(p, x)) && Roots(Halved(p, x)) == Roots(p)
  {
    HalvedOrdered(p, x);
    forall y | y in p ensures Root(Halved(p, x), y) == Root(p, y) { HalvingKeepsRoot(p, x, y); }
  }

  // ---- linking ----------------------------------------------------------------------------

  function LinkedUnder(p: map<nat, nat>, lo: nat, hi: nat): map<nat, nat> {
    p[hi := lo]
  }

  lemma LinkOrdered(p: map<nat, nat>, lo: nat, hi: nat)
    requires Ordered(p) && lo in p && lo <= hi
    ensures Ordered(LinkedUnder(p, lo, hi))
  {
    forall z ensures OrderedAt(LinkedUnder(p, lo, hi), z) { assert OrderedAt(p, z); }
  }

  /** Linking root `hi` under the smaller root `lo` moves exactly `hi`'s class. */
  lemma {:induction false} LinkMovesClass(p: map<nat, nat>, lo: nat, hi: nat, y: nat)
    requires Ordered(p) && lo in p && hi in p && y in p && p[lo] == lo && p[hi] == hi && lo < hi
    requires Ordered(LinkedUnder(p, lo, hi))
    ensures Root(LinkedUnder(p, lo, hi), y) == if Root(p, y) == hi then lo else Root(p, y)
    decreases y
  {
    assert OrderedAt(p, y);
    if p[y] != y { LinkMovesClass(p, lo, hi, p[y]); }
  }

  lemma FreshOrdered(p: map<nat, nat>, x: nat)
    requires Ordered(p) && x !in p
    ensures Ordered(p[x := x])
  {
    var q := p[x := x];
    forall z ensures OrderedAt(q, z) { assert OrderedAt(p, z); }
  }

  lemma {:induction false} FreshKeepsRoot(p: map<nat, nat>, x: nat, y: nat)
    requires Ordered(p) && x !in p && y in p && Ordered(p[x := x])
    ensures Root(p[x := x], y) == Root(p, y)
    decreases y
  {
    assert OrderedAt(p, y);
    if p[y] != y { FreshKeepsRoot(p, x, p[y]); }
  }

  /** `setdefault`: a missing key becomes a class of its own. */
  lemma FreshRoots(p: map<nat, nat>, x: nat)
    requires Ordered(p) && x !in p
    ensures Ordered(p[x := x]) && Roots(p[x := x]) == Roots(p)[x := x]
  {
    FreshOrdered(p, x);
    forall y | y in p ensures Root(p[x := x], y) == Root(p, y) { FreshKeepsRoot(p, x, y); }
  }

  lemma LinkMerges(p: map<nat, nat>, a: nat, b: nat, lo: nat, hi: nat)
    requires Ordered(p) && a in p && b in p && lo < hi
    requires (Root(p, a) == lo && Root(p, b) == hi) || (Root(p, a) == hi && Root(p, b) == lo)
    ensures Ordered(LinkedUnder(p, lo, hi)) && Merges(Roots(p), Roots(LinkedUnder(p, lo, hi)), a, b)
    ensures Root(LinkedUnder(p, lo, hi), a) == lo
  {
    LinkOrdered(p, lo, hi);
    var q := LinkedUnder(p, lo, hi);
    forall y | y in p ensures Root(q, y) == if Root(p, y) == hi then lo else Root(p, y) {
      LinkMovesClass(p, lo, hi, y);
    }
  }

  class Forest {
    var p: map<nat, nat>

    constructor ()
      ensures p == map[]
    {
      p := map[];
    }

    /** Finding halves the path it walks; it adds a missing key and changes no class. */
    method Find(x: nat) returns (r: nat)
      requires Ordered(p)
      modifies this
      ensures Ordered(p) && Roots(p) == if x in old(p) then Roots(old(p)) else Roots(old(p))[x := x]
      ensures x in p && r == Root(p, x) && r == Roots(p)[x]
    {
      if x !in p {
        FreshRoots(p, x);
        p := p[x := x];
      }
      ghost var roots := Roots(p);
      r := x;
      while p[r] != r
        invariant Ordered(p) && Roots(p) == roots && r in p && x in p && Root(p, r) == Root(p, x)
        decreases r
      {
        assert OrderedAt(p, r) && OrderedAt(p, p[r]);
        HalvingKeepsRoots(p, r);
        ghost var q := p;
        p := p[r := p[p[r]]];
        assert p == Halved(q, r);
        assert Root(p, x) == Roots(p)[x] == Roots(q)[x] == Root(q, x);
        assert Root(p, r) == Roots(p)[r] == Roots(q)[r];
        r := p[r];
      }
    }

    /** Union finds both roots, which adds missing keys, and merges exactly the two classes under the
        smaller root. */
    method Union(a: nat, b: nat)
      requires Ordered(p)
      modifies this
      ensures Ordered(p)
      ensures Merges(WithKey(WithKey(Roots(old(p)), a), b), Roots(p), a, b)
    {
      ghost var before := WithKey(WithKey(Roots(p), a), b);
      var ra := Find(a);
      assert a in Roots(p);
      var rb := Find(b);
      assert Roots(p) == before;
      assert a in Roots(p) && b in Roots(p);
      assert Root(p, a) == Roots(p)[a] == ra;
      if ra != rb {
        var lo, hi := if ra < rb then ra else rb, if ra < rb then rb else ra;
        LinkMerges(p, a, b, lo, hi);
        p := p[hi := lo];
      }
    }
  }

  /** The classes once `x` has been looked up. */
  function WithKey(roots: map<nat, nat>, x: nat): map<nat, nat> {
    if x in roots then roots else roots[x := x]
  }

  /** Looking up an identifier does not disturb what the classes mean. */
  lemma LookupKeepsLabels(p: map<nat, nat>, links: set<Link>, x: nat)
    requires Ordered(p) && Labels(Roots(p), links)
    ensures Labels(WithKey(Roots(p), x), links)
  {
    if x !in p {
      forall y | y in p ensures Roots(p)[y] != x { assert Root(p, y) in p; }
      FreshLabel(Roots(p), links, x);
    }
  }
}
