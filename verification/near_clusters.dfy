/** The loops of `near_duplicate_clusters` (cad2ml/datasets/builder.py), against the closure. */
module NearClusters {
  import opened Partition
  import opened Ordering
  import opened Sorting
  import opened UnionFind
  import opened NearDuplicates

  /** The classes of `p` are those of `links`, on some of the `keys`. */
  ghost predicate Tracks(p: map<nat, nat>, links: set<Link>, keys: set<nat>) {
    Ordered(p) && Labels(Roots(p), links) && p.Keys <= keys
  }

  method LookUp(x: nat, uf: Forest, ghost links: set<Link>, ghost keys: set<nat>) returns (r: nat)
    requires Tracks(uf.p, links, keys) && x in keys
    modifies uf
    ensures Tracks(uf.p, links, keys) && uf.p.Keys == old(uf.p.Keys) + {x}
  {
    LookupKeepsLabels(uf.p, links, x);
    ghost var before := Roots(uf.p);
    assert before.Keys == uf.p.Keys;
    r := uf.Find(x);
    assert Roots(uf.p) == WithKey(before, x);
    assert Roots(uf.p).Keys == uf.p.Keys;
  }

  method Join(x: nat, y: nat, uf: Forest, ghost links: set<Link>, ghost keys: set<nat>)
    requires Tracks(uf.p, links, keys) && x in uf.p && y in keys
    modifies uf
    ensures Tracks(uf.p, links + {(x, y)}, keys) && uf.p.Keys == old(uf.p.Keys) + {y}
  {
    LookupKeepsLabels(uf.p, links, y);
    ghost var before := Roots(uf.p);
    assert before.Keys == uf.p.Keys;
    uf.Union(x, y);
    MergeLabels(WithKey(before, y), Roots(uf.p), links, x, y);
    assert Roots(uf.p).Keys == uf.p.Keys;
  }

  method Compare(sigs: Signatures, x: nat, y: nat, uf: Forest, ghost links: set<Link>)
    requires x in sigs && y in sigs && Tracks(uf.p, links, sigs.Keys) && x in uf.p
    modifies uf
    ensures Tracks(uf.p, links + if NearAt(sigs, x, y) then {(x, y)} else {}, sigs.Keys) && old(uf.p.Keys) <= uf.p.Keys
  {
    if IsNearDuplicate(sigs[x], sigs[y]) {
      Join(x, y, uf, links, sigs.Keys);
    } else {
      assert links + {} == links;
    }
  }

  /** The inner loop: `ids[i]` against everything after it. */
  method JoinRow(sigs: Signatures, ids: seq<nat>, i: nat, uf: Forest)
    requires i < |ids| && (forall k :: 0 <= k < |ids| ==> ids[k] in sigs) && ids[i] in uf.p
    requires Tracks(uf.p, Pairs(sigs, ids, i, i + 1), sigs.Keys)
    modifies uf
    ensures Tracks(uf.p, Pairs(sigs, ids, i, |ids|), sigs.Keys) && old(uf.p.Keys) <= uf.p.Keys
  {
    ghost var keys, links := uf.p.Keys, Pairs(sigs, ids, i, i + 1);
    for j := i + 1 to |ids|
      invariant keys <= uf.p.Keys && Tracks(uf.p, links, sigs.Keys)
      invariant links == Pairs(sigs, ids, i, j)
    {
      PairsStep(sigs, ids, i, j);
      Compare(sigs, ids[i], ids[j], uf, links);
      links := Pairs(sigs, ids, i, j + 1);
    }
  }

  /** The double loop: in the end the forest's classes are the closure of all near pairs. */
  method JoinAll(sigs: Signatures, ids: seq<nat>) returns (uf: Forest)
    requires forall x :: x in ids <==> x in sigs
    ensures fresh(uf) && Tracks(uf.p, Pairs(sigs, ids, |ids|, 0), sigs.Keys) && uf.p.Keys == sigs.Keys
  {
    uf := new Forest();
    NoPairs(sigs, ids);
    ghost var links := Pairs(sigs, ids, 0, 0);
    var i := 0;
    while i < |ids|
      invariant 0 <= i <= |ids| && Tracks(uf.p, links, sigs.Keys)
      invariant links == Pairs(sigs, ids, i, 0)
      invariant forall k :: 0 <= k < i ==> ids[k] in uf.p.Keys
    {
      PairsNextRow(sigs, ids, i);
      var _ := LookUp(ids[i], uf, links, sigs.Keys);
      JoinRow(sigs, ids, i, uf);
      links := Pairs(sigs, ids, i + 1, 0);
      i := i + 1;
    }
    forall x | x in sigs ensures x in uf.p.Keys { assert x in ids; }
  }

  // ---- grouping by root -------------------------------------------------------------------

  type Groups = map<nat, seq<nat>>

  predicate GroupHas(groups: Groups, r: nat, x: nat) {
    r in groups && x in groups[r]
  }

  /** Every group lists, in ascending order, exactly those of `ids` whose root it is. */
  ghost predicate Grouped(roots: map<nat, nat>, ids: seq<nat>, groups: Groups) {
    && (forall r {:trigger groups[r]} :: r in groups ==> groups[r] != [] && Ascending(groups[r]))
    && (forall r, x {:trigger GroupHas(groups, r, x)} ::
          GroupHas(groups, r, x) <==> x in ids && x in roots && roots[x] == r)
  }

  function Added(groups: Groups, r: nat, x: nat): Groups {
    groups[r := (if r in groups then groups[r] else []) + [x]]
  }

  lemma AddedGrouped(roots: map<nat, nat>, ids: seq<nat>, groups: Groups, x: nat)
    requires Ascending(ids + [x]) && Grouped(roots, ids, groups) && x in roots
    ensures Grouped(roots, ids + [x], Added(groups, roots[x], x))
  {
    var r := roots[x];
    var list := if r in groups then groups[r] else [];
    var groups' := Added(groups, r, x);
    forall i | 0 <= i < |list| ensures list[i] < x {
      assert GroupHas(groups, r, list[i]);
      var k :| 0 <= k < |ids| && ids[k] == list[i];
      assert (ids + [x])[k] < (ids + [x])[|ids|];
    }
    forall q, y ensures GroupHas(groups', q, y) <==> y in ids + [x] && y in roots && roots[y] == q {
      assert GroupHas(groups, q, y) <==> y in ids && y in roots && roots[y] == q;
    }
  }

  method GroupByRoot(ids: seq<nat>, uf: Forest) returns (groups: Groups)
    requires Ascending(ids) && Ordered(uf.p) && forall x :: x in ids ==> x in uf.p
    modifies uf
    ensures Ordered(uf.p) && Roots(uf.p) == old(Roots(uf.p)) && Grouped(Roots(uf.p), ids, groups)
  {
    ghost var roots := Roots(uf.p);
    groups := map[];
    var k := 0;
    while k < |ids|
      invariant 0 <= k <= |ids| && Ordered(uf.p) && Roots(uf.p) == roots
      invariant Grouped(roots, ids[..k], groups)
    {
      var x := ids[k];
      assert x in roots;
      var r := uf.Find(x);
      assert ids[..k + 1] == ids[..k] + [x];
      AddedGrouped(roots, ids[..k], groups, x);
      groups := groups[r := (if r in groups then groups[r] else []) + [x]];
      k := k + 1;
    }
    assert ids[..|ids|] == ids;
  }

  // ---- sorting the groups -----------------------------------------------------------------

  /** Python's order on lists of identifiers. */
  predicate ListLe(a: seq<nat>, b: seq<nat>) {
    LexLe(a, b)
  }

  function SortLists(s: seq<seq<nat>>): seq<seq<nat>> {
    SortBy(ListLe, s)
  }

  ghost predicate HeadsSorted(s: seq<seq<nat>>) {
    (forall k :: 0 <= k < |s| ==> s[k] != []) && forall k, l :: 0 <= k < l < |s| ==> s[k][0] <= s[l][0]
  }

  lemma ListsRank()
    ensures Ranks(ListLe)
  {
    forall x: seq<nat>, y: seq<nat> ensures ListLe(x, y) || ListLe(y, x) { LexTotal(x, y); }
    forall x: seq<nat>, y: seq<nat>, z: seq<nat> | ListLe(x, y) && ListLe(y, z) ensures ListLe(x, z) {
      LexTransitive(x, y, z);
    }
  }

  lemma SortListsSorts(s: seq<seq<nat>>)
    requires forall k :: 0 <= k < |s| ==> s[k] != []
    ensures HeadsSorted(SortLists(s)) && multiset(SortLists(s)) == multiset(s)
  {
    ListsRank();
    SortBySorts(ListLe, s);
    var t := SortLists(s);
    forall k | 0 <= k < |t| ensures t[k] != [] {
      assert t[k] in multiset(t);
      assert t[k] in multiset(s);
    }
    forall k, l | 0 <= k < l < |t| ensures t[k][0] <= t[l][0] {
      assert ListLe(t[k], t[l]);
    }
  }

  ghost predicate FromTwo(groups: Groups, g: seq<nat>, h: seq<nat>) {
    exists r, q :: r in groups && q in groups && r != q && g == groups[r] && h == groups[q]
  }

  /** The groups with more than one member, each sorted, in whatever order the dictionary has. */
  method LargeGroups(groups: Groups) returns (lists: seq<seq<nat>>)
    requires forall r :: r in groups ==> Ascending(groups[r])
    ensures forall g :: g in lists <==> exists r :: r in groups && g == groups[r] && |g| > 1
    ensures forall k, l :: 0 <= k < l < |lists| ==> FromTwo(groups, lists[k], lists[l])
  {
    lists := [];
    ghost var from: seq<nat> := [];
    var rest := groups.Keys;
    while rest != {}
      invariant rest <= groups.Keys && |from| == |lists|
      invariant forall k :: 0 <= k < |from| ==>
                  from[k] in groups && from[k] !in rest && lists[k] == groups[from[k]] && |lists[k]| > 1
      invariant forall k, l :: 0 <= k < l < |from| ==> from[k] != from[l]
      invariant forall r :: r in groups && r !in rest && |groups[r]| > 1 ==> groups[r] in lists
      decreases rest
    {
      var r :| r in rest;
      rest := rest - {r};
      if |groups[r]| > 1 {
        SortAscends(groups[r]);
        AscendingIsUnique(Sort(groups[r]), groups[r]);
        lists := lists + [Sort(groups[r])];
        from := from + [r];
      }
    }
  }

  // ---- the whole function -----------------------------------------------------------------

  /** Sorted by heads, from distinct groups: the heads ascend strictly, and no element repeats. */
  lemma SortedGroups(roots: map<nat, nat>, ids: seq<nat>, groups: Groups, lists: seq<seq<nat>>, cs: seq<seq<nat>>)
    requires Grouped(roots, ids, groups)
    requires forall g :: g in lists <==> exists r :: r in groups && g == groups[r] && |g| > 1
    requires forall k, l :: 0 <= k < l < |lists| ==> FromTwo(groups, lists[k], lists[l])
    requires HeadsSorted(cs) && multiset(cs) == multiset(lists)
    ensures forall g :: g in cs <==> exists r :: r in groups && g == groups[r] && |g| > 1
    ensures forall k, l, x :: 0 <= k < l < |cs| && x in cs[k] ==> x !in cs[l]
    ensures forall k, l :: 0 <= k < l < |cs| ==> cs[k][0] < cs[l][0]
  {
    forall g ensures g in cs <==> exists r :: r in groups && g == groups[r] && |g| > 1 {
      assert g in cs <==> g in multiset(cs);
      assert g in lists <==> g in multiset(lists);
    }
    forall k, l, x | 0 <= k < l < |cs| && x in cs[k] ensures x !in cs[l] {
      if x in cs[l] {
        SameGroup(roots, ids, groups, cs, k, l, x);
        TwiceCounts(cs, k, l);
        NoRepeats(roots, ids, groups, lists, cs[k]);
      }
    }
    forall k, l | 0 <= k < l < |cs| ensures cs[k][0] < cs[l][0] {
      assert cs[k][0] in cs[k] && cs[l][0] in cs[l];
    }
  }

  lemma SameGroup(roots: map<nat, nat>, ids: seq<nat>, groups: Groups, cs: seq<seq<nat>>, k: nat, l: nat, x: nat)
    requires Grouped(roots, ids, groups) && k < |cs| && l < |cs| && x in cs[k] && x in cs[l]
    requires forall g :: g in cs <==> exists r :: r in groups && g == groups[r] && |g| > 1
    ensures cs[k] == cs[l]
  {
    assert cs[k] in cs && cs[l] in cs;
    var r :| r in groups && cs[k] == groups[r] && |cs[k]| > 1;
    var q :| q in groups && cs[l] == groups[q] && |cs[l]| > 1;
    assert GroupHas(groups, r, x) && GroupHas(groups, q, x);
  }

  /** Groups of different roots are different lists. */
  lemma {:induction false} NoRepeats(roots: map<nat, nat>, ids: seq<nat>, groups: Groups, lists: seq<seq<nat>>,
                                     g: seq<nat>)
    requires Grouped(roots, ids, groups)
    requires forall k, l :: 0 <= k < l < |lists| ==> FromTwo(groups, lists[k], lists[l])
    ensures multiset(lists)[g] <= 1
  {
    if lists != [] {
      assert lists == [lists[0]] + lists[1..];
      forall k, l | 0 <= k < l < |lists[1..]| ensures FromTwo(groups, lists[1..][k], lists[1..][l]) {
        assert FromTwo(groups, lists[k + 1], lists[l + 1]);
      }
      NoRepeats(roots, ids, groups, lists[1..], g);
      if g == lists[0] && g in lists[1..] {
        var l :| 0 <= l < |lists[1..]| && lists[1..][l] == g;
        assert FromTwo(groups, lists[0], lists[l + 1]);
        var r, q :| r in groups && q in groups && r != q && g == groups[r] && g == groups[q];
        assert GroupHas(groups, r, g[0]) && GroupHas(groups, q, g[0]);
      }
      assert g !in lists[1..] ==> multiset(lists[1..])[g] == 0;
    }
  }

  lemma GroupsAreClusters(sigs: Signatures, ids: seq<nat>, roots: map<nat, nat>, groups: Groups, cs: seq<seq<nat>>)
    requires Ascending(ids) && (forall x :: x in ids <==> x in sigs) && (forall x :: x in ids ==> x in roots)
    requires Labels(roots, Pairs(sigs, ids, |ids|, 0)) && Grouped(roots, ids, groups)
    requires forall g :: g in cs <==> exists r :: r in groups && g == groups[r] && |g| > 1
    requires forall k, l, x :: 0 <= k < l < |cs| && x in cs[k] ==> x !in cs[l]
    requires forall k, l :: 0 <= k < l < |cs| ==> cs[k] != [] && cs[l] != [] && cs[k][0] < cs[l][0]
    ensures ClustersOf(sigs, cs)
  {
    forall k | 0 <= k < |cs|
      ensures |cs[k]| >= 2 && Ascending(cs[k]) && forall x :: x in cs[k] ==> x in sigs
    {
      assert cs[k] in cs;
      var r :| r in groups && cs[k] == groups[r] && |cs[k]| > 1;
      forall x | x in cs[k] ensures x in sigs { assert GroupHas(groups, r, x); }
    }
    forall x, y | x in sigs && y in sigs && x != y
      ensures Together(cs, x, y) <==> NearLinked(sigs, x, y)
    {
      LinkedIsNearLinked(sigs, ids, x, y);
      assert x in ids && y in ids;
      assert Agrees(roots, Pairs(sigs, ids, |ids|, 0), x, y);
      TogetherSameRoot(ids, roots, groups, cs, x, y);
    }
  }

  lemma TogetherSameRoot(ids: seq<nat>, roots: map<nat, nat>, groups: Groups, cs: seq<seq<nat>>, x: nat, y: nat)
    requires Grouped(roots, ids, groups) && x in ids && y in ids && x in roots && y in roots && x != y
    requires forall g :: g in cs <==> exists r :: r in groups && g == groups[r] && |g| > 1
    ensures Together(cs, x, y) <==> roots[x] == roots[y]
  {
    if Together(cs, x, y) {
      var k :| 0 <= k < |cs| && x in cs[k] && y in cs[k];
      assert cs[k] in cs;
      var r :| r in groups && cs[k] == groups[r] && |cs[k]| > 1;
      assert GroupHas(groups, r, x) && GroupHas(groups, r, y);
    }
    if roots[x] == roots[y] {
      var r := roots[x];
      assert GroupHas(groups, r, x) && GroupHas(groups, r, y);
      assert |groups[r]| > 1;
      assert groups[r] in cs;
      var k :| 0 <= k < |cs| && cs[k] == groups[r];
    }
  }

  /** `near_duplicate_clusters`: exactly the classes of the closure with at least two members. */
  method NearDuplicateClusters(sigs: Signatures) returns (clusters: seq<seq<nat>>)
    ensures ClustersOf(sigs, clusters)
  {
    var ids := SortedKeys(sigs.Keys);
    var uf := JoinAll(sigs, ids);
    var groups := GroupByRoot(ids, uf);
    var lists := LargeGroups(groups);
    clusters := SortLists(lists);
    SortListsSorts(lists);
    SortedGroups(Roots(uf.p), ids, groups, lists, clusters);
    GroupsAreClusters(sigs, ids, Roots(uf.p), groups, clusters);
  }

  /** The result does not depend on the order of the dictionary, or on anything but the signatures. */
  lemma ClustersAreUnique(sigs: Signatures, cs: seq<seq<nat>>, ds: seq<seq<nat>>)
    requires ClustersOf(sigs, cs) && ClustersOf(sigs, ds)
    ensures cs == ds
  {
    var hc := seq(|cs|, k requires 0 <= k < |cs| => cs[k][0]);
    var hd := seq(|ds|, k requires 0 <= k < |ds| => ds[k][0]);
    forall x ensures x in hc <==> x in hd {
      if x in hc {
        var k :| 0 <= k < |cs| && hc[k] == x;
        var l := SameCluster(sigs, cs, ds, k);
        assert hd[l] == x;
      }
      if x in hd {
        var k :| 0 <= k < |ds| && hd[k] == x;
        var l := SameCluster(sigs, ds, cs, k);
        assert hc[l] == x;
      }
    }
    AscendingIsUnique(hc, hd);
    forall k | 0 <= k < |cs| ensures cs[k] == ds[k] {
      var l := SameCluster(sigs, cs, ds, k);
      assert hd[l] == hc[k] == hd[k];
    }
  }

  lemma SameCluster(sigs: Signatures, cs: seq<seq<nat>>, ds: seq<seq<nat>>, k: nat) returns (l: nat)
    requires ClustersOf(sigs, cs) && ClustersOf(sigs, ds) && k < |cs|
    ensures l < |ds| && ds[l] == cs[k]
  {
    var x, y := cs[k][0], cs[k][1];
    assert x in cs[k] && y in cs[k] && x != y;
    assert Together(cs, x, y);
    assert Together(ds, x, y);
    l :| 0 <= l < |ds| && x in ds[l] && y in ds[l];
    forall z ensures z in cs[k] <==> z in ds[l] {
      if z in cs[k] { MovesOver(sigs, cs, ds, k, l, x, z); }
      if z in ds[l] { MovesOver(sigs, ds, cs, l, k, x, z); }
    }
    AscendingIsUnique(cs[k], ds[l]);
  }

  lemma MovesOver(sigs: Signatures, cs: seq<seq<nat>>, ds: seq<seq<nat>>, k: nat, l: nat, x: nat, z: nat)
    requires ClustersOf(sigs, cs) && ClustersOf(sigs, ds) && k < |cs| && l < |ds|
    requires x in cs[k] && x in ds[l] && z in cs[k]
    ensures z in ds[l]
  {
    if z != x {
      assert Together(cs, x, z);
      assert Together(ds, x, z);
      var m :| 0 <= m < |ds| && x in ds[m] && z in ds[m];
      assert m == l;
    }
  }
}
