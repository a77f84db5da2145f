/** Split units of a dataset: design groups merged along near duplicates (`build_dataset` of
    cad2ml/datasets/builder.py). */
module DatasetUnits {
  import opened Partition
  import opened UnionFind
  import opened NearDuplicates
  import opened NearClusters

  /** An included sample: its design group, part family and geometry signature. */
  datatype Sample = Sample(group: nat, family: nat, signature: Signature)

  type Samples = map<nat, Sample>

  function SignaturesOf(samples: Samples): Signatures {
    map x | x in samples :: samples[x].signature
  }

  // ---- the reference definition -----------------------------------------------------------

  /** Two samples share their design group, or are near duplicates. */
  predicate Akin(samples: Samples, x: nat, y: nat) {
    x in samples && y in samples
    && (samples[x].group == samples[y].group || IsNearDuplicate(samples[x].signature, samples[y].signature))
  }

  ghost predicate AkinChain(samples: Samples, p: seq<nat>) {
    p != [] && p[0] in samples && forall i {:trigger p[i]} :: 0 < i < |p| ==> Akin(samples, p[i - 1], p[i])
  }

  /** A chain of shared groups and near duplicates leads from one sample to the other. */
  ghost predicate AkinLinked(samples: Samples, x: nat, y: nat) {
    exists p :: AkinChain(samples, p) && p[0] == x && p[|p| - 1] == y
  }

  lemma AkinLinkedTransitive(samples: Samples, x: nat, y: nat, z: nat)
    requires AkinLinked(samples, x, y) && AkinLinked(samples, y, z)
    ensures AkinLinked(samples, x, z)
  {
    var p :| AkinChain(samples, p) && p[0] == x && p[|p| - 1] == y;
    var q :| AkinChain(samples, q) && q[0] == y && q[|q| - 1] == z;
    var r := p + q;
    forall i | 0 < i < |r| ensures Akin(samples, r[i - 1], r[i]) {
      if i < |p| {
        assert r[i] == p[i] && r[i - 1] == p[i - 1];
      } else if i > |p| {
        assert r[i] == q[i - |p|] && r[i - 1] == q[i - |p| - 1];
      } else if |p| > 1 {
        assert Akin(samples, p[|p| - 2], p[|p| - 1]);
      }
    }
    assert AkinChain(samples, r) && r[0] == x && r[|r| - 1] == z;
  }

  lemma AkinStep(samples: Samples, x: nat, y: nat)
    requires Akin(samples, x, y)
    ensures AkinLinked(samples, x, y)
  {
    var p := [x, y];
    assert AkinChain(samples, p) && p[0] == x && p[|p| - 1] == y;
  }

  // ---- the links between groups -----------------------------------------------------------

  /** The links of the clusters before `k`, and of the members before `m` of cluster `k`: each member
      to the cluster's first. */
  ghost function GroupLinks(samples: Samples, cs: seq<seq<nat>>, k: nat, m: nat): set<Link>
    requires forall c, x :: 0 <= c < |cs| && x in cs[c] ==> x in samples
  {
    set c, i | 0 <= c < |cs| && 0 < i < |cs[c]| && (c < k || (c == k && i < m)) ::
      (samples[cs[c][0]].group, samples[cs[c][i]].group)
  }

  ghost predicate InSamples(samples: Samples, cs: seq<seq<nat>>) {
    forall c, x :: 0 <= c < |cs| && x in cs[c] ==> x in samples
  }

  lemma GroupLinksStep(samples: Samples, cs: seq<seq<nat>>, k: nat, m: nat)
    requires InSamples(samples, cs) && k < |cs| && 0 < m < |cs[k]|
    ensures GroupLinks(samples, cs, k, m + 1)
         == GroupLinks(samples, cs, k, m) + {(samples[cs[k][0]].group, samples[cs[k][m]].group)}
  {
  }

  lemma GroupLinksNext(samples: Samples, cs: seq<seq<nat>>, k: nat)
    requires InSamples(samples, cs) && k < |cs|
    ensures GroupLinks(samples, cs, k, 1) == GroupLinks(samples, cs, k, 0)
    ensures GroupLinks(samples, cs, k + 1, 0) == GroupLinks(samples, cs, k, |cs[k]|)
  {
  }

  // ---- group chains against sample chains -------------------------------------------------

  ghost function AllLinks(samples: Samples, cs: seq<seq<nat>>): set<Link>
    requires InSamples(samples, cs)
  {
    GroupLinks(samples, cs, |cs|, 0)
  }

  /** Members of one cluster have linked groups. */
  lemma ClusterLinksGroups(samples: Samples, cs: seq<seq<nat>>, x: nat, y: nat)
    requires InSamples(samples, cs) && Together(cs, x, y)
    ensures Linked(AllLinks(samples, cs), samples[x].group, samples[y].group)
  {
    var links := AllLinks(samples, cs);
    var c :| 0 <= c < |cs| && x in cs[c] && y in cs[c];
    var i :| 0 <= i < |cs[c]| && cs[c][i] == x;
    var j :| 0 <= j < |cs[c]| && cs[c][j] == y;
    var h := samples[cs[c][0]].group;
    if i > 0 { assert (samples[cs[c][0]].group, samples[cs[c][i]].group) in links; }
    if j > 0 { assert (samples[cs[c][0]].group, samples[cs[c][j]].group) in links; }
    LinkedStep(links, samples[x].group, h);
    LinkedStep(links, h, samples[y].group);
    LinkedTransitive(links, samples[x].group, h, samples[y].group);
  }

  lemma TogetherIsAkin(samples: Samples, cs: seq<seq<nat>>, x: nat, y: nat)
    requires ClustersOf(SignaturesOf(samples), cs) && x in samples && y in samples && Together(cs, x, y)
    ensures AkinLinked(samples, x, y)
  {
    if x == y {
      AkinStep(samples, x, y);
    } else {
      assert NearLinked(SignaturesOf(samples), x, y);
      var p :| NearChain(SignaturesOf(samples), p) && p[0] == x && p[|p| - 1] == y;
    }
  }

  lemma LinkedGroupsAreAkin(samples: Samples, cs: seq<seq<nat>>, a: nat, b: nat)
    requires InSamples(samples, cs) && ClustersOf(SignaturesOf(samples), cs) && (a, b) in AllLinks(samples, cs)
    ensures exists u, v :: u in samples && v in samples && samples[u].group == a && samples[v].group == b
                           && AkinLinked(samples, u, v) && AkinLinked(samples, v, u)
  {
    var c, i :| 0 <= c < |cs| && 0 < i < |cs[c]| && (a, b) == (samples[cs[c][0]].group, samples[cs[c][i]].group);
    var u, v := cs[c][0], cs[c][i];
    assert u in cs[c] && v in cs[c];
    TogetherIsAkin(samples, cs, u, v);
    TogetherIsAkin(samples, cs, v, u);
  }

  /** A chain of groups starting at `x`'s leads, sample by sample, to every member of its last group. */
  lemma {:induction false} GroupChainIsAkin(samples: Samples, cs: seq<seq<nat>>, p: seq<nat>, x: nat, y: nat)
    requires InSamples(samples, cs) && ClustersOf(SignaturesOf(samples), cs)
    requires x in samples && y in samples && Chain(AllLinks(samples, cs), p)
    requires p[0] == samples[x].group && p[|p| - 1] == samples[y].group
    ensures AkinLinked(samples, x, y)
  {
    var n := |p| - 1;
    if n == 0 {
      AkinStep(samples, x, y);
    } else {
      var links := AllLinks(samples, cs);
      var q := p[..n];
      forall i | 0 < i < n ensures Step(links, q[i - 1], q[i]) { assert Step(links, p[i - 1], p[i]); }
      assert Step(links, p[n - 1], p[n]);
      var u, v := y, y;
      if p[n - 1] != p[n] {
        if (p[n - 1], p[n]) in links {
          LinkedGroupsAreAkin(samples, cs, p[n - 1], p[n]);
          u, v :| u in samples && v in samples && samples[u].group == p[n - 1] && samples[v].group == p[n]
              && AkinLinked(samples, u, v);
        } else {
          LinkedGroupsAreAkin(samples, cs, p[n], p[n - 1]);
          v, u :| v in samples && u in samples && samples[v].group == p[n] && samples[u].group == p[n - 1]
              && AkinLinked(samples, u, v);
        }
      } else {
        AkinStep(samples, y, y);
      }
      GroupChainIsAkin(samples, cs, q, x, u);
      AkinStep(samples, v, y);
      AkinLinkedTransitive(samples, x, u, v);
      AkinLinkedTransitive(samples, x, v, y);
    }
  }

  lemma {:induction false} AkinChainLinksGroups(samples: Samples, cs: seq<seq<nat>>, p: seq<nat>)
    requires InSamples(samples, cs) && ClustersOf(SignaturesOf(samples), cs) && AkinChain(samples, p)
    ensures p[|p| - 1] in samples
    ensures Linked(AllLinks(samples, cs), samples[p[0]].group, samples[p[|p| - 1]].group)
  {
    var links := AllLinks(samples, cs);
    var n := |p| - 1;
    if n == 0 {
      LinkedReflexive(links, samples[p[0]].group);
    } else {
      forall i | 0 < i < n ensures Akin(samples, p[..n][i - 1], p[..n][i]) { assert Akin(samples, p[i - 1], p[i]); }
      AkinChainLinksGroups(samples, cs, p[..n]);
      assert Akin(samples, p[n - 1], p[n]);
      AkinLinksGroups(samples, cs, p[n - 1], p[n]);
      LinkedTransitive(links, samples[p[0]].group, samples[p[n - 1]].group, samples[p[n]].group);
    }
  }

  lemma AkinLinksGroups(samples: Samples, cs: seq<seq<nat>>, x: nat, y: nat)
    requires InSamples(samples, cs) && ClustersOf(SignaturesOf(samples), cs) && Akin(samples, x, y)
    ensures Linked(AllLinks(samples, cs), samples[x].group, samples[y].group)
  {
    if samples[x].group == samples[y].group {
      LinkedReflexive(AllLinks(samples, cs), samples[x].group);
    } else {
      var sigs := SignaturesOf(samples);
      assert NearChain(sigs, [x, y]) by { assert NearAt(sigs, x, y); }
      assert NearLinked(sigs, x, y) by { assert [x, y][0] == x && [x, y][|[x, y]| - 1] == y; }
      assert Together(cs, x, y);
      ClusterLinksGroups(samples, cs, x, y);
    }
  }

  /** Groups are merged exactly when a chain of shared groups and near duplicates joins two of their
      samples. */
  lemma GroupsMergeIffAkin(samples: Samples, cs: seq<seq<nat>>, x: nat, y: nat)
    requires InSamples(samples, cs) && ClustersOf(SignaturesOf(samples), cs) && x in samples && y in samples
    ensures Linked(AllLinks(samples, cs), samples[x].group, samples[y].group) <==> AkinLinked(samples, x, y)
  {
    if Linked(AllLinks(samples, cs), samples[x].group, samples[y].group) {
      var p :| Chain(AllLinks(samples, cs), p) && p[0] == samples[x].group && p[|p| - 1] == samples[y].group;
      GroupChainIsAkin(samples, cs, p, x, y);
    }
    if AkinLinked(samples, x, y) {
      var p :| AkinChain(samples, p) && p[0] == x && p[|p| - 1] == y;
      AkinChainLinksGroups(samples, cs, p);
    }
  }

  // ---- the loops --------------------------------------------------------------------------

  ghost function GroupsOf(samples: Samples): set<nat> {
    set x | x in samples :: samples[x].group
  }

  method JoinCluster(samples: Samples, cs: seq<seq<nat>>, k: nat, uf: Forest)
    requires InSamples(samples, cs) && k < |cs| && cs[k] != []
    requires Tracks(uf.p, GroupLinks(samples, cs, k, 0), GroupsOf(samples)) && uf.p.Keys == GroupsOf(samples)
    modifies uf
    ensures Tracks(uf.p, GroupLinks(samples, cs, k + 1, 0), GroupsOf(samples)) && uf.p.Keys == GroupsOf(samples)
  {
    GroupLinksNext(samples, cs, k);
    var m := 1;
    while m < |cs[k]|
      invariant 1 <= m <= |cs[k]|
      invariant Tracks(uf.p, GroupLinks(samples, cs, k, m), GroupsOf(samples)) && uf.p.Keys == GroupsOf(samples)
    {
      assert cs[k][0] in cs[k] && cs[k][m] in cs[k];
      assert samples[cs[k][0]].group in GroupsOf(samples) && samples[cs[k][m]].group in GroupsOf(samples);
      GroupLinksStep(samples, cs, k, m);
      Join(samples[cs[k][0]].group, samples[cs[k][m]].group, uf, GroupLinks(samples, cs, k, m), GroupsOf(samples));
      m := m + 1;
    }
  }

  /** The union-find over design groups: two samples fall into one unit exactly when a chain of shared
      groups and near duplicates joins them. */
  method MergeGroups(samples: Samples, ids: seq<nat>) returns (uf: Forest)
    requires forall x :: x in ids <==> x in samples
    ensures fresh(uf) && Ordered(uf.p) && uf.p.Keys == GroupsOf(samples)
    ensures forall x, y :: x in samples && y in samples ==>
      (Root(uf.p, samples[x].group) == Root(uf.p, samples[y].group) <==> AkinLinked(samples, x, y))
  {
    uf := new Forest();
    var n := 0;
    while n < |ids|
      invariant 0 <= n <= |ids| && Tracks(uf.p, {}, GroupsOf(samples))
      invariant forall k :: 0 <= k < n ==> samples[ids[k]].group in uf.p
    {
      assert samples[ids[n]].group in GroupsOf(samples);
      var _ := LookUp(samples[ids[n]].group, uf, {}, GroupsOf(samples));
      n := n + 1;
    }
    assert uf.p.Keys == GroupsOf(samples) by {
      forall g | g in GroupsOf(samples) ensures g in uf.p.Keys {
        var x :| x in samples && samples[x].group == g;
        assert x in ids;
      }
    }
    var cs := NearDuplicateClusters(SignaturesOf(samples));
    assert InSamples(samples, cs);
    assert GroupLinks(samples, cs, 0, 0) == {};
    var k := 0;
    while k < |cs|
      invariant 0 <= k <= |cs|
      invariant Tracks(uf.p, GroupLinks(samples, cs, k, 0), GroupsOf(samples)) && uf.p.Keys == GroupsOf(samples)
    {
      JoinCluster(samples, cs, k, uf);
      k := k + 1;
    }
    forall x, y | x in samples && y in samples
      ensures Root(uf.p, samples[x].group) == Root(uf.p, samples[y].group) <==> AkinLinked(samples, x, y)
    {
      assert samples[x].group in GroupsOf(samples) && samples[y].group in GroupsOf(samples);
      assert Agrees(Roots(uf.p), AllLinks(samples, cs), samples[x].group, samples[y].group);
      GroupsMergeIffAkin(samples, cs, x, y);
    }
  }
}
