/** `match_entities` (cad2ml/topology/canonical.py): matching two revisions by fingerprints that occur
    once on either side. */
module EntityMatching {
  import opened Ordering

  type Print = seq<int>

  predicate Once(fps: seq<Print>, i: nat) {
    i < |fps| && multiset(fps)[fps[i]] == 1
  }

  /** `i` and `k` carry one fingerprint, which nothing else on either side carries. */
  predicate Matched(a: seq<Print>, b: seq<Print>, i: nat, k: nat) {
    Once(a, i) && Once(b, k) && a[i] == b[k]
  }

  lemma OnceIsUnique(s: seq<Print>, i: nat, k: nat)
    requires Once(s, i) && k < |s| && s[k] == s[i]
    ensures i == k
  {
    if i < k { TwiceCounts(s, i, k); }
    if k < i { TwiceCounts(s, k, i); }
  }

  /** The dictionary from fingerprint to the last index that carries it. */
  method LastIndex(b: seq<Print>) returns (idx: map<Print, nat>)
    ensures forall x :: x in idx <==> x in b
    ensures forall x :: x in idx ==> idx[x] < |b| && b[idx[x]] == x
  {
    idx := map[];
    var i := 0;
    while i < |b|
      invariant 0 <= i <= |b|
      invariant forall x :: x in idx <==> x in b[..i]
      invariant forall x :: x in idx ==> idx[x] < i && b[idx[x]] == x
    {
      assert b[..i + 1] == b[..i] + [b[i]];
      idx := idx[b[i] := i];
      i := i + 1;
    }
    assert b[..|b|] == b;
  }

  predicate KnownAt(a: seq<Print>, b: seq<Print>, n: nat, r: map<nat, nat>, j: nat, k: nat) {
    j in r && r[j] == k <==> j < n && Matched(a, b, j, k)
  }

  /** `match_entities` finds every unambiguous pair and no other. */
  method MatchEntities(a: seq<Print>, b: seq<Print>) returns (r: map<nat, nat>)
    ensures forall i: nat, k: nat :: i in r && r[i] == k <==> Matched(a, b, i, k)
  {
    var ca, cb := multiset(a), multiset(b);
    var idx := LastIndex(b);
    r := map[];
    var i := 0;
    while i < |a|
      invariant 0 <= i <= |a|
      invariant forall j: nat, k: nat {:trigger KnownAt(a, b, i, r, j, k)} :: KnownAt(a, b, i, r, j, k)
    {
      ghost var before := r;
      if ca[a[i]] == 1 && cb[a[i]] == 1 {
        assert a[i] in multiset(b);
        r := r[i := idx[a[i]]];
        assert Matched(a, b, i, r[i]);
      }
      ghost var n := i + 1;
      forall j: nat, k: nat ensures KnownAt(a, b, n, r, j, k) {
        assert KnownAt(a, b, i, before, j, k);
        if j == i && Matched(a, b, i, k) { OnceIsUnique(b, k, idx[a[i]]); }
      }
      i := i + 1;
    }
    forall j: nat, k: nat ensures j in r && r[j] == k <==> Matched(a, b, j, k) { assert KnownAt(a, b, i, r, j, k); }
  }

  /** The match is one to one, and matching the other way round gives its inverse. */
  lemma MatchIsOneToOne(a: seq<Print>, b: seq<Print>, r: map<nat, nat>, s: map<nat, nat>)
    requires forall i: nat, k: nat :: i in r && r[i] == k <==> Matched(a, b, i, k)
    requires forall i: nat, k: nat :: i in s && s[i] == k <==> Matched(b, a, i, k)
    ensures forall i, j :: i in r && j in r && r[i] == r[j] ==> i == j
    ensures forall i :: i in r ==> r[i] in s && s[r[i]] == i
  {
    forall i, j | i in r && j in r && r[i] == r[j] ensures i == j {
      assert Matched(a, b, i, r[i]) && Matched(a, b, j, r[j]);
      OnceIsUnique(a, i, j);
    }
    forall i | i in r ensures r[i] in s && s[r[i]] == i {
      assert Matched(a, b, i, r[i]);
      assert Matched(b, a, r[i], i);
    }
  }
}
