/** Near-duplicate clustering (`is_near_duplicate`, `near_duplicate_clusters` of
    cad2ml/datasets/builder.py), over the reals. */
module NearDuplicates {
  import opened Partition
  import opened Sorting

  /** Volume, surface area and sorted bounding-box dimensions. */
  datatype Signature = Signature(volume: real, area: real, dims: (real, real, real))

  type Signatures = map<nat, Signature>

  function Abs(x: real): real { if x < 0.0 then -x else x }
  function Max(x: real, y: real): real { if y > x then y else x }

  predicate Apart(x: real, y: real) {
    Abs(x - y) > 0.002 * Max(Abs(x), Abs(y))
  }

  predicate CloseDim(x: real, y: real) {
    Abs(x - y) <= 0.5 + 0.001 * Max(x, y)
  }

  predicate IsNearDuplicate(a: Signature, b: Signature) {
    if Apart(a.volume, b.volume) || Apart(a.area, b.area) then false
    else CloseDim(a.dims.0, b.dims.0) && CloseDim(a.dims.1, b.dims.1) && CloseDim(a.dims.2, b.dims.2)
  }

  /** Of two numbers of the same sign the smaller is at least 0.998 of the larger. */
  predicate Within(x: real, y: real) {
    || (x >= 0.0 && y >= 0.0 && 998.0 * x <= 1000.0 * y && 998.0 * y <= 1000.0 * x)
    || (x <= 0.0 && y <= 0.0 && 998.0 * x >= 1000.0 * y && 998.0 * y >= 1000.0 * x)
  }

  /** The larger is at most half a unit above the smaller, apart from a thousandth of itself. */
  predicate Near(x: real, y: real) {
    (x >= y ==> 999.0 * x <= 500.0 + 1000.0 * y) && (y >= x ==> 999.0 * y <= 500.0 + 1000.0 * x)
  }

  /** Near duplicates agree in volume, in area and in each of the three sorted dimensions. */
  lemma NearMeans(a: Signature, b: Signature)
    ensures IsNearDuplicate(a, b)
       <==> && Within(a.volume, b.volume) && Within(a.area, b.area)
            && Near(a.dims.0, b.dims.0) && Near(a.dims.1, b.dims.1) && Near(a.dims.2, b.dims.2)
  {
  }

  lemma NearSymmetric(a: Signature, b: Signature)
    ensures IsNearDuplicate(a, b) <==> IsNearDuplicate(b, a)
  {
  }

  /** The tolerance does not chain: near duplicates of near duplicates may be far apart, which is why
      the clusters are closures. */
  lemma NearIsNotTransitive()
    ensures exists a, b, c :: IsNearDuplicate(a, b) && IsNearDuplicate(b, c) && !IsNearDuplicate(a, c)
  {
    var a := Signature(1000.0, 600.0, (10.0, 10.0, 10.0));
    var b := Signature(1001.5, 600.0, (10.0, 10.0, 10.0));
    var c := Signature(1003.0, 600.0, (10.0, 10.0, 10.0));
    assert IsNearDuplicate(a, b) && IsNearDuplicate(b, c) && !IsNearDuplicate(a, c);
  }

  // ---- the reference definition -----------------------------------------------------------

  predicate NearAt(sigs: Signatures, x: nat, y: nat) {
    x in sigs && y in sigs && IsNearDuplicate(sigs[x], sigs[y])
  }

  ghost predicate NearChain(sigs: Signatures, p: seq<nat>) {
    p != [] && p[0] in sigs && forall i {:trigger p[i]} :: 0 < i < |p| ==> NearAt(sigs, p[i - 1], p[i])
  }

  /** The reflexive-transitive closure of `is_near_duplicate`. */
  ghost predicate NearLinked(sigs: Signatures, x: nat, y: nat) {
    exists p :: NearChain(sigs, p) && p[0] == x && p[|p| - 1] == y
  }

  ghost predicate Together(cs: seq<seq<nat>>, x: nat, y: nat) {
    exists k :: 0 <= k < |cs| && x in cs[k] && y in cs[k]
  }

  /** The clusters are exactly the classes with at least two members, each sorted, in sorted order. */
  ghost predicate ClustersOf(sigs: Signatures, cs: seq<seq<nat>>) {
    && (forall k :: 0 <= k < |cs| ==> |cs[k]| >= 2 && Ascending(cs[k]) && forall x :: x in cs[k] ==> x in sigs)
    && (forall k, l :: 0 <= k < l < |cs| ==> cs[k][0] < cs[l][0])
    && (forall k, l, x :: 0 <= k < l < |cs| && x in cs[k] ==> x !in cs[l])
    && (forall x, y :: x in sigs && y in sigs && x != y ==> (Together(cs, x, y) <==> NearLinked(sigs, x, y)))
  }

  // ---- the pairs the loops look at --------------------------------------------------------

  /** The near pairs among `ids` with the first index below `i`, or equal to it and the second below
      `j`. */
  ghost function Pairs(sigs: Signatures, ids: seq<nat>, i: nat, j: nat): set<Link> {
    set a, b | 0 <= a < b < |ids| && (a < i || (a == i && b < j)) && NearAt(sigs, ids[a], ids[b]) :: (ids[a], ids[b])
  }

  lemma PairsStep(sigs: Signatures, ids: seq<nat>, i: nat, j: nat)
    requires i < j < |ids|
    ensures Pairs(sigs, ids, i, j + 1) == Pairs(sigs, ids, i, j)
        + if NearAt(sigs, ids[i], ids[j]) then {(ids[i], ids[j])} else {}
  {
  }

  /** A finished row, and the start of the next one. */
  lemma PairsNextRow(sigs: Signatures, ids: seq<nat>, i: nat)
    requires i < |ids|
    ensures Pairs(sigs, ids, i, i + 1) == Pairs(sigs, ids, i, 0)
    ensures Pairs(sigs, ids, i + 1, 0) == Pairs(sigs, ids, i, |ids|)
  {
  }

  lemma NoPairs(sigs: Signatures, ids: seq<nat>)
    ensures Pairs(sigs, ids, 0, 0) == {}
  {
  }

  /** A step along the collected pairs is a near step, and the other way round. */
  lemma PairsAreNear(sigs: Signatures, ids: seq<nat>, x: nat, y: nat)
    requires Ascending(ids) && (forall z :: z in ids <==> z in sigs) && x in sigs
    ensures NearAt(sigs, x, y) ==> Step(Pairs(sigs, ids, |ids|, 0), x, y)
    ensures Step(Pairs(sigs, ids, |ids|, 0), x, y) ==> x == y || NearAt(sigs, x, y)
  {
  }

  lemma {:induction false} ChainIsNear(sigs: Signatures, ids: seq<nat>, p: seq<nat>) returns (q: seq<nat>)
    requires Ascending(ids) && (forall z :: z in ids <==> z in sigs)
    requires Chain(Pairs(sigs, ids, |ids|, 0), p) && p[0] in sigs
    ensures NearChain(sigs, q) && q[0] == p[0] && q[|q| - 1] == p[|p| - 1] && p[|p| - 1] in sigs
  {
    if |p| == 1 {
      q := p;
    } else {
      var n := |p| - 1;
      var links := Pairs(sigs, ids, |ids|, 0);
      ChainInit(links, p);
      q := ChainIsNear(sigs, ids, p[..n]);
      PairsAreNear(sigs, ids, p[n - 1], p[n]);
      if p[n] != p[n - 1] { q := q + [p[n]]; }
    }
  }

  lemma LinkedIsNearLinked(sigs: Signatures, ids: seq<nat>, x: nat, y: nat)
    requires Ascending(ids) && (forall z :: z in ids <==> z in sigs) && x in sigs
    ensures Linked(Pairs(sigs, ids, |ids|, 0), x, y) <==> NearLinked(sigs, x, y)
  {
    var links := Pairs(sigs, ids, |ids|, 0);
    if Linked(links, x, y) {
      var p :| Chain(links, p) && p[0] == x && p[|p| - 1] == y;
      var q := ChainIsNear(sigs, ids, p);
    }
    if NearLinked(sigs, x, y) {
      var p :| NearChain(sigs, p) && p[0] == x && p[|p| - 1] == y;
      forall i | 0 < i < |p| ensures Step(links, p[i - 1], p[i]) {
        assert NearAt(sigs, p[i - 1], p[i]);
        PairsAreNear(sigs, ids, p[i - 1], p[i]);
      }
      assert Chain(links, p);
    }
  }
}
