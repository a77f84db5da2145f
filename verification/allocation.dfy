/** Largest-remainder allocation of points to faces (`allocate` of
    cad2ml/representations/pointcloud.py), in exact arithmetic. */
module Allocation {
  import opened Ordering
  import opened Sorting

  function Total(s: seq<real>): real {
    if s == [] then 0.0 else Total(s[..|s| - 1]) + s[|s| - 1]
  }

  function Count(s: seq<int>): int {
    if s == [] then 0 else Count(s[..|s| - 1]) + s[|s| - 1]
  }

  function Share(area: real, sum: real, rest: int): real
    requires sum > 0.0
  {
    area / sum * rest as real
  }

  function Shares(areas: seq<real>, rest: int): (s: seq<real>)
    requires Total(areas) > 0.0
    ensures |s| == |areas|
  {
    seq(|areas|, i requires 0 <= i < |areas| => Share(areas[i], Total(areas), rest))
  }

  function Floors(s: seq<real>): (r: seq<int>)
    ensures |r| == |s|
  {
    seq(|s|, i requires 0 <= i < |s| => s[i].Floor)
  }

  function Remainder(s: seq<real>, i: nat): (r: real)
    ensures 0.0 <= r < 1.0
  {
    if i < |s| then s[i] - s[i].Floor as real else 0.0
  }

  // ---- sums -------------------------------------------------------------------------------

  lemma {:induction false} ShareSums(areas: seq<real>, shares: seq<real>, sum: real, rest: int)
    requires sum > 0.0 && |shares| == |areas|
    requires forall i :: 0 <= i < |areas| ==> shares[i] == Share(areas[i], sum, rest)
    ensures Total(shares) * sum == Total(areas) * rest as real
  {
    if areas != [] {
      var n := |areas| - 1;
      ShareSums(areas[..n], shares[..n], sum, rest);
    }
  }

  /** The shares add up to what there is to share. */
  lemma SharesTotal(areas: seq<real>, rest: int)
    requires Total(areas) > 0.0
    ensures Total(Shares(areas, rest)) == rest as real
  {
    ShareSums(areas, Shares(areas, rest), Total(areas), rest);
  }

  ghost function Positives(s: seq<real>, k: nat): set<nat> {
    set i: nat | i < k && Remainder(s, i) > 0.0
  }

  /** What rounding down loses is less than the number of shares that are not whole, if there are any. */
  lemma {:induction false} FloorLoss(s: seq<real>)
    ensures Count(Floors(s)) as real <= Total(s)
    ensures Total(s) <= Count(Floors(s)) as real + |Positives(s, |s|)| as real
    ensures Positives(s, |s|) != {} ==> Total(s) < Count(Floors(s)) as real + |Positives(s, |s|)| as real
    ensures |Positives(s, |s|)| <= |s|
  {
    if s != [] {
      var n := |s| - 1;
      FloorLoss(s[..n]);
      assert Floors(s)[..n] == Floors(s[..n]);
      PositivesStep(s);
    }
  }

  lemma PositivesStep(s: seq<real>)
    requires s != []
    ensures
      var n := |s| - 1;
      Positives(s, n + 1) == Positives(s[..n], n) + if Remainder(s, n) > 0.0 then {n} else {}
    ensures |s| - 1 !in Positives(s[..|s| - 1], |s| - 1)
  {
    var n := |s| - 1;
    forall i: nat | i < n ensures Remainder(s[..n], i) == Remainder(s, i) {}
  }

  lemma {:induction false} CountRaised(s: seq<int>, i: nat)
    requires i < |s|
    ensures Count(s[i := s[i] + 1]) == Count(s) + 1
  {
    var n := |s| - 1;
    var t := s[i := s[i] + 1];
    if i < n {
      CountRaised(s[..n], i);
      assert t[..n] == s[..n][i := s[i] + 1];
    } else {
      assert t[..n] == s[..n];
    }
  }

  lemma {:induction false} CountShifted(s: seq<int>, t: seq<int>, m: int)
    requires |t| == |s| && forall i :: 0 <= i < |s| ==> t[i] == m + s[i]
    ensures Count(t) == m * |s| + Count(s)
  {
    if s != [] {
      var n := |s| - 1;
      CountShifted(s[..n], t[..n], m);
      assert m * |s| == m * n + m;
    }
  }

  lemma {:induction false} CountConstant(t: seq<int>, m: int)
    requires forall i :: 0 <= i < |t| ==> t[i] == m
    ensures Count(t) == m * |t|
  {
    if t != [] {
      CountConstant(t[..|t| - 1], m);
      assert m * |t| == m * (|t| - 1) + m;
    }
  }

  // ---- who gets the leftover points -------------------------------------------------------

  /** The larger remainder first; among equals, the earlier face. */
  predicate Before(s: seq<real>, i: nat, k: nat) {
    Remainder(s, i) > Remainder(s, k) || (Remainder(s, i) == Remainder(s, k) && i <= k)
  }

  function ByRemainder(s: seq<real>): (nat, nat) -> bool {
    (i: nat, k: nat) => Before(s, i, k)
  }

  /** The faces in the order in which they get a leftover point. */
  function Queue(s: seq<real>): seq<nat> {
    SortBy(ByRemainder(s), Upto(|s|))
  }

  lemma QueueLaws(s: seq<real>)
    ensures |Queue(s)| == |s| && AllDifferent(Queue(s)) && SortedBy(ByRemainder(s), Queue(s))
    ensures forall i: nat :: i in Queue(s) <==> i < |s|
  {
    SortBySorts(ByRemainder(s), Upto(|s|));
    MultisetDifferent(Upto(|s|), Queue(s));
    forall i: nat | i < |s| ensures i in Upto(|s|) { assert Upto(|s|)[i] == i; }
  }

  lemma Sooner(s: seq<real>, a: nat, b: nat)
    requires a < |Queue(s)| && b < |Queue(s)| && !Before(s, Queue(s)[b], Queue(s)[a])
    ensures a < b
  {
    if b < a { InOrder(s, b, a); }
  }

  lemma InOrder(s: seq<real>, b: nat, a: nat)
    requires b < a < |Queue(s)|
    ensures Before(s, Queue(s)[b], Queue(s)[a])
  {
    QueueLaws(s);
    assert ByRemainder(s)(Queue(s)[b], Queue(s)[a]);
  }

  /** Only faces with a share that is not whole get a leftover point. */
  lemma WinnersHaveRemainder(s: seq<real>, left: nat, k: nat)
    requires k < left <= |Positives(s, |s|)| && |Queue(s)| == |s| && k < |s|
    ensures Remainder(s, Queue(s)[k]) > 0.0
  {
    QueueLaws(s);
    var q := Queue(s);
    if Remainder(s, q[k]) <= 0.0 {
      forall i | i in Positives(s, |s|) ensures i in Elements(q[..k]) {
        assert i in q;
        var m :| 0 <= m < |q| && q[m] == i;
        Sooner(s, m, k);
        assert q[..k][m] == i;
      }
      SubsetSize(Positives(s, |s|), Elements(q[..k]));
      ElementsSize(q[..k]);
    }
  }

  lemma {:induction false} ElementsSize(s: seq<nat>)
    ensures |Elements(s)| <= |s|
  {
    if s != [] {
      var n := |s| - 1;
      ElementsSize(s[..n]);
      assert s == s[..n] + [s[n]];
      assert Elements(s) == Elements(s[..n]) + {s[n]};
    }
  }

  predicate RaisedAt(s: seq<real>, left: nat, extra: seq<int>, i: nat) {
    i < |s| && |extra| == |s| && left <= |Queue(s)| ==>
      extra[i] == s[i].Floor + if i in Queue(s)[..left] then 1 else 0
  }

  /** Whole parts, and one point more for the first `left` in the queue. */
  ghost predicate Raised(s: seq<real>, left: nat, extra: seq<int>) {
    && |extra| == |s| && left <= |Queue(s)|
    && forall i: nat {:trigger RaisedAt(s, left, extra, i)} :: RaisedAt(s, left, extra, i)
  }

  // ---- the method -------------------------------------------------------------------------

  /** Whole parts of the shares, raised in place by one for the first in the queue. */
  method Extras(s: seq<real>, rest: int) returns (extra: seq<int>, ghost left: nat)
    requires Total(s) == rest as real
    ensures left == rest - Count(Floors(s)) && left <= |Positives(s, |s|)| && (s != [] ==> left < |s|)
    ensures Raised(s, left, extra) && Count(extra) == rest
  {
    FloorLoss(s);
    QueueLaws(s);
    var points := new int[|s|](i requires 0 <= i < |s| => s[i].Floor);
    assert points[..] == Floors(s);
    left := rest - Count(Floors(s));
    var todo := rest - Count(points[..]);
    var order := Queue(s);
    var k := 0;
    forall i: nat ensures RaisedAt(s, 0, points[..], i) {}
    while k < todo
      invariant 0 <= k <= todo && Raised(s, k, points[..])
      invariant Count(points[..]) == Count(Floors(s)) + k
    {
      ghost var was := points[..];
      assert order[k] in order;
      CountRaised(was, order[k]);
      points[order[k]] := points[order[k]] + 1;
      assert points[..] == was[order[k] := was[order[k]] + 1];
      RaiseNext(s, k, was);
      k := k + 1;
    }
    extra := points[..];
  }

  lemma RaiseNext(s: seq<real>, k: nat, extra: seq<int>)
    requires Raised(s, k, extra) && k < |Queue(s)| && Queue(s)[k] < |s|
    ensures Raised(s, k + 1, extra[Queue(s)[k] := extra[Queue(s)[k]] + 1])
  {
    QueueLaws(s);
    var q := Queue(s);
    var more, k' := extra[q[k] := extra[q[k]] + 1], k + 1;
    assert q[..k'] == q[..k] + [q[k]];
    forall i: nat ensures RaisedAt(s, k', more, i) { assert RaisedAt(s, k, extra, i); }
  }

  /** What face `i` gets above the minimum and the whole part of its share. */
  function Bonus(areas: seq<real>, total: int, minimum: int, counts: seq<int>, i: nat): int
    requires i < |areas| == |counts| && Total(areas) > 0.0
  {
    counts[i] - minimum - Share(areas[i], Total(areas), total - minimum * |areas|).Floor
  }

  /** The part of face `i`'s share that is not whole. */
  function Fraction(areas: seq<real>, total: int, minimum: int, i: nat): real
    requires i < |areas| && Total(areas) > 0.0
  {
    var share := Share(areas[i], Total(areas), total - minimum * |areas|);
    share - share.Floor as real
  }

  /** Everyone gets the whole part of the share and at most one point more; a face with a larger fraction,
      or with the same and an earlier place, gets one before another does. */
  ghost predicate LargestRemainder(areas: seq<real>, total: int, minimum: int, counts: seq<int>)
    requires |areas| == |counts| && Total(areas) > 0.0
  {
    && (forall i :: 0 <= i < |areas| ==> 0 <= Bonus(areas, total, minimum, counts, i) <= 1)
    && (forall i, k ::
          0 <= i < |areas| && 0 <= k < |areas|
          && Ahead(Fraction(areas, total, minimum, i), i, Fraction(areas, total, minimum, k), k) ==>
            Bonus(areas, total, minimum, counts, i) >= Bonus(areas, total, minimum, counts, k))
  }

  predicate Ahead(x: real, i: int, y: real, k: int) {
    x > y || (x == y && i < k)
  }

  /** What allocation promises. */
  ghost predicate Allocated(areas: seq<real>, total: int, minimum: int, counts: seq<int>) {
    && |counts| == |areas|
    && (Total(areas) > 0.0 ==> Count(counts) == if total > minimum * |areas| then total else minimum * |areas|)
    && (Total(areas) <= 0.0 ==> Count(counts) == minimum * |areas|)
    && (Total(areas) > 0.0 && total > minimum * |areas| ==>
          0 <= total - minimum * |areas| - Count(Floors(Shares(areas, total - minimum * |areas|))) < |areas|)
    && ((forall i :: 0 <= i < |areas| ==> areas[i] >= 0.0) ==> forall i :: 0 <= i < |counts| ==> counts[i] >= minimum)
    && (Total(areas) > 0.0 && total > minimum * |areas| ==> forall i :: 0 <= i < |counts| ==>
          -1.0 < (counts[i] - minimum) as real - Share(areas[i], Total(areas), total - minimum * |areas|) < 1.0)
    && (Total(areas) > 0.0 && total > minimum * |areas| ==> LargestRemainder(areas, total, minimum, counts))
    && (Total(areas) <= 0.0 || total <= minimum * |areas| ==> forall i :: 0 <= i < |counts| ==> counts[i] == minimum)
    && (forall i, k ::
          0 <= i < |areas| && 0 <= k < |areas| && (areas[i] > areas[k] || (areas[i] == areas[k] && i < k)) ==>
            counts[i] >= counts[k])
  }

  /** `allocate`. */
  method Allocate(areas: seq<real>, total: int, minimum: int) returns (counts: seq<int>)
    ensures Allocated(areas, total, minimum, counts)
  {
    var n := |areas|;
    var rest := total - minimum * n;
    if rest <= 0 || Total(areas) <= 0.0 {
      counts := seq(n, i => minimum);
      CountConstant(counts, minimum);
      return;
    }
    var shares := Shares(areas, rest);
    SharesTotal(areas, rest);
    var extra, left := Extras(shares, rest);
    counts := seq(n, i requires 0 <= i < n => minimum + extra[i]);
    CountShifted(extra, counts, minimum);
    SharesAllocate(areas, total, minimum, left, extra, counts);
  }

  lemma SharesAllocate(areas: seq<real>, total: int, minimum: int, left: nat, extra: seq<int>, counts: seq<int>)
    requires Total(areas) > 0.0 && total > minimum * |areas| && |counts| == |areas|
    requires
      var shares := Shares(areas, total - minimum * |areas|);
      Raised(shares, left, extra) && left <= |Positives(shares, |shares|)|
    requires left == total - minimum * |areas| - Count(Floors(Shares(areas, total - minimum * |areas|)))
    requires areas != [] ==> left < |areas|
    requires Count(counts) == total && forall i :: 0 <= i < |areas| ==> counts[i] == minimum + extra[i]
    ensures Allocated(areas, total, minimum, counts)
  {
    var n, rest, sum := |areas|, total - minimum * |areas|, Total(areas);
    var shares := Shares(areas, rest);
    forall i | 0 <= i < n
      ensures -1.0 < (counts[i] - minimum) as real - Share(areas[i], sum, rest) < 1.0
      ensures areas[i] >= 0.0 ==> counts[i] >= minimum
    {
      StaysNear(shares, left, extra, i);
      assert NearShare(shares, extra, i);
      if areas[i] >= 0.0 { ShareOrder(areas[i], 0.0, sum, rest); }
    }
    forall i, k | 0 <= i < n && 0 <= k < n && (areas[i] > areas[k] || (areas[i] == areas[k] && i < k))
      ensures counts[i] >= counts[k]
    {
      ShareOrder(areas[i], areas[k], sum, rest);
      LargerNotLess(shares, left, extra, i, k);
    }
    LargestFirst(areas, total, minimum, left, extra, counts);
  }

  lemma LargestFirst(areas: seq<real>, total: int, minimum: int, left: nat, extra: seq<int>, counts: seq<int>)
    requires Total(areas) > 0.0 && |counts| == |areas|
    requires Raised(Shares(areas, total - minimum * |areas|), left, extra)
    requires forall i :: 0 <= i < |areas| ==> counts[i] == minimum + extra[i]
    ensures LargestRemainder(areas, total, minimum, counts)
  {
    var shares := Shares(areas, total - minimum * |areas|);
    forall i: nat | i < |areas|
      ensures Bonus(areas, total, minimum, counts, i) == if i in Queue(shares)[..left] then 1 else 0
      ensures Fraction(areas, total, minimum, i) == Remainder(shares, i)
    {
      assert RaisedAt(shares, left, extra, i);
    }
    forall i: nat, k: nat | i < |areas| && k < |areas| && k in Queue(shares)[..left] && i != k && Before(shares, i, k)
      ensures i in Queue(shares)[..left]
    {
      QueueFirst(shares, left, i, k);
    }
  }

  lemma QueueFirst(s: seq<real>, left: nat, i: nat, k: nat)
    requires i < |s| && k < |s| && i != k && left <= |Queue(s)| && k in Queue(s)[..left] && Before(s, i, k)
    ensures i in Queue(s)[..left]
  {
    QueueLaws(s);
    var q := Queue(s);
    var b :| 0 <= b < left && q[b] == k;
    assert i in q;
    var a :| 0 <= a < |q| && q[a] == i;
    Sooner(s, a, b);
    assert q[..left][a] == i;
  }

  predicate NearShare(s: seq<real>, extra: seq<int>, i: int) {
    0 <= i < |s| && i < |extra| ==> -1.0 < extra[i] as real - s[i] < 1.0
  }

  lemma StaysNear(s: seq<real>, left: nat, extra: seq<int>, i: nat)
    requires Raised(s, left, extra) && left <= |Positives(s, |s|)| && i < |s|
    ensures NearShare(s, extra, i)
  {
    assert RaisedAt(s, left, extra, i);
    QueueLaws(s);
    assert 0.0 <= Remainder(s, i) < 1.0;
    if i in Queue(s)[..left] {
      var k :| 0 <= k < left && Queue(s)[k] == i;
      WinnersHaveRemainder(s, left, k);
    }
  }

  lemma ShareOrder(a: real, b: real, sum: real, rest: int)
    requires sum > 0.0 && rest > 0 && a >= b
    ensures Share(a, sum, rest) >= Share(b, sum, rest)
    ensures a > b ==> Share(a, sum, rest) > Share(b, sum, rest)
    ensures Share(0.0, sum, rest) == 0.0
  {
  }

  lemma LargerNotLess(s: seq<real>, left: nat, extra: seq<int>, i: nat, k: nat)
    requires Raised(s, left, extra) && i < |s| && k < |s| && (s[i] > s[k] || (s[i] == s[k] && i < k))
    ensures extra[i] >= extra[k]
  {
    assert RaisedAt(s, left, extra, i) && RaisedAt(s, left, extra, k);
    if s[i].Floor == s[k].Floor && k in Queue(s)[..left] {
      QueueLaws(s);
      var q := Queue(s);
      var b :| 0 <= b < left && q[b] == k;
      assert i in q;
      var a :| 0 <= a < |q| && q[a] == i;
      Sooner(s, a, b);
      assert q[..left][a] == i;
    }
  }
}
