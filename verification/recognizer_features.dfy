/** `recognize` and `_conf` of cad2ml/semantics/recognizer.py: the rules claim faces, what is left
    over is labelled, and the features get names. The rules themselves are arbitrary. */
module RecognizerFeatures {
  import opened Ordering
  import opened Sorting
  import opened Identifiers
  import opened RecognizerSearch

  datatype FeatureType =
    ThroughHole | BlindHole | HoleWall | Slot | Pocket | Fillet | PlanarFace | Unknown

  /** A feature; `passed` has one entry per check in its evidence. */
  datatype Feature = Feature(id: string, kind: FeatureType, faces: seq<Face>, passed: seq<bool>, confidence: nat)

  datatype FaceRecord = FaceRecord(id: Face, plane: bool)

  type Claims = map<Face, FeatureType>

  // ---- confidence -------------------------------------------------------------------------

  function Passed(ev: seq<bool>): (n: nat)
    ensures n <= |ev|
  {
    if ev == [] then 0 else (if ev[0] then 1 else 0) + Passed(ev[1..])
  }

  /** The integer nearest to `a / b`, the even one of two. */
  function RoundHalfEven(a: nat, b: nat): nat
    requires b > 0
  {
    var q, r := a / b, a % b;
    if 2 * r < b then q else if 2 * r > b then q + 1 else if q % 2 == 0 then q else q + 1
  }

  /** `_conf`, in units of 0.0001: 0.95 times the share of passed checks, rounded to four places. */
  function Conf(ev: seq<bool>): nat {
    RoundHalfEven(9500 * Passed(ev), if |ev| == 0 then 1 else |ev|)
  }

  lemma Scale(d: nat, e: nat, n: nat)
    requires d <= e
    ensures d * n <= e * n
  {
  }

  lemma CapReached(p: nat, n: nat)
    requires p <= n && n > 0
    ensures RoundHalfEven(9500 * p, n) <= 9500
    ensures RoundHalfEven(9500 * p, n) == 9500 <==> 19000 * (n - p) <= n
  {
    var a := 9500 * p;
    var d, r := a / n, a % n;
    assert a == d * n + r;
    if d >= 9501 {
      Scale(9501, d, n);
    } else if d == 9500 || d == 9499 {
      assert d * n == if d == 9500 then 9500 * n else 9499 * n;
    } else {
      Scale(d, 9498, n);
    }
  }

  /** Confidence never exceeds the cap of 0.95, is zero when no check passed, and reaches the cap
      exactly when there are checks and all pass: the rounding hides no failed check of fewer than
      19000. */
  lemma ConfBounds(ev: seq<bool>)
    ensures Conf(ev) <= 9500
    ensures Passed(ev) == 0 ==> Conf(ev) == 0
    ensures Conf(ev) == 9500 <==> ev != [] && 19000 * (|ev| - Passed(ev)) <= |ev|
    ensures |ev| < 19000 ==> (Conf(ev) == 9500 <==> ev != [] && Passed(ev) == |ev|)
  {
    if ev != [] {
      CapReached(Passed(ev), |ev|);
      assert Passed(ev) == 0 ==> RoundHalfEven(0, |ev|) == 0;
    }
  }

  lemma {:induction false} PassedLast(ev: seq<bool>, b: bool)
    ensures Passed(ev + [b]) == Passed(ev) + if b then 1 else 0
  {
    if ev == [] {
      assert ev + [b] == [b] && [b][1..] == [];
    } else {
      PassedLast(ev[1..], b);
      assert (ev + [b])[1..] == ev[1..] + [b];
    }
  }

  /** The checks that passed, counted by position. */
  lemma {:induction false} PassedCounts(ev: seq<bool>)
    ensures Passed(ev) == |set i | 0 <= i < |ev| && ev[i]|
  {
    var here := set i | 0 <= i < |ev| && ev[i];
    if ev == [] {
      assert here == {};
    } else {
      var n := |ev| - 1;
      var front := ev[..n];
      PassedCounts(front);
      PassedLast(front, ev[n]);
      assert ev == front + [ev[n]];
      var there := set i | 0 <= i < |front| && front[i];
      assert here == if ev[n] then there + {n} else there;
    }
  }

  /** The confidence is the nearest of its units to 0.95 times the share of passed checks, and of two
      equally near the even one. */
  lemma ConfNearest(ev: seq<bool>)
    requires ev != []
    ensures
      var n, error := |ev|, Conf(ev) * |ev| - 9500 * |set i | 0 <= i < |ev| && ev[i]|;
      -n <= 2 * error <= n && (2 * error == n || 2 * error == -n ==> Conf(ev) % 2 == 0)
  {
    PassedCounts(ev);
    Nearest(9500 * Passed(ev), |ev|);
  }

  lemma Nearest(a: int, b: int)
    requires a >= 0 && b > 0
    ensures
      var q := RoundHalfEven(a, b);
      -b <= 2 * (q * b - a) <= b && (2 * (q * b - a) == b || 2 * (q * b - a) == -b ==> q % 2 == 0)
  {
    var q, r := a / b, a % b;
    assert a == q * b + r;
    assert (q + 1) * b == q * b + b;
  }

  // ---- names ------------------------------------------------------------------------------

  function Prefix(k: FeatureType): (p: string)
    ensures NoDigits(p) && p != []
  {
    match k
    case ThroughHole => "H"
    case BlindHole => "H"
    case HoleWall => "W"
    case Slot => "S"
    case Pocket => "P"
    case Fillet => "R"
    case PlanarFace => "PL"
    case Unknown => "U"
  }

  function KindRank(k: FeatureType): nat {
    match k
    case ThroughHole => 0
    case BlindHole => 1
    case HoleWall => 2
    case Slot => 3
    case Pocket => 4
    case Fillet => 5
    case PlanarFace => 6
    case Unknown => 7
  }

  /** How many of the first `k` features have prefix `p`. */
  function Earlier(fs: seq<Feature>, k: nat, p: string): nat
    requires k <= |fs|
  {
    if k == 0 then 0 else Earlier(fs, k - 1, p) + if Prefix(fs[k - 1].kind) == p then 1 else 0
  }

  lemma {:induction false} EarlierGrows(fs: seq<Feature>, j: nat, k: nat, p: string)
    requires j <= k <= |fs|
    ensures Earlier(fs, j, p) <= Earlier(fs, k, p)
    decreases k
  {
    if j < k { EarlierGrows(fs, j, k - 1, p); }
  }

  /** Feature `k` is named by its prefix and its number among the features with that prefix. */
  predicate NamedAt(fs: seq<Feature>, named: seq<Feature>, k: nat)
    requires |named| <= |fs|
  {
    k < |named| ==>
      named[k] == fs[k].(id := Prefix(fs[k].kind) + Pad3(Earlier(fs, k, Prefix(fs[k].kind)) + 1))
  }

  predicate CountedAt(fs: seq<Feature>, k: nat, counters: map<string, nat>, p: string)
    requires k <= |fs|
  {
    (if p in counters then counters[p] else 0) == Earlier(fs, k, p)
  }

  lemma CountStep(fs: seq<Feature>, i: nat, next: nat, counters: map<string, nat>)
    requires next == i + 1 <= |fs|
    requires forall p: string {:trigger CountedAt(fs, i, counters, p)} :: CountedAt(fs, i, counters, p)
    ensures
      var p := Prefix(fs[i].kind);
      var counters' := counters[p := (if p in counters then counters[p] else 0) + 1];
      forall q: string {:trigger CountedAt(fs, next, counters', q)} :: CountedAt(fs, next, counters', q)
  {
    var p := Prefix(fs[i].kind);
    var counters' := counters[p := (if p in counters then counters[p] else 0) + 1];
    forall q: string ensures CountedAt(fs, next, counters', q) { assert CountedAt(fs, i, counters, q); }
  }

  lemma NameStep(fs: seq<Feature>, named: seq<Feature>, i: nat)
    requires i < |fs| && |named| == i && forall k: nat {:trigger NamedAt(fs, named, k)} :: NamedAt(fs, named, k)
    ensures
      var p := Prefix(fs[i].kind);
      var named' := named + [fs[i].(id := p + Pad3(Earlier(fs, i, p) + 1))];
      forall k: nat {:trigger NamedAt(fs, named', k)} :: NamedAt(fs, named', k)
  {
    var p := Prefix(fs[i].kind);
    var named' := named + [fs[i].(id := p + Pad3(Earlier(fs, i, p) + 1))];
    forall k: nat ensures NamedAt(fs, named', k) { assert NamedAt(fs, named, k); }
  }

  /** The naming loop. */
  method NameFeatures(fs: seq<Feature>) returns (named: seq<Feature>)
    ensures |named| == |fs| && forall k: nat {:trigger NamedAt(fs, named, k)} :: NamedAt(fs, named, k)
  {
    var counters: map<string, nat> := map[];
    named := [];
    var i := 0;
    while i < |fs|
      invariant 0 <= i <= |fs| && |named| == i
      invariant forall p: string {:trigger CountedAt(fs, i, counters, p)} :: CountedAt(fs, i, counters, p)
      invariant forall k: nat {:trigger NamedAt(fs, named, k)} :: NamedAt(fs, named, k)
    {
      var p := Prefix(fs[i].kind);
      assert CountedAt(fs, i, counters, p);
      var next := i + 1;
      CountStep(fs, i, next, counters);
      NameStep(fs, named, i);
      counters := counters[p := (if p in counters then counters[p] else 0) + 1];
      assert counters[p] == Earlier(fs, i, p) + 1;
      named := named + [fs[i].(id := p + Pad3(counters[p]))];
      i := next;
    }
  }

  /** No two features get the same name, although through and blind holes share a counter and `P` is
      a prefix of `PL`. */
  lemma NamesAreDistinct(fs: seq<Feature>, named: seq<Feature>, j: nat, k: nat)
    requires |named| == |fs| && j < k < |fs| && NamedAt(fs, named, j) && NamedAt(fs, named, k)
    ensures named[j].id != named[k].id
  {
    var p, q := Prefix(fs[j].kind), Prefix(fs[k].kind);
    if named[j].id == named[k].id {
      NamesDiffer(p, Earlier(fs, j, p) + 1, q, Earlier(fs, k, q) + 1);
      EarlierGrows(fs, j + 1, k, p);
    }
  }

  // ---- the order --------------------------------------------------------------------------

  function SortKey(f: Feature): seq<int> {
    [KindRank(f.kind)] + f.faces
  }

  predicate FeatureLe(f: Feature, g: Feature) {
    LexLe(SortKey(f), SortKey(g))
  }

  lemma FeaturesRank()
    ensures Ranks(FeatureLe)
  {
    forall f: Feature, g: Feature ensures FeatureLe(f, g) || FeatureLe(g, f) { LexTotal(SortKey(f), SortKey(g)); }
    forall f: Feature, g: Feature, h: Feature | FeatureLe(f, g) && FeatureLe(g, h) ensures FeatureLe(f, h) {
      LexTransitive(SortKey(f), SortKey(g), SortKey(h));
    }
  }

  // ---- claims -----------------------------------------------------------------------------

  /** A rule looks at what is claimed when it starts and proposes features. */
  type Rule = Claims -> seq<Feature>

  ghost predicate Proposal(ids: set<Face>, f: Feature) {
    && f.faces != [] && Ascending(f.faces) && (forall x :: x in f.faces ==> x in ids)
    && f.confidence == Conf(f.passed) && f.id == ""
  }

  /** Every rule builds features of known faces, sorted and without repetition, with the confidence of
      its evidence. */
  ghost predicate Proposes(ids: set<Face>, rule: Rule) {
    forall c: Claims, f :: f in rule(c) ==> Proposal(ids, f)
  }

  predicate Shares(fs: seq<Feature>, i: int, k: int, x: Face) {
    0 <= i < |fs| && 0 <= k < |fs| && x in fs[i].faces && x in fs[k].faces
  }

  ghost predicate Disjoint(fs: seq<Feature>) {
    forall i, k, x :: Shares(fs, i, k, x) ==> i == k
  }

  predicate Has(fs: seq<Feature>, k: int, x: Face) {
    0 <= k < |fs| && x in fs[k].faces
  }

  ghost predicate Covered(fs: seq<Feature>, x: Face) {
    exists k :: Has(fs, k, x)
  }

  /** The features so far share no face, and `taken` is what they hold. */
  ghost predicate Claimed(ids: set<Face>, fs: seq<Feature>, taken: set<Face>) {
    && Disjoint(fs) && (forall f :: f in fs ==> Proposal(ids, f))
    && (forall x {:trigger Covered(fs, x)} :: x in taken <==> Covered(fs, x))
  }

  lemma ClaimOne(ids: set<Face>, fs: seq<Feature>, taken: set<Face>, f: Feature)
    requires Claimed(ids, fs, taken) && Proposal(ids, f) && forall x :: x in f.faces ==> x !in taken
    ensures Claimed(ids, fs + [f], taken + Elements(f.faces))
  {
    var more := fs + [f];
    forall i, k, x | Shares(more, i, k, x) ensures i == k {
      if i < |fs| {
        assert Has(fs, i, x) && Covered(fs, x);
        if k < |fs| { assert Shares(fs, i, k, x); }
      } else if k < |fs| {
        assert Has(fs, k, x) && Covered(fs, x);
      }
    }
    forall x ensures x in taken + Elements(f.faces) <==> Covered(more, x) {
      if Covered(more, x) {
        var k :| Has(more, k, x);
        if k < |fs| { assert Has(fs, k, x) && Covered(fs, x); }
      }
      if x in taken {
        assert Covered(fs, x);
        var k :| Has(fs, k, x);
        assert Has(more, k, x);
      }
      if x in f.faces { assert Has(more, |fs|, x); }
    }
  }

  // ---- first come, first served -----------------------------------------------------------

  /** What the rules offered, in order, and which offers became features. */
  datatype Offers = Offers(all: seq<Feature>, kept: seq<bool>)

  predicate KeptAt(o: Offers, j: int) {
    0 <= j < |o.all| && j < |o.kept| && o.kept[j]
  }

  /** Offer `j` became a feature and holds face `x`. */
  predicate Holds(o: Offers, j: int, x: Face) {
    KeptAt(o, j) && x in o.all[j].faces
  }

  /** Offer `j` became a feature exactly when none of its faces was held already. */
  ghost predicate Decided(o: Offers, j: int)
    requires 0 <= j < |o.all|
  {
    KeptAt(o, j) <==> forall i, x {:trigger Holds(o, i, x)} :: i < j && Holds(o, i, x) ==> x !in o.all[j].faces
  }

  ghost predicate FirstCome(o: Offers) {
    |o.kept| == |o.all| && forall j {:trigger Decided(o, j)} :: 0 <= j < |o.all| ==> Decided(o, j)
  }

  /** Among the first `n` offers one of kind `t` became a feature that holds `x`. */
  ghost predicate HeldAs(o: Offers, n: int, x: Face, t: FeatureType) {
    exists j :: 0 <= j < n && Holds(o, j, x) && o.all[j].kind == t
  }

  /** The claims are the kinds under which the first `n` offers hold their faces. */
  ghost predicate ClaimsAre(o: Offers, n: int, claims: Claims) {
    forall x, t {:trigger HeldAs(o, n, x, t)} :: HeldAs(o, n, x, t) <==> x in claims && claims[x] == t
  }

  ghost predicate IsKept(o: Offers, f: Feature) {
    exists j :: KeptAt(o, j) && o.all[j] == f
  }

  /** The features are the offers that were kept. */
  ghost predicate KeptAre(o: Offers, fs: seq<Feature>) {
    forall f {:trigger IsKept(o, f)} :: IsKept(o, f) <==> f in fs
  }

  function Claim(claims: Claims, f: Feature): Claims {
    claims + map x | x in f.faces :: f.kind
  }

  predicate Touches(f: Feature, claims: Claims) {
    exists x :: x in f.faces && x in claims
  }

  function Offering(o: Offers, f: Feature, take: bool): Offers {
    Offers(o.all + [f], o.kept + [take])
  }

  lemma OfferHolds(o: Offers, f: Feature, take: bool, j: int, x: Face)
    requires |o.kept| == |o.all|
    ensures Holds(Offering(o, f, take), j, x) <==> Holds(o, j, x) || (j == |o.all| && take && x in f.faces)
  {
  }

  lemma OfferDecides(o: Offers, claims: Claims, f: Feature)
    requires FirstCome(o) && ClaimsAre(o, |o.all|, claims)
    ensures FirstCome(Offering(o, f, !Touches(f, claims)))
  {
    var n, take := |o.all|, !Touches(f, claims);
    var o' := Offering(o, f, take);
    forall j | 0 <= j < n + 1 ensures Decided(o', j) {
      if j < n {
        assert Decided(o, j);
        forall i, x | i < j ensures Holds(o', i, x) <==> Holds(o, i, x) { OfferHolds(o, f, take, i, x); }
      } else {
        forall i, x | i < n && Holds(o', i, x) && x in f.faces ensures Touches(f, claims) {
          OfferHolds(o, f, take, i, x);
          assert HeldAs(o, n, x, o.all[i].kind);
        }
        if !take {
          var x :| x in f.faces && x in claims;
          assert HeldAs(o, n, x, claims[x]);
          var i :| 0 <= i < n && Holds(o, i, x) && o.all[i].kind == claims[x];
          OfferHolds(o, f, take, i, x);
        }
      }
    }
  }

  lemma OfferClaims(o: Offers, claims: Claims, f: Feature)
    requires |o.kept| == |o.all| && ClaimsAre(o, |o.all|, claims)
    ensures
      var claims' := if Touches(f, claims) then claims else Claim(claims, f);
      ClaimsAre(Offering(o, f, !Touches(f, claims)), |o.all| + 1, claims')
  {
    var n, next, take := |o.all|, |o.all| + 1, !Touches(f, claims);
    var o' := Offering(o, f, take);
    var claims' := if take then Claim(claims, f) else claims;
    forall x, t ensures HeldAs(o', next, x, t) <==> x in claims' && claims'[x] == t {
      HeldGrows(o, f, take, x, t);
      assert HeldAs(o, n, x, t) <==> x in claims && claims[x] == t;
    }
  }

  lemma HeldGrows(o: Offers, f: Feature, take: bool, x: Face, t: FeatureType)
    requires |o.kept| == |o.all|
    ensures HeldAs(Offering(o, f, take), |o.all| + 1, x, t)
       <==> HeldAs(o, |o.all|, x, t) || (take && x in f.faces && f.kind == t)
  {
    var n, o' := |o.all|, Offering(o, f, take);
    if HeldAs(o', n + 1, x, t) {
      var j :| 0 <= j < n + 1 && Holds(o', j, x) && o'.all[j].kind == t;
      OfferHolds(o, f, take, j, x);
    }
    if HeldAs(o, n, x, t) {
      var j :| 0 <= j < n && Holds(o, j, x) && o.all[j].kind == t;
      OfferHolds(o, f, take, j, x);
    }
    if take && x in f.faces && f.kind == t { OfferHolds(o, f, take, n, x); }
  }

  lemma OfferKeeps(o: Offers, fs: seq<Feature>, f: Feature, take: bool)
    requires |o.kept| == |o.all| && KeptAre(o, fs)
    ensures KeptAre(Offering(o, f, take), if take then fs + [f] else fs)
  {
    var o', fs' := Offering(o, f, take), if take then fs + [f] else fs;
    forall g ensures IsKept(o', g) <==> g in fs' {
      assert IsKept(o, g) <==> g in fs;
      if IsKept(o, g) {
        var j :| KeptAt(o, j) && o.all[j] == g;
        assert KeptAt(o', j);
      }
      if IsKept(o', g) {
        var j :| KeptAt(o', j) && o'.all[j] == g;
        assert j < |o.all| ==> KeptAt(o, j);
      }
      if take && g == f { assert KeptAt(o', |o.all|); }
    }
  }

  /** Later offers leave the claims an earlier rule saw as they were. */
  predicate Extends(o: Offers, o': Offers) {
    |o.kept| == |o.all| && |o'.kept| == |o'.all| && o.all <= o'.all && o.kept <= o'.kept
  }

  lemma ClaimsStay(o: Offers, o': Offers, n: int, claims: Claims)
    requires Extends(o, o') && n <= |o.all| && ClaimsAre(o, n, claims)
    ensures ClaimsAre(o', n, claims)
  {
    forall x, t ensures HeldAs(o', n, x, t) <==> x in claims && claims[x] == t {
      assert HeldAs(o, n, x, t) <==> x in claims && claims[x] == t;
      forall j | 0 <= j < n ensures Holds(o', j, x) <==> Holds(o, j, x) {}
      if HeldAs(o, n, x, t) {
        var j :| 0 <= j < n && Holds(o, j, x) && o.all[j].kind == t;
        assert Holds(o', j, x);
      }
      if HeldAs(o', n, x, t) {
        var j :| 0 <= j < n && Holds(o', j, x) && o'.all[j].kind == t;
        assert Holds(o, j, x);
      }
    }
  }

  /** The inner claiming loop: a proposal that touches a claimed face is dropped. */
  method ClaimAll(ids: set<Face>, proposed: seq<Feature>, fs: seq<Feature>, claims: Claims, ghost o: Offers)
    returns (fs': seq<Feature>, claims': Claims, ghost o': Offers)
    requires forall f :: f in proposed ==> Proposal(ids, f)
    requires Claimed(ids, fs, claims.Keys)
    requires FirstCome(o) && ClaimsAre(o, |o.all|, claims) && KeptAre(o, fs)
    ensures Claimed(ids, fs', claims'.Keys)
    ensures FirstCome(o') && ClaimsAre(o', |o'.all|, claims') && KeptAre(o', fs')
    ensures Extends(o, o') && o'.all == o.all + proposed
  {
    fs', claims', o' := fs, claims, o;
    var i := 0;
    while i < |proposed|
      invariant 0 <= i <= |proposed| && Claimed(ids, fs', claims'.Keys)
      invariant FirstCome(o') && ClaimsAre(o', |o'.all|, claims') && KeptAre(o', fs')
      invariant Extends(o, o') && o'.all == o.all + proposed[..i]
    {
      var f := proposed[i];
      ghost var take := !Touches(f, claims');
      OfferDecides(o', claims', f);
      OfferClaims(o', claims', f);
      OfferKeeps(o', fs', f, take);
      ghost var next := Offering(o', f, take);
      assert |next.all| == |o'.all| + 1 && next.all == o.all + proposed[..i + 1];
      if !Touches(f, claims') {
        ClaimOne(ids, fs', claims'.Keys, f);
        ghost var before := claims';
        claims' := Claim(claims', f);
        assert claims'.Keys == before.Keys + Elements(f.faces);
        fs' := fs' + [f];
      }
      o' := next;
      i := i + 1;
    }
    assert proposed[..i] == proposed;
  }

  function LeftOver(f: FaceRecord): Feature {
    if f.plane then Feature("", PlanarFace, [f.id], [true, true], Conf([true, true]))
    else Feature("", Unknown, [f.id], [false], 0)
  }

  predicate UniqueIds(records: seq<FaceRecord>) {
    forall i, k :: 0 <= i < k < |records| ==> records[i].id != records[k].id
  }

  function Ids(records: seq<FaceRecord>): set<Face> {
    set r | r in records :: r.id
  }

  /** The label of a face no rule explains: an analytic plane in no recognized feature passes both checks,
      any other face fails the one check there is. */
  ghost predicate Labels(f: Feature, r: FaceRecord) {
    f == if r.plane then Feature("", PlanarFace, [r.id], [true, true], 9500)
         else Feature("", Unknown, [r.id], [false], 0)
  }

  /** `f` labels one of the first `k` faces outside `taken`. */
  ghost predicate LabelsOne(records: seq<FaceRecord>, k: int, taken: set<Face>, f: Feature) {
    exists i :: 0 <= i < k && i < |records| && records[i].id !in taken && Labels(f, records[i])
  }

  lemma LeftOverLabels(r: FaceRecord)
    ensures Labels(LeftOver(r), r)
  {
    var ev := [true, true];
    assert ev[1..] == [true] && ev[1..][1..] == [];
    assert Passed(ev) == 1 + Passed([true]) && Passed([true]) == 1 + Passed([]);
  }

  /** The loop over unclaimed faces: planes, and everything no rule explains. */
  method LabelRest(records: seq<FaceRecord>, fs: seq<Feature>, claims: Claims) returns (fs': seq<Feature>)
    requires UniqueIds(records) && Claimed(Ids(records), fs, claims.Keys)
    ensures Claimed(Ids(records), fs', Ids(records) + claims.Keys)
    ensures forall f :: f in fs' <==> f in fs || LabelsOne(records, |records|, claims.Keys, f)
  {
    fs' := fs;
    ghost var ids, taken := Ids(records), claims.Keys;
    var i := 0;
    while i < |records|
      invariant 0 <= i <= |records| && Claimed(ids, fs', taken)
      invariant forall f :: f in fs' <==> f in fs || LabelsOne(records, i, claims.Keys, f)
      invariant taken == Ids(records[..i]) + claims.Keys
    {
      var r := records[i];
      NextId(records, i);
      LabelMore(records, i, claims.Keys);
      ghost var before := fs';
      if r.id !in claims {
        LabelOne(ids, fs', taken, r);
        LeftOverLabels(r);
        fs' := fs' + [LeftOver(r)];
        taken := taken + {r.id};
      }
      i := i + 1;
    }
    assert records[..i] == records;
  }

  lemma LabelMore(records: seq<FaceRecord>, i: nat, taken: set<Face>)
    requires i < |records|
    ensures forall f :: LabelsOne(records, i + 1, taken, f)
                   <==> LabelsOne(records, i, taken, f) || (records[i].id !in taken && Labels(f, records[i]))
  {
    forall f ensures LabelsOne(records, i + 1, taken, f)
                <==> LabelsOne(records, i, taken, f) || (records[i].id !in taken && Labels(f, records[i]))
    {
    }
  }

  lemma LabelOne(ids: set<Face>, fs: seq<Feature>, taken: set<Face>, r: FaceRecord)
    requires Claimed(ids, fs, taken) && r.id in ids && r.id !in taken
    ensures Claimed(ids, fs + [LeftOver(r)], taken + {r.id})
  {
    ClaimOne(ids, fs, taken, LeftOver(r));
    assert Elements([r.id]) == {r.id};
  }

  lemma NextId(records: seq<FaceRecord>, i: nat)
    requires UniqueIds(records) && i < |records|
    ensures records[i].id in Ids(records) && records[i].id !in Ids(records[..i])
    ensures Ids(records[..i + 1]) == Ids(records[..i]) + {records[i].id}
  {
    assert records[i] in records && records[..i + 1] == records[..i] + [records[i]];
  }

  // ---- the whole function -----------------------------------------------------------------

  /** What `recognize` promises of its features. */
  ghost predicate Recognized(ids: set<Face>, fs: seq<Feature>) {
    && Disjoint(fs)
    && (forall x {:trigger Covered(fs, x)} :: x in ids <==> Covered(fs, x))
    && (forall i, k :: 0 <= i < k < |fs| ==> fs[i].id != fs[k].id)
    && (forall f :: f in fs ==> f.faces != [] && Ascending(f.faces) && f.confidence == Conf(f.passed) <= 9500)
    && SortedBy(FeatureLe, fs)
  }

  /** What the rules were asked: rule `k` saw the claims `asked[k]`, and its offers go from `starts[k]` to
      `starts[k + 1]`. */
  datatype Turns = Turns(offers: Offers, asked: seq<Claims>, starts: seq<nat>)

  /** Rule `k` saw what was claimed before its turn and offered what it proposes then. */
  ghost predicate Turn(rules: seq<Rule>, t: Turns, k: int) {
    && 0 <= k < |rules| && k < |t.asked| && k + 1 < |t.starts|
    && t.starts[k] <= t.starts[k + 1] <= |t.offers.all|
    && t.offers.all[t.starts[k]..t.starts[k + 1]] == rules[k](t.asked[k])
    && ClaimsAre(t.offers, t.starts[k], t.asked[k])
  }

  /** The rules take their turns in order, and the first to claim a face keeps it. */
  ghost predicate Served(rules: seq<Rule>, t: Turns) {
    && |t.starts| == |rules| + 1 && t.starts[0] == 0 && t.starts[|rules|] == |t.offers.all|
    && (forall k {:trigger Turn(rules, t, k)} :: 0 <= k < |rules| ==> Turn(rules, t, k))
    && FirstCome(t.offers)
  }

  /** No offer that was kept holds `x`. */
  ghost predicate Free(o: Offers, x: Face) {
    forall j {:trigger Holds(o, j, x)} :: !Holds(o, j, x)
  }

  /** `f` labels a face that no kept offer holds. */
  ghost predicate LabelsFree(records: seq<FaceRecord>, o: Offers, f: Feature) {
    exists r :: r in records && Free(o, r.id) && Labels(f, r)
  }

  /** The features, before they are named, are the kept offers and the labels of the faces these leave. */
  ghost predicate Explained(records: seq<FaceRecord>, o: Offers, fs: seq<Feature>) {
    forall f {:trigger Nameless(fs, f)} :: Nameless(fs, f) <==> IsKept(o, f) || LabelsFree(records, o, f)
  }

  predicate Nameless(fs: seq<Feature>, f: Feature) {
    exists k :: 0 <= k < |fs| && fs[k].(id := "") == f
  }

  lemma TurnStays(rules: seq<Rule>, t: Turns, t': Turns, k: int)
    requires Turn(rules, t, k) && Extends(t.offers, t'.offers) && t.asked <= t'.asked && t.starts <= t'.starts
    ensures Turn(rules, t', k)
  {
    ClaimsStay(t.offers, t'.offers, t.starts[k], t.asked[k]);
    assert t'.offers.all[t'.starts[k]..t'.starts[k + 1]] == t.offers.all[t.starts[k]..t.starts[k + 1]];
  }

  lemma NextTurn(rules: seq<Rule>, t: Turns, k: int, claims: Claims, o': Offers)
    requires 0 <= k < |rules| && |t.asked| == k && |t.starts| == k + 1 && t.starts[k] == |t.offers.all|
    requires ClaimsAre(t.offers, |t.offers.all|, claims)
    requires Extends(t.offers, o') && o'.all == t.offers.all + rules[k](claims)
    ensures Turn(rules, Turns(o', t.asked + [claims], t.starts + [|o'.all|]), k)
  {
    ClaimsStay(t.offers, o', t.starts[k], claims);
  }

  lemma AllLeft(records: seq<FaceRecord>, o: Offers, claims: Claims, f: Feature)
    requires FirstCome(o) && ClaimsAre(o, |o.all|, claims)
    ensures LabelsOne(records, |records|, claims.Keys, f) <==> LabelsFree(records, o, f)
  {
    forall x ensures x in claims <==> !Free(o, x) { ClaimsHold(o, claims, x); }
    if LabelsOne(records, |records|, claims.Keys, f) {
      var i :| 0 <= i < |records| && records[i].id !in claims.Keys && Labels(f, records[i]);
      assert records[i] in records;
    }
    if LabelsFree(records, o, f) {
      var r :| r in records && Free(o, r.id) && Labels(f, r);
      var i :| 0 <= i < |records| && records[i] == r;
      assert records[i].id !in claims.Keys;
    }
  }

  lemma ClaimsHold(o: Offers, claims: Claims, x: Face)
    requires ClaimsAre(o, |o.all|, claims)
    ensures x in claims <==> !Free(o, x)
  {
    if x in claims { assert HeldAs(o, |o.all|, x, claims[x]); }
    if !Free(o, x) {
      var j :| Holds(o, j, x);
      assert HeldAs(o, |o.all|, x, o.all[j].kind);
    }
  }

  /** The proposals of the rules, claimed in turn, and the labels of the rest. */
  method ClaimFaces(records: seq<FaceRecord>, rules: seq<Rule>) returns (fs: seq<Feature>, ghost t: Turns)
    requires UniqueIds(records) && forall k :: 0 <= k < |rules| ==> Proposes(Ids(records), rules[k])
    ensures Claimed(Ids(records), fs, Ids(records))
    ensures Served(rules, t) && forall f :: f in fs <==> IsKept(t.offers, f) || LabelsFree(records, t.offers, f)
  {
    fs := [];
    var claims: Claims := map[];
    t := Turns(Offers([], []), [], [0]);
    var k := 0;
    while k < |rules|
      invariant 0 <= k <= |rules| && Claimed(Ids(records), fs, claims.Keys)
      invariant |t.asked| == k && |t.starts| == k + 1 && t.starts[0] == 0 && t.starts[k] == |t.offers.all|
      invariant forall l {:trigger Turn(rules, t, l)} :: 0 <= l < k ==> Turn(rules, t, l)
      invariant FirstCome(t.offers) && ClaimsAre(t.offers, |t.offers.all|, claims) && KeptAre(t.offers, fs)
    {
      ghost var before, seen := t, claims;
      ghost var offers;
      fs, claims, offers := ClaimAll(Ids(records), rules[k](claims), fs, claims, t.offers);
      t := Turns(offers, t.asked + [seen], t.starts + [|offers.all|]);
      NextTurn(rules, before, k, seen, offers);
      forall l | 0 <= l < k ensures Turn(rules, t, l) {
        assert Turn(rules, before, l);
        TurnStays(rules, before, t, l);
      }
      k := k + 1;
    }
    ClaimsKnown(Ids(records), fs, claims.Keys);
    assert Ids(records) + claims.Keys == Ids(records);
    ghost var kept := fs;
    fs := LabelRest(records, fs, claims);
    forall f ensures f in fs <==> IsKept(t.offers, f) || LabelsFree(records, t.offers, f) {
      AllLeft(records, t.offers, claims, f);
      assert IsKept(t.offers, f) <==> f in kept;
    }
  }

  lemma ClaimsKnown(ids: set<Face>, fs: seq<Feature>, taken: set<Face>)
    requires Claimed(ids, fs, taken)
    ensures taken <= ids
  {
    forall x | x in taken ensures x in ids {
      assert Covered(fs, x);
      var k :| Has(fs, k, x);
      assert fs[k] in fs;
    }
  }

  /** `recognize`: the features partition the faces, their names are distinct and number the features of
      a prefix, and no confidence exceeds the cap. What a rule offers becomes a feature unless it wants a
      face already held, and a face no rule gets is labelled by itself. */
  method Recognize(records: seq<FaceRecord>, rules: seq<Rule>) returns (fs: seq<Feature>, ghost t: Turns)
    requires UniqueIds(records) && forall k :: 0 <= k < |rules| ==> Proposes(Ids(records), rules[k])
    ensures Recognized(Ids(records), fs)
    ensures Served(rules, t) && Explained(records, t.offers, fs)
    ensures forall k: nat {:trigger NamedAt(fs, fs, k)} :: NamedAt(fs, fs, k)
  {
    var claimed;
    claimed, t := ClaimFaces(records, rules);
    var sorted := SortBy(FeatureLe, claimed);
    FeaturesRank();
    SortBySorts(FeatureLe, claimed);
    SortedClaims(Ids(records), claimed, sorted);
    fs := NameFeatures(sorted);
    NamedClaims(Ids(records), sorted, fs);
    NamedSelf(sorted, fs);
    NamedExplains(records, rules, t, claimed, sorted, fs);
  }

  /** Names count kinds, which naming leaves alone. */
  lemma NamedSelf(fs: seq<Feature>, named: seq<Feature>)
    requires |named| == |fs| && forall k: nat {:trigger NamedAt(fs, named, k)} :: NamedAt(fs, named, k)
    ensures forall k: nat {:trigger NamedAt(named, named, k)} :: NamedAt(named, named, k)
  {
    forall k: nat ensures NamedAt(named, named, k) {
      assert NamedAt(fs, named, k);
      if k < |named| { EarlierSame(fs, named, k, Prefix(fs[k].kind)); }
    }
  }

  lemma {:induction false} EarlierSame(fs: seq<Feature>, named: seq<Feature>, k: nat, p: string)
    requires k <= |named| == |fs| && forall j: nat {:trigger NamedAt(fs, named, j)} :: NamedAt(fs, named, j)
    ensures Earlier(named, k, p) == Earlier(fs, k, p)
    decreases k
  {
    if k > 0 {
      EarlierSame(fs, named, k - 1, p);
      assert NamedAt(fs, named, k - 1);
    }
  }

  lemma NamedExplains(records: seq<FaceRecord>, rules: seq<Rule>, t: Turns, claimed: seq<Feature>, sorted: seq<Feature>,
                      named: seq<Feature>)
    requires forall f :: f in claimed <==> IsKept(t.offers, f) || LabelsFree(records, t.offers, f)
    requires multiset(claimed) == multiset(sorted) && forall f :: f in claimed ==> f.id == ""
    requires |named| == |sorted| && forall k: nat {:trigger NamedAt(sorted, named, k)} :: NamedAt(sorted, named, k)
    ensures Explained(records, t.offers, named)
  {
    forall f ensures Nameless(named, f) <==> f in claimed {
      assert f in claimed <==> f in multiset(sorted);
      forall k | 0 <= k < |sorted| ensures named[k].(id := "") == sorted[k] {
        assert NamedAt(sorted, named, k);
        assert sorted[k] in multiset(sorted);
        assert sorted[k] in claimed;
      }
      if f in claimed {
        var k :| 0 <= k < |sorted| && sorted[k] == f;
        assert named[k].(id := "") == f;
      }
    }
  }

  /** What the features say of one face: it is in one of them; if an offer that was kept holds it, that is
      the offer, and otherwise it is alone, a planar face if it is a plane and unknown if not. */
  lemma KindOfFace(records: seq<FaceRecord>, rules: seq<Rule>, t: Turns, fs: seq<Feature>, r: FaceRecord)
    returns (k: nat)
    requires Recognized(Ids(records), fs) && Served(rules, t) && Explained(records, t.offers, fs) && r in records
    ensures Has(fs, k, r.id) && forall l :: Has(fs, l, r.id) ==> l == k
    ensures forall j :: Holds(t.offers, j, r.id) ==> fs[k].(id := "") == t.offers.all[j]
    ensures Free(t.offers, r.id) && r.plane ==> fs[k].(id := "") == Feature("", PlanarFace, [r.id], [true, true], 9500)
    ensures Free(t.offers, r.id) && !r.plane ==> fs[k].(id := "") == Feature("", Unknown, [r.id], [false], 0)
  {
    assert r.id in Ids(records) && Covered(fs, r.id);
    k :| Has(fs, k, r.id);
    forall l | Has(fs, l, r.id) ensures l == k { assert Shares(fs, l, k, r.id); }
    forall j | Holds(t.offers, j, r.id) ensures fs[k].(id := "") == t.offers.all[j] {
      assert IsKept(t.offers, t.offers.all[j]);
      var l := Place(fs, t.offers.all[j]);
      assert Has(fs, l, r.id);
    }
    if Free(t.offers, r.id) {
      var f := if r.plane then Feature("", PlanarFace, [r.id], [true, true], 9500)
               else Feature("", Unknown, [r.id], [false], 0);
      assert Labels(f, r);
      assert LabelsFree(records, t.offers, f);
      var l := Place(fs, f);
      assert Has(fs, l, r.id);
    }
  }

  lemma Place(fs: seq<Feature>, f: Feature) returns (l: nat)
    requires Nameless(fs, f)
    ensures l < |fs| && fs[l].(id := "") == f
  {
    l :| 0 <= l < |fs| && fs[l].(id := "") == f;
  }

  /** Disjointness survives rearrangement: a feature that occurs twice would share its faces. */
  lemma SortedClaims(ids: set<Face>, fs: seq<Feature>, sorted: seq<Feature>)
    requires Claimed(ids, fs, ids) && multiset(fs) == multiset(sorted)
    ensures Claimed(ids, sorted, ids)
  {
    forall i, k | 0 <= i < k < |fs| ensures fs[i] != fs[k] {
      assert fs[i] in fs;
      assert Shares(fs, i, k, fs[i].faces[0]) ==> i == k;
    }
    MultisetDifferent(fs, sorted);
    forall i, k, x | Shares(sorted, i, k, x) ensures i == k {
      assert sorted[i] in fs && sorted[k] in fs;
      var a :| 0 <= a < |fs| && fs[a] == sorted[i];
      var b :| 0 <= b < |fs| && fs[b] == sorted[k];
      assert Shares(fs, a, b, x);
    }
    forall x ensures x in ids <==> Covered(sorted, x) { CoverMoves(fs, sorted, x); }
  }

  lemma CoverMoves(fs: seq<Feature>, sorted: seq<Feature>, x: Face)
    requires forall f :: f in fs <==> f in sorted
    ensures Covered(fs, x) <==> Covered(sorted, x)
  {
    if Covered(fs, x) {
      var k :| Has(fs, k, x);
      assert fs[k] in sorted;
      var l :| 0 <= l < |sorted| && sorted[l] == fs[k];
      assert Has(sorted, l, x);
    }
    if Covered(sorted, x) {
      var k :| Has(sorted, k, x);
      assert sorted[k] in fs;
      var l :| 0 <= l < |fs| && fs[l] == sorted[k];
      assert Has(fs, l, x);
    }
  }

  lemma NamedClaims(ids: set<Face>, fs: seq<Feature>, named: seq<Feature>)
    requires Claimed(ids, fs, ids) && SortedBy(FeatureLe, fs)
    requires |named| == |fs| && forall k: nat {:trigger NamedAt(fs, named, k)} :: NamedAt(fs, named, k)
    ensures Recognized(ids, named)
  {
    forall k | 0 <= k < |fs| ensures named[k].faces == fs[k].faces && named[k].kind == fs[k].kind {
      assert NamedAt(fs, named, k);
    }
    forall i, k | 0 <= i < k < |named| ensures named[i].id != named[k].id {
      assert NamedAt(fs, named, i) && NamedAt(fs, named, k);
      NamesAreDistinct(fs, named, i, k);
    }
    forall i, k, x | Shares(named, i, k, x) ensures i == k { assert Shares(fs, i, k, x); }
    forall x ensures x in ids <==> Covered(named, x) {
      assert Covered(fs, x) <==> x in ids;
      if Covered(fs, x) {
        var k :| Has(fs, k, x);
        assert Has(named, k, x);
      }
      if Covered(named, x) {
        var k :| Has(named, k, x);
        assert Has(fs, k, x);
      }
    }
    forall f | f in named ensures f.faces != [] && Ascending(f.faces) && f.confidence == Conf(f.passed) <= 9500 {
      var k :| 0 <= k < |named| && named[k] == f;
      assert NamedAt(fs, named, k) && fs[k] in fs;
      ConfBounds(f.passed);
    }
    forall i, k | 0 <= i < k < |named| ensures FeatureLe(named[i], named[k]) {
      assert FeatureLe(fs[i], fs[k]);
      assert SortKey(named[i]) == SortKey(fs[i]) && SortKey(named[k]) == SortKey(fs[k]);
    }
  }

  /** The order in which the rules produced the features does not matter for their names. */
  lemma OrderDoesNotMatter(ids: set<Face>, fs: seq<Feature>, gs: seq<Feature>)
    requires Claimed(ids, fs, ids) && multiset(fs) == multiset(gs)
    ensures SortBy(FeatureLe, fs) == SortBy(FeatureLe, gs)
  {
    FeaturesRank();
    forall f, g | f in fs && g in fs && FeatureLe(f, g) && FeatureLe(g, f) ensures f == g {
      LexTotal(SortKey(f), SortKey(g));
      assert f.faces == SortKey(f)[1..] == SortKey(g)[1..] == g.faces;
      var i :| 0 <= i < |fs| && fs[i] == f;
      var k :| 0 <= k < |fs| && fs[k] == g;
      var x := f.faces[0];
      assert Shares(fs, i, k, x);
    }
    SortByForgetsOrder(FeatureLe, fs, gs);
  }
}
