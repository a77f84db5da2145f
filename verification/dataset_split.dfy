/** Split assignment, the leakage check, and the split soundness of a built dataset
    (`assign_splits`, `check_leakage`, `build_dataset` of cad2ml/datasets/builder.py). */
module DatasetSplit {
  import opened Sorting
  import opened UnionFind
  import opened NearClusters
  import opened DatasetUnits

  datatype Split = Train | Val | Test

  // ---- the generator ----------------------------------------------------------------------

  /** `p` permutes `0..n`. */
  ghost predicate Permutes(p: seq<nat>, n: nat) {
    |p| == n && (forall i :: 0 <= i < n ==> p[i] < n) && Distinct(p)
  }

  /** Draw number `k` of a generator is any permutation of the size asked for. */
  type Draws = (nat, nat) -> seq<nat>

  ghost predicate Fair(rng: Draws) {
    forall k: nat, n: nat {:trigger rng(k, n)} :: Permutes(rng(k, n), n)
  }

  function Shuffled(xs: seq<nat>, p: seq<nat>): seq<nat>
    requires Permutes(p, |xs|)
  {
    seq(|xs|, i requires 0 <= i < |xs| => xs[p[i]])
  }

  lemma {:induction false} BelowSize(n: nat)
    ensures |Below(n)| == n
  {
    if n > 0 { BelowSize(n - 1); }
  }

  lemma {:induction false} DistinctSize(p: seq<nat>)
    requires Distinct(p)
    ensures |Elements(p)| == |p|
  {
    if p != [] {
      var q := p[..|p| - 1];
      var last := p[|p| - 1];
      DistinctSize(q);
      assert p == q + [last];
      assert Elements(p) == Elements(q) + {last};
      assert last !in Elements(q);
    }
  }

  /** Distinct indices below `n`, `n` of them, leave none out. */
  lemma PermutationHits(p: seq<nat>, n: nat, v: nat)
    requires Permutes(p, n) && v < n
    ensures v in p
  {
    BelowSize(n);
    DistinctSize(p);
    if v !in p {
      forall x | x in Elements(p) ensures x in Below(n) - {v} {
        var i :| 0 <= i < n && p[i] == x;
      }
      SubsetSize(Elements(p), Below(n) - {v});
    }
  }

  lemma ShuffleKeeps(xs: seq<nat>, p: seq<nat>)
    requires Distinct(xs) && Permutes(p, |xs|)
    ensures Distinct(Shuffled(xs, p)) && forall x :: x in Shuffled(xs, p) <==> x in xs
  {
    var ys := Shuffled(xs, p);
    forall x | x in xs ensures x in ys {
      var v :| 0 <= v < |xs| && xs[v] == x;
      PermutationHits(p, |xs|, v);
      var i :| 0 <= i < |p| && p[i] == v;
      assert ys[i] == x;
    }
  }

  // ---- family mode ------------------------------------------------------------------------

  /** The integer nearest to a sixth of `n`, the even one of two. */
  function RoundSixth(n: nat): (r: nat)
    ensures -3 <= n - 6 * r <= 3 && (n - 6 * r == 3 || n - 6 * r == -3 ==> r % 2 == 0)
  {
    var (q, r) := (n / 6, n % 6);
    if r < 3 then q else if r > 3 then q + 1 else if q % 2 == 0 then q else q + 1
  }

  /** About a sixth of the families, but at least one. */
  function Held(families: nat): (n: nat)
    ensures n >= 1 && (families >= 3 ==> -3 <= families - 6 * n <= 3) && (families < 3 ==> n == 1)
  {
    if RoundSixth(families) < 1 then 1 else RoundSixth(families)
  }

  /** The members of a set, ascending. */
  ghost predicate Lists(l: seq<nat>, s: set<nat>) {
    Ascending(l) && forall x :: x in l <==> x in s
  }

  /** The `i`-th family of the first draw. */
  function Drawn(fams: seq<nat>, rng: Draws, i: nat): nat {
    var p := rng(0, |fams|);
    if i < |p| && p[i] < |fams| then fams[p[i]] else 0
  }

  /** The first families drawn go to test, as many after them to val, and the rest to train. */
  ghost predicate HoldsOut(units: map<nat, nat>, fams: seq<nat>, rng: Draws, out: map<nat, Split>) {
    && Lists(fams, units.Values) && out.Keys == units.Keys
    && forall u, i :: u in units && 0 <= i < |fams| && units[u] == Drawn(fams, rng, i) ==>
         out[u] == if i < Held(|fams|) then Test else if i < 2 * Held(|fams|) then Val else Train
  }

  function Clamp(i: nat, n: nat): nat { if i > n then n else i }

  /** The families some unit of which is in split `s`. */
  ghost function FamiliesIn(units: map<nat, nat>, out: map<nat, Split>, s: Split): set<nat> {
    set u | u in units && u in out && out[u] == s :: units[u]
  }

  /** Whole families go to test, then as many to val, as far as there are families, and the rest to
      train. */
  method AssignFamilies(units: map<nat, nat>, rng: Draws) returns (out: map<nat, Split>, ghost fams: seq<nat>)
    requires Fair(rng)
    ensures HoldsOut(units, fams, rng, out)
    ensures forall u, v :: u in units && v in units && units[u] == units[v] ==> out[u] == out[v]
    ensures
      var n := |units.Values|;
      && |FamiliesIn(units, out, Test)| == Clamp(Held(n), n)
      && |FamiliesIn(units, out, Val)| == Clamp(2 * Held(n), n) - Clamp(Held(n), n)
  {
    var sorted := SortedKeys(units.Values);
    fams := sorted;
    var order := DrawFamilies(sorted, rng);
    var n := Held(|sorted|);
    var splitOf: map<nat, Split> := map f | f in order[..Clamp(n, |order|)] :: Test;
    splitOf := splitOf + map f | f in order[Clamp(n, |order|)..Clamp(2 * n, |order|)] :: Val;
    out := map u | u in units :: if units[u] in splitOf then splitOf[units[u]] else Train;
    OrderSize(units, order);
    FamiliesSplit(units, order, Clamp(n, |order|), Clamp(2 * n, |order|), out);
    HeldInOrder(units, sorted, rng, order, out);
  }

  /** `out` goes by the place of a unit's family in the order. */
  lemma HeldInOrder(units: map<nat, nat>, fams: seq<nat>, rng: Draws, order: seq<nat>, out: map<nat, Split>)
    requires Lists(fams, units.Values) && |order| == |fams| && Distinct(order) && out.Keys == units.Keys
    requires forall i :: 0 <= i < |order| ==> order[i] == Drawn(fams, rng, i)
    requires
      var a, b := Clamp(Held(|fams|), |order|), Clamp(2 * Held(|fams|), |order|);
      forall u :: u in units ==>
        out[u] == if units[u] in order[a..b] then Val else if units[u] in order[..a] then Test else Train
    ensures HoldsOut(units, fams, rng, out)
  {
    forall u, i | u in units && 0 <= i < |fams| && units[u] == Drawn(fams, rng, i)
      ensures out[u] == if i < Held(|fams|) then Test else if i < 2 * Held(|fams|) then Val else Train
    {
      PlaceInOrder(order, i, Clamp(Held(|fams|), |order|), Clamp(2 * Held(|fams|), |order|));
    }
  }

  lemma PlaceInOrder(order: seq<nat>, i: nat, a: nat, b: nat)
    requires Distinct(order) && i < |order| && a <= b <= |order|
    ensures order[i] in order[..a] <==> i < a
    ensures order[i] in order[a..b] <==> a <= i < b
  {
    if i < a { assert order[..a][i] == order[i]; }
    if a <= i < b { assert order[a..b][i - a] == order[i]; }
  }

  lemma OrderSize(units: map<nat, nat>, order: seq<nat>)
    requires Distinct(order) && forall f :: f in order <==> f in units.Values
    ensures |order| == |units.Values|
  {
    assert Elements(order) == units.Values;
    DistinctSize(order);
  }

  /** The families before `a` are in test, those from there to `b` in val. */
  lemma FamiliesSplit(units: map<nat, nat>, order: seq<nat>, a: nat, b: nat, out: map<nat, Split>)
    requires a <= b <= |order| && Distinct(order) && (forall f :: f in order ==> f in units.Values)
    requires out.Keys == units.Keys
    requires forall u :: u in units ==>
               out[u] == if units[u] in order[a..b] then Val else if units[u] in order[..a] then Test else Train
    ensures |FamiliesIn(units, out, Test)| == a && |FamiliesIn(units, out, Val)| == b - a
  {
    forall f | f in order[..a] ensures f !in order[a..b] {}
    FamiliesHeldOut(units, order, 0, a, Test, out);
    FamiliesHeldOut(units, order, a, b, Val, out);
  }

  /** When exactly the units of the families `order[a..b]` are in split `s`, there are `b - a` families
      in it. */
  lemma FamiliesHeldOut(units: map<nat, nat>, order: seq<nat>, a: nat, b: nat, s: Split, out: map<nat, Split>)
    requires a <= b <= |order| && Distinct(order) && forall f :: f in order ==> f in units.Values
    requires out.Keys == units.Keys && forall u :: u in units ==> (out[u] == s <==> units[u] in order[a..b])
    ensures |FamiliesIn(units, out, s)| == b - a
  {
    forall f | f in order[a..b] ensures f in FamiliesIn(units, out, s) {
      assert f in order;
      var u :| u in units && units[u] == f;
      assert out[u] == s;
    }
    assert FamiliesIn(units, out, s) == Elements(order[a..b]);
    DistinctSize(order[a..b]);
  }

  // ---- group mode -------------------------------------------------------------------------

  /** The split of the `j`-th of `n` shuffled units of the `k`-th shuffled family. */
  function SplitAt(k: nat, j: nat, n: nat): Split {
    if j == 0 && n >= 2 then (if k % 2 == 0 then Val else Test)
    else if j == 1 && n >= 4 then (if k % 2 == 0 then Test else Val)
    else Train
  }

  ghost function UnitsOf(units: map<nat, nat>, f: nat): set<nat> {
    set u | u in units && units[u] == f
  }

  ghost function HeldOut(out: map<nat, Split>, us: set<nat>, s: Split): set<nat> {
    set u | u in us && u in out && out[u] == s
  }

  /** What a family contributes: nothing held out of a single unit, one unit of two or three, and one
      for val and one for test of four or more. */
  ghost predicate FamilySplit(out: map<nat, Split>, us: set<nat>) {
    && us <= out.Keys
    && (|us| < 2 ==> |HeldOut(out, us, Val)| == 0 && |HeldOut(out, us, Test)| == 0)
    && (2 <= |us| < 4 ==> |HeldOut(out, us, Val)| + |HeldOut(out, us, Test)| == 1)
    && (|us| >= 4 ==> |HeldOut(out, us, Val)| == 1 && |HeldOut(out, us, Test)| == 1)
  }

  /** One family's units, shuffled by `p`: of two or more the first is held out, of four or more also the
      second; the families take turns at which of the two goes to val, and the rest trains. */
  ghost predicate Alternates(out: map<nat, Split>, us: seq<nat>, p: seq<nat>, k: nat) {
    && Permutes(p, |us|) && (forall j :: 0 <= j < |us| ==> us[j] in out)
    && (|us| >= 2 ==> out[us[p[0]]] == if k % 2 == 0 then Val else Test)
    && (|us| >= 4 ==> out[us[p[1]]] == if k % 2 == 0 then Test else Val)
    && (forall j :: 0 <= j < |us| && (|us| < 2 || (j == 1 && |us| < 4) || j > 1) ==> out[us[p[j]]] == Train)
  }

  /** The `k`-th family drawn is shuffled by draw `1 + k`. */
  ghost predicate FamilyTurn(units: map<nat, nat>, fams: seq<nat>, rng: Draws, out: map<nat, Split>, k: nat) {
    forall us :: Lists(us, UnitsOf(units, Drawn(fams, rng, k))) ==> Alternates(out, us, rng(1 + k, |us|), k)
  }

  /** Every family is given its turn. */
  ghost predicate TakesTurns(units: map<nat, nat>, fams: seq<nat>, rng: Draws, out: map<nat, Split>) {
    && Lists(fams, units.Values) && out.Keys == units.Keys
    && forall k: nat {:trigger FamilyTurn(units, fams, rng, out, k)} :: k < |fams| ==>
       FamilyTurn(units, fams, rng, out, k)
  }

  lemma AlternatesFrom(out: map<nat, Split>, us: seq<nat>, p: seq<nat>, k: nat)
    requires Distinct(us) && Permutes(p, |us|)
    requires forall j :: 0 <= j < |us| ==> us[p[j]] in out && out[us[p[j]]] == SplitAt(k, j, |us|)
    ensures Alternates(out, us, p, k)
  {
    forall j | 0 <= j < |us| ensures us[j] in out {
      PermutationHits(p, |us|, j);
      var i :| 0 <= i < |p| && p[i] == j;
      assert us[p[i]] in out;
    }
  }

  lemma TurnStays(units: map<nat, nat>, fams: seq<nat>, rng: Draws, out: map<nat, Split>, out': map<nat, Split>, k: nat)
    requires FamilyTurn(units, fams, rng, out, k) && forall u :: u in out ==> u in out' && out'[u] == out[u]
    ensures FamilyTurn(units, fams, rng, out', k)
  {
    forall us | Lists(us, UnitsOf(units, Drawn(fams, rng, k))) ensures Alternates(out', us, rng(1 + k, |us|), k) {
      assert Alternates(out, us, rng(1 + k, |us|), k);
    }
  }

  lemma FamilySplitFrom(out: map<nat, Split>, us: seq<nat>, k: nat)
    requires Distinct(us) && forall j :: 0 <= j < |us| ==> us[j] in out && out[us[j]] == SplitAt(k, j, |us|)
    ensures FamilySplit(out, Elements(us))
  {
    var s := Elements(us);
    DistinctSize(us);
    var first := if k % 2 == 0 then Val else Test;
    var second := if k % 2 == 0 then Test else Val;
    assert HeldOut(out, s, first) == if |us| >= 2 then {us[0]} else {} by {
      if |us| >= 2 { assert us[0] in s; }
    }
    assert HeldOut(out, s, second) == if |us| >= 4 then {us[1]} else {} by {
      if |us| >= 4 { assert us[1] in s; }
    }
  }

  /** `out` with the splits of the first `j` of the shuffled units. */
  function Assigned(us: seq<nat>, k: nat, out: map<nat, Split>, j: nat): map<nat, Split>
    requires j <= |us|
  {
    if j == 0 then out else Assigned(us, k, out, j - 1)[us[j - 1] := SplitAt(k, j - 1, |us|)]
  }

  lemma {:induction false} AssignedSplits(us: seq<nat>, k: nat, out: map<nat, Split>, j: nat)
    requires j <= |us| && Distinct(us) && forall u :: u in us ==> u !in out
    ensures
      var r := Assigned(us, k, out, j);
      && r.Keys == out.Keys + Elements(us[..j])
      && (forall u :: u in out ==> u in r && r[u] == out[u])
      && (forall i :: 0 <= i < j ==> us[i] in r && r[us[i]] == SplitAt(k, i, |us|))
  {
    if j > 0 {
      AssignedSplits(us, k, out, j - 1);
      assert us[..j] == us[..j - 1] + [us[j - 1]];
      assert Elements(us[..j]) == Elements(us[..j - 1]) + {us[j - 1]};
    }
  }

  /** The units of one family get the family's splits, and the other families' units keep theirs. */
  lemma AssignedAll(us: seq<nat>, k: nat, out: map<nat, Split>)
    requires Distinct(us) && forall u :: u in us ==> u !in out
    ensures
      var r := Assigned(us, k, out, |us|);
      && r.Keys == out.Keys + Elements(us) && FamilySplit(r, Elements(us))
      && (forall u :: u in out ==> u in r && r[u] == out[u])
      && forall j :: 0 <= j < |us| ==> us[j] in r && r[us[j]] == SplitAt(k, j, |us|)
  {
    AssignedSplits(us, k, out, |us|);
    assert us[..|us|] == us;
    FamilySplitFrom(Assigned(us, k, out, |us|), us, k);
  }

  /** The loop over the shuffled units of one family. */
  method AssignFamily(us: seq<nat>, k: nat, out: map<nat, Split>) returns (r: map<nat, Split>)
    ensures r == Assigned(us, k, out, |us|)
  {
    r := out;
    var j := 0;
    while j < |us|
      invariant 0 <= j <= |us| && r == Assigned(us, k, out, j)
    {
      var s := if j == 0 && |us| >= 2 then (if k % 2 == 0 then Val else Test)
               else if j == 1 && |us| >= 4 then (if k % 2 == 0 then Test else Val)
               else Train;
      r := r[us[j] := s];
      j := j + 1;
    }
  }

  method GroupByFamily(units: map<nat, nat>, ids: seq<nat>) returns (byFam: Groups)
    requires Ascending(ids) && forall u :: u in ids <==> u in units
    ensures Grouped(units, ids, byFam)
  {
    byFam := map[];
    var k := 0;
    while k < |ids|
      invariant 0 <= k <= |ids| && Grouped(units, ids[..k], byFam)
    {
      assert ids[k] in units;
      var f := units[ids[k]];
      assert ids[..k + 1] == ids[..k] + [ids[k]];
      AddedGrouped(units, ids[..k], byFam, ids[k]);
      byFam := byFam[f := (if f in byFam then byFam[f] else []) + [ids[k]]];
      k := k + 1;
    }
    assert ids[..|ids|] == ids;
  }

  lemma FamilyUnits(units: map<nat, nat>, ids: seq<nat>, byFam: Groups, f: nat)
    requires (forall u :: u in ids <==> u in units) && Grouped(units, ids, byFam)
    ensures f in byFam ==> Elements(byFam[f]) == UnitsOf(units, f) && Ascending(byFam[f])
    ensures f in byFam <==> f in units.Values
  {
    if f in byFam {
      forall u ensures u in byFam[f] <==> u in units && units[u] == f {
        assert GroupHas(byFam, f, u) <==> u in ids && u in units && units[u] == f;
      }
      assert byFam[f][0] in byFam[f];
      assert units[byFam[f][0]] == f;
    }
    if f in units.Values {
      var u :| u in units && units[u] == f;
      assert GroupHas(byFam, f, u) <==> u in ids && u in units && units[u] == f;
    }
  }

  /** The families `order[..k]` are done: exactly their units are assigned. */
  ghost predicate DoneTo(units: map<nat, nat>, order: seq<nat>, k: nat, out: map<nat, Split>)
    requires k <= |order|
  {
    && (forall u :: u in out <==> u in units && units[u] in order[..k])
    && (forall i :: 0 <= i < k ==> FamilySplit(out, UnitsOf(units, order[i])))
  }

  lemma OneMoreFamily(units: map<nat, nat>, order: seq<nat>, k: nat, us: seq<nat>, out: map<nat, Split>,
                      out': map<nat, Split>)
    requires k < |order| && DoneTo(units, order, k, out) && Elements(us) == UnitsOf(units, order[k])
    requires out'.Keys == out.Keys + Elements(us) && FamilySplit(out', Elements(us))
    requires forall u :: u in out ==> u in out' && out'[u] == out[u]
    ensures DoneTo(units, order, k + 1, out')
  {
    forall i | 0 <= i < k + 1 ensures FamilySplit(out', UnitsOf(units, order[i])) {
      if i < k { FamilySplitFrame(out, out', UnitsOf(units, order[i])); }
    }
    OneMoreKeys(units, order, k, out.Keys, Elements(us));
  }

  lemma OneMoreKeys(units: map<nat, nat>, order: seq<nat>, k: nat, done: set<nat>, us: set<nat>)
    requires k < |order| && us == UnitsOf(units, order[k])
    requires forall u :: u in done <==> u in units && units[u] in order[..k]
    ensures forall u :: u in done + us <==> u in units && units[u] in order[..k + 1]
  {
    assert order[..k + 1] == order[..k] + [order[k]];
  }

  /** The first `k` families had their turns. */
  ghost predicate TurnsTo(units: map<nat, nat>, fams: seq<nat>, rng: Draws, out: map<nat, Split>, k: nat) {
    forall i: nat {:trigger FamilyTurn(units, fams, rng, out, i)} :: i < k ==> FamilyTurn(units, fams, rng, out, i)
  }

  lemma TurnsNext(units: map<nat, nat>, fams: seq<nat>, rng: Draws, out: map<nat, Split>, out': map<nat, Split>, k: nat)
    requires TurnsTo(units, fams, rng, out, k) && FamilyTurn(units, fams, rng, out', k)
    requires forall u :: u in out ==> u in out' && out'[u] == out[u]
    ensures TurnsTo(units, fams, rng, out', k + 1)
  {
    forall i: nat | i < k ensures FamilyTurn(units, fams, rng, out', i) {
      TurnStays(units, fams, rng, out, out', i);
    }
  }

  /** The families in the order of the first draw. */
  method DrawFamilies(fams: seq<nat>, rng: Draws) returns (order: seq<nat>)
    requires Fair(rng) && Ascending(fams)
    ensures |order| == |fams| && Distinct(order) && forall f :: f in order <==> f in fams
    ensures forall i :: 0 <= i < |order| ==> order[i] == Drawn(fams, rng, i)
  {
    order := Shuffled(fams, rng(0, |fams|));
    ShuffleKeeps(fams, rng(0, |fams|));
  }

  /** Family by family, in shuffled order, each family's units shuffled. */
  method AssignGroups(units: map<nat, nat>, rng: Draws) returns (out: map<nat, Split>, ghost drawn: seq<nat>)
    requires Fair(rng)
    ensures TakesTurns(units, drawn, rng, out)
    ensures forall f :: f in units.Values ==> FamilySplit(out, UnitsOf(units, f))
  {
    var ids := SortedKeys(units.Keys);
    var byFam := GroupByFamily(units, ids);
    forall f ensures f in byFam <==> f in units.Values { FamilyUnits(units, ids, byFam, f); }
    var fams := SortedKeys(byFam.Keys);
    drawn := fams;
    var order := DrawFamilies(fams, rng);
    assert forall f :: f in order <==> f in units.Values;
    out := map[];
    var k := 0;
    while k < |order|
      invariant 0 <= k <= |order| && DoneTo(units, order, k, out) && TurnsTo(units, fams, rng, out, k)
    {
      assert order[k] in order;
      ghost var before := out;
      out := NextFamily(units, ids, byFam, order, k, rng, out, fams);
      TurnsNext(units, fams, rng, before, out, k);
      k := k + 1;
    }
    AllDone(units, order, out);
    assert Lists(fams, units.Values);
  }

  lemma AllDone(units: map<nat, nat>, order: seq<nat>, out: map<nat, Split>)
    requires DoneTo(units, order, |order|, out) && forall f :: f in order <==> f in units.Values
    ensures out.Keys == units.Keys
    ensures forall f :: f in units.Values ==> FamilySplit(out, UnitsOf(units, f))
  {
    assert order[..|order|] == order;
    forall u ensures u in out.Keys <==> u in units.Keys {
      if u in units { assert units[u] in units.Values; }
    }
    forall f | f in units.Values ensures FamilySplit(out, UnitsOf(units, f)) {
      var i :| 0 <= i < |order| && order[i] == f;
    }
  }

  method NextFamily(units: map<nat, nat>, ids: seq<nat>, byFam: Groups, order: seq<nat>, k: nat, rng: Draws,
                    out: map<nat, Split>, ghost fams: seq<nat>)
    returns (r: map<nat, Split>)
    requires Fair(rng) && (forall u :: u in ids <==> u in units) && Grouped(units, ids, byFam)
    requires k < |order| && Distinct(order) && order[k] in byFam && DoneTo(units, order, k, out)
    requires order[k] == Drawn(fams, rng, k)
    ensures DoneTo(units, order, k + 1, r)
    ensures FamilyTurn(units, fams, rng, r, k) && forall u :: u in out ==> u in r && r[u] == out[u]
  {
    FamilyUnits(units, ids, byFam, order[k]);
    var sorted := Sort(byFam[order[k]]);
    SortAscends(byFam[order[k]]);
    var draw := rng(1 + k, |sorted|);
    ShuffleKeeps(sorted, draw);
    var us := Shuffled(sorted, draw);
    assert Elements(us) == Elements(byFam[order[k]]);
    forall u | u in us ensures u !in out {
      assert u in Elements(us);
      assert order[k] !in order[..k];
    }
    r := AssignFamily(us, k, out);
    AssignedAll(us, k, out);
    OneMoreFamily(units, order, k, us, out, r);
    assert forall u :: u in sorted <==> u in Elements(byFam[order[k]]);
    TurnFrom(units, fams, rng, r, k, sorted, us);
  }

  lemma TurnFrom(units: map<nat, nat>, fams: seq<nat>, rng: Draws, out: map<nat, Split>, k: nat, us: seq<nat>,
                 shuffled: seq<nat>)
    requires Fair(rng) && Lists(us, UnitsOf(units, Drawn(fams, rng, k)))
    requires Permutes(rng(1 + k, |us|), |us|) && shuffled == Shuffled(us, rng(1 + k, |us|))
    requires forall j :: 0 <= j < |us| ==> shuffled[j] in out && out[shuffled[j]] == SplitAt(k, j, |us|)
    ensures FamilyTurn(units, fams, rng, out, k)
  {
    var p := rng(1 + k, |us|);
    forall j | 0 <= j < |us| ensures us[p[j]] in out && out[us[p[j]]] == SplitAt(k, j, |us|) {
      assert shuffled[j] == us[p[j]];
    }
    AlternatesFrom(out, us, p, k);
    forall vs | Lists(vs, UnitsOf(units, Drawn(fams, rng, k))) ensures vs == us { AscendingIsUnique(vs, us); }
  }

  lemma FamilySplitFrame(a: map<nat, Split>, b: map<nat, Split>, us: set<nat>)
    requires FamilySplit(a, us) && forall u :: u in a ==> u in b && b[u] == a[u]
    ensures FamilySplit(b, us)
  {
    assert HeldOut(a, us, Val) == HeldOut(b, us, Val);
    assert HeldOut(a, us, Test) == HeldOut(b, us, Test);
  }

  // ---- the leakage check ------------------------------------------------------------------

  predicate Carries(key: map<nat, nat>, split: map<nat, Split>, x: nat, k: nat, s: Split) {
    x in key && x in split && key[x] == k && split[x] == s
  }

  /** Some sample of the list has key `k` and split `s`. */
  ghost predicate Witnessed(ids: seq<nat>, key: map<nat, nat>, split: map<nat, Split>, k: nat, s: Split) {
    exists x :: x in ids && Carries(key, split, x, k, s)
  }

  predicate Seen(seen: map<nat, set<Split>>, k: nat, s: Split) {
    k in seen && s in seen[k]
  }

  lemma WitnessedSnoc(ids: seq<nat>, x: nat, key: map<nat, nat>, split: map<nat, Split>, k: nat, s: Split)
    requires x in key && x in split
    ensures Witnessed(ids + [x], key, split, k, s)
        <==> Witnessed(ids, key, split, k, s) || (key[x] == k && split[x] == s)
  {
    if key[x] == k && split[x] == s { assert x in ids + [x] && Carries(key, split, x, k, s); }
    if Witnessed(ids, key, split, k, s) {
      var y :| y in ids && Carries(key, split, y, k, s);
      assert y in ids + [x];
    }
  }

  /** The splits seen under each key; a key is reported, with its splits, if it has more than one. */
  method CheckLeakage(ids: seq<nat>, key: map<nat, nat>, split: map<nat, Split>) returns (leak: map<nat, set<Split>>)
    requires forall x :: x in ids ==> x in key && x in split
    ensures forall k :: k in leak <==>
              exists s, t :: s != t && Witnessed(ids, key, split, k, s) && Witnessed(ids, key, split, k, t)
    ensures forall k, s :: k in leak ==> (s in leak[k] <==> Witnessed(ids, key, split, k, s))
  {
    var seen: map<nat, set<Split>> := map[];
    var n := 0;
    while n < |ids|
      invariant 0 <= n <= |ids|
      invariant forall k, s {:trigger Seen(seen, k, s)} :: Seen(seen, k, s) <==> Witnessed(ids[..n], key, split, k, s)
    {
      var x := ids[n];
      assert ids[..n + 1] == ids[..n] + [x];
      ghost var before := seen;
      seen := seen[key[x] := (if key[x] in seen then seen[key[x]] else {}) + {split[x]}];
      forall k, s ensures Seen(seen, k, s) <==> Witnessed(ids[..n + 1], key, split, k, s) {
        WitnessedSnoc(ids[..n], x, key, split, k, s);
        assert Seen(before, k, s) <==> Witnessed(ids[..n], key, split, k, s);
      }
      n := n + 1;
    }
    assert ids[..|ids|] == ids;
    leak := map k | k in seen && |seen[k]| > 1 :: seen[k];
    forall k
      ensures k in leak <==>
                exists s, t :: s != t && Witnessed(ids, key, split, k, s) && Witnessed(ids, key, split, k, t)
    {
      LeaksIffTwo(ids, key, split, seen, k);
    }
    forall k, s | k in leak ensures s in leak[k] <==> Witnessed(ids, key, split, k, s) {
      assert Seen(seen, k, s) <==> Witnessed(ids, key, split, k, s);
    }
  }

  lemma LeaksIffTwo(ids: seq<nat>, key: map<nat, nat>, split: map<nat, Split>, seen: map<nat, set<Split>>, k: nat)
    requires forall k, s {:trigger Seen(seen, k, s)} :: Seen(seen, k, s) <==> Witnessed(ids, key, split, k, s)
    ensures k in seen && |seen[k]| > 1 <==>
      exists s, t :: s != t && Witnessed(ids, key, split, k, s) && Witnessed(ids, key, split, k, t)
  {
    if k in seen && |seen[k]| > 1 {
      var s, t := PickTwo(seen[k]);
      assert Seen(seen, k, s) && Seen(seen, k, t);
    }
    if exists s, t :: s != t && Witnessed(ids, key, split, k, s) && Witnessed(ids, key, split, k, t) {
      var s, t :| s != t && Witnessed(ids, key, split, k, s) && Witnessed(ids, key, split, k, t);
      assert Seen(seen, k, s) && Seen(seen, k, t);
      SubsetSize({s, t}, seen[k]);
    }
  }

  lemma PickTwo(set_: set<Split>) returns (s: Split, t: Split)
    requires |set_| > 1
    ensures s in set_ && t in set_ && s != t
  {
    s :| s in set_;
    assert |set_ - {s}| > 0;
    t :| t in set_ - {s};
  }

  /** No leak exactly when the key decides the split. */
  lemma NoLeakIffDecided(ids: seq<nat>, key: map<nat, nat>, split: map<nat, Split>, leak: map<nat, set<Split>>)
    requires forall x :: x in ids ==> x in key && x in split
    requires forall k :: k in leak <==>
               exists s, t :: s != t && Witnessed(ids, key, split, k, s) && Witnessed(ids, key, split, k, t)
    ensures leak == map[] <==> forall x, y :: x in ids && y in ids && key[x] == key[y] ==> split[x] == split[y]
  {
    if leak == map[] {
      forall x, y | x in ids && y in ids && key[x] == key[y] ensures split[x] == split[y] {
        assert Carries(key, split, x, key[x], split[x]) && Carries(key, split, y, key[x], split[y]);
        assert Witnessed(ids, key, split, key[x], split[x]) && Witnessed(ids, key, split, key[x], split[y]);
        assert key[x] !in leak;
      }
    }
    if leak != map[] {
      var k :| k in leak;
      var s, t :| s != t && Witnessed(ids, key, split, k, s) && Witnessed(ids, key, split, k, t);
      var x :| x in ids && Carries(key, split, x, k, s);
      var y :| y in ids && Carries(key, split, y, k, t);
    }
  }

  // ---- the dataset ------------------------------------------------------------------------

  datatype Mode = ByGroup | ByFamily

  /** Unit and split of every included sample. */
  datatype Assignment = Assignment(unit: map<nat, nat>, split: map<nat, Split>)

  ghost predicate Complete(samples: Samples, a: Assignment) {
    a.unit.Keys == samples.Keys && a.split.Keys == samples.Keys
  }

  /** The unit decides the split. */
  ghost predicate UnitsDecide(a: Assignment) {
    forall x, y ::
      x in a.unit && y in a.unit && x in a.split && y in a.split && a.unit[x] == a.unit[y] ==>
        a.split[x] == a.split[y]
  }

  /** What the units of a dataset mean. */
  ghost predicate UnitsMean(samples: Samples, mode: Mode, unit: map<nat, nat>)
    requires unit.Keys == samples.Keys
  {
    forall x, y :: x in samples && y in samples ==>
      (unit[x] == unit[y] <==> match mode
                               case ByGroup => AkinLinked(samples, x, y)
                               case ByFamily => samples[x].family == samples[y].family)
  }

  /** Every unit has the family of its last sample. */
  ghost predicate FamilyOfUnits(samples: Samples, unit: map<nat, nat>, units: map<nat, nat>)
    requires unit.Keys == samples.Keys
  {
    && units.Keys == unit.Values
    && forall x :: x in samples && LastOf(samples, unit, x) ==> unit[x] in units && units[unit[x]] == samples[x].family
  }

  predicate LastOf(samples: Samples, unit: map<nat, nat>, x: nat)
    requires unit.Keys == samples.Keys && x in samples
  {
    forall y :: y in samples && unit[y] == unit[x] ==> y <= x
  }

  /** The split of every sample is that of its unit, and units are assigned as the mode says. */
  ghost predicate Planned(samples: Samples, mode: Mode, rng: Draws, a: Assignment, plan: Plan) {
    && Complete(samples, a) && FamilyOfUnits(samples, a.unit, plan.units)
    && (forall x :: x in samples ==> a.unit[x] in plan.out && a.split[x] == plan.out[a.unit[x]])
    && AsMode(mode, rng, plan)
  }

  ghost predicate AsMode(mode: Mode, rng: Draws, plan: Plan) {
    match mode
    case ByFamily => HoldsOut(plan.units, plan.fams, rng, plan.out)
    case ByGroup => TakesTurns(plan.units, plan.fams, rng, plan.out)
  }

  /** The units with their families, the families in order, and the splits of the units. */
  datatype Plan = Plan(units: map<nat, nat>, fams: seq<nat>, out: map<nat, Split>)

  /** The splitting part of `build_dataset`: every sample gets one split, the unit decides it, units
      are families, or the classes joined by shared groups and near duplicates; so the leakage check
      never fires. */
  method SplitDataset(samples: Samples, mode: Mode, rng: Draws)
    returns (a: Assignment, leakUnit: map<nat, set<Split>>, leakFamily: map<nat, set<Split>>, ghost plan: Plan)
    requires Fair(rng)
    ensures Complete(samples, a) && UnitsDecide(a) && UnitsMean(samples, mode, a.unit)
    ensures Planned(samples, mode, rng, a, plan)
    ensures leakUnit == map[] && leakFamily == map[]
  {
    var ids := SortedKeys(samples.Keys);
    var unit := UnitPerSample(samples, ids, mode);
    a, plan := SplitPerSample(samples, ids, unit, mode, rng);
    leakUnit, leakFamily := Leaks(samples, ids, a, mode);
  }

  /** Both leakage checks: of families only if they are the units. */
  method Leaks(samples: Samples, ids: seq<nat>, a: Assignment, mode: Mode)
    returns (leakUnit: map<nat, set<Split>>, leakFamily: map<nat, set<Split>>)
    requires (forall x :: x in ids <==> x in samples) && Complete(samples, a) && UnitsDecide(a)
    requires UnitsMean(samples, mode, a.unit)
    ensures leakUnit == map[] && leakFamily == map[]
  {
    leakUnit := CheckLeakage(ids, a.unit, a.split);
    NoLeakIffDecided(ids, a.unit, a.split, leakUnit);
    leakFamily := map[];
    if mode == ByFamily {
      var family := map x | x in samples :: samples[x].family;
      leakFamily := CheckLeakage(ids, family, a.split);
      NoLeakIffDecided(ids, family, a.split, leakFamily);
    }
  }

  method UnitPerSample(samples: Samples, ids: seq<nat>, mode: Mode) returns (unit: map<nat, nat>)
    requires forall x :: x in ids <==> x in samples
    ensures unit.Keys == samples.Keys && UnitsMean(samples, mode, unit)
  {
    var uf := MergeGroups(samples, ids);
    if mode == ByFamily {
      unit := map x | x in samples :: samples[x].family;
    } else {
      ghost var p := uf.p;
      unit := RootPerSample(samples, ids, uf);
      forall x, y | x in samples && y in samples ensures unit[x] == unit[y] <==> AkinLinked(samples, x, y) {
        assert Root(p, samples[x].group) == Root(p, samples[y].group) <==> AkinLinked(samples, x, y);
      }
    }
  }

  method RootPerSample(samples: Samples, ids: seq<nat>, uf: Forest) returns (unit: map<nat, nat>)
    requires (forall x :: x in ids <==> x in samples) && Ordered(uf.p) && uf.p.Keys == GroupsOf(samples)
    modifies uf
    ensures unit.Keys == samples.Keys
    ensures forall x :: x in samples ==> samples[x].group in old(uf.p) && unit[x] == Root(old(uf.p), samples[x].group)
  {
    ghost var roots := Roots(uf.p);
    unit := map[];
    var n := 0;
    while n < |ids|
      invariant 0 <= n <= |ids| && Ordered(uf.p) && Roots(uf.p) == roots
      invariant forall x {:trigger unit[x]} {:trigger x in unit} :: x in unit <==> x in ids[..n]
      invariant forall x {:trigger unit[x]} ::
                  x in unit ==> samples[x].group in roots && unit[x] == roots[samples[x].group]
    {
      var x := ids[n];
      assert x in samples && samples[x].group in GroupsOf(samples);
      assert samples[x].group in roots;
      var r := uf.Find(samples[x].group);
      unit := unit[x := r];
      n := n + 1;
    }
    assert ids[..|ids|] == ids;
  }

  /** No later sample before `n` has the unit of the `i`-th. */
  predicate LastTo(samples: Samples, ids: seq<nat>, unit: map<nat, nat>, n: nat, i: nat)
    requires i < n <= |ids| && unit.Keys == samples.Keys && ids[i] in samples
  {
    forall j :: i < j < n && ids[j] in samples ==> unit[ids[j]] != unit[ids[i]]
  }

  /** The units of the samples in `ids[..n]`, with the family of the last of each. */
  ghost predicate UnitsTo(samples: Samples, ids: seq<nat>, unit: map<nat, nat>, n: nat, units: map<nat, nat>)
    requires n <= |ids| && unit.Keys == samples.Keys && forall x :: x in ids <==> x in samples
  {
    && (forall i :: 0 <= i < n ==> ids[i] in samples && unit[ids[i]] in units)
    && (forall u :: u in units ==> u in unit.Values)
    && forall i :: 0 <= i < n && ids[i] in samples && LastTo(samples, ids, unit, n, i) ==>
         units[unit[ids[i]]] == samples[ids[i]].family
  }

  lemma UnitsStep(samples: Samples, ids: seq<nat>, unit: map<nat, nat>, n: nat, units: map<nat, nat>)
    requires n < |ids| && unit.Keys == samples.Keys && forall x :: x in ids <==> x in samples
    requires UnitsTo(samples, ids, unit, n, units) && ids[n] in samples
    ensures UnitsTo(samples, ids, unit, n + 1, units[unit[ids[n]] := samples[ids[n]].family])
  {
  }

  lemma UnitsDone(samples: Samples, ids: seq<nat>, unit: map<nat, nat>, units: map<nat, nat>)
    requires Lists(ids, samples.Keys) && unit.Keys == samples.Keys && UnitsTo(samples, ids, unit, |ids|, units)
    ensures FamilyOfUnits(samples, unit, units)
  {
    forall x | x in samples
      ensures unit[x] in units && (LastOf(samples, unit, x) ==> units[unit[x]] == samples[x].family)
    {
      var i :| 0 <= i < |ids| && ids[i] == x;
      if LastOf(samples, unit, x) {
        forall j | i < j < |ids| && ids[j] in samples ensures unit[ids[j]] != unit[ids[i]] { assert ids[j] > x; }
      }
    }
  }

  /** Every unit with a sample's family: the last one to write it. */
  method UnitFamilies(samples: Samples, ids: seq<nat>, unit: map<nat, nat>) returns (units: map<nat, nat>)
    requires Lists(ids, samples.Keys) && unit.Keys == samples.Keys
    ensures FamilyOfUnits(samples, unit, units)
  {
    units := map[];
    var n := 0;
    while n < |ids|
      invariant 0 <= n <= |ids| && UnitsTo(samples, ids, unit, n, units)
    {
      assert ids[n] in samples;
      UnitsStep(samples, ids, unit, n, units);
      units := units[unit[ids[n]] := samples[ids[n]].family];
      n := n + 1;
    }
    UnitsDone(samples, ids, unit, units);
  }

  /** `assign_splits`. */
  method AssignSplits(units: map<nat, nat>, mode: Mode, rng: Draws) returns (out: map<nat, Split>, ghost plan: Plan)
    requires Fair(rng)
    ensures out.Keys == units.Keys && plan.units == units && plan.out == out && AsMode(mode, rng, plan)
  {
    ghost var fams: seq<nat>;
    if mode == ByFamily {
      out, fams := AssignFamilies(units, rng);
    } else {
      out, fams := AssignGroups(units, rng);
    }
    plan := Plan(units, fams, out);
  }

  lemma PlannedFrom(samples: Samples, mode: Mode, rng: Draws, a: Assignment, plan: Plan)
    requires Complete(samples, a) && FamilyOfUnits(samples, a.unit, plan.units) && AsMode(mode, rng, plan)
    requires plan.out.Keys == plan.units.Keys
    requires forall x :: x in samples ==> a.unit[x] in plan.out && a.split[x] == plan.out[a.unit[x]]
    ensures Planned(samples, mode, rng, a, plan) && UnitsDecide(a)
  {
  }

  /** The units are assigned, and the splits read back per sample. */
  method SplitPerSample(samples: Samples, ids: seq<nat>, unit: map<nat, nat>, mode: Mode, rng: Draws)
    returns (a: Assignment, ghost plan: Plan)
    requires Fair(rng) && Lists(ids, samples.Keys) && unit.Keys == samples.Keys
    ensures a.unit == unit && Complete(samples, a) && Planned(samples, mode, rng, a, plan) && UnitsDecide(a)
  {
    var units := UnitFamilies(samples, ids, unit);
    var out;
    out, plan := AssignSplits(units, mode, rng);
    var split := ReadBack(samples, unit, out);
    a := Assignment(unit, split);
    PlannedFrom(samples, mode, rng, a, plan);
  }

  method ReadBack(samples: Samples, unit: map<nat, nat>, out: map<nat, Split>) returns (split: map<nat, Split>)
    requires unit.Keys == samples.Keys && out.Keys == unit.Values
    ensures split.Keys == samples.Keys
    ensures forall x :: x in samples ==> unit[x] in out && split[x] == out[unit[x]]
  {
    assert forall x :: x in samples ==> unit[x] in unit.Values;
    split := map x | x in samples :: out[unit[x]];
  }
}
