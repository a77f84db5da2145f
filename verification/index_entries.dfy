/** What the lineage index says of a face, from the stored arrays alone
    (cad2ml/extraction.py, the loop over `lineage_faces`). */
module IndexEntries {
  import opened Wrappers
  import opened Sorting
  import opened Entities
  import opened FaceRanges
  import opened Lineage
  import opened Extraction
  import RenderViews

  // ---- counts -----------------------------------------------------------------------------

  /** The positions of a value in a row. */
  ghost function Where(row: seq<nat>, value: nat): set<nat> {
    set j: nat | j < |row| && row[j] == value
  }

  lemma {:induction false} OwnedCounts(row: seq<nat>, value: nat)
    ensures Owned(row, value) == |Where(row, value)|
  {
    if row == [] {
      assert Where(row, value) == {};
    } else {
      var n := |row| - 1;
      OwnedCounts(row[..n], value);
      assert Where(row, value) == if row[n] == value then Where(row[..n], value) + {n} else Where(row[..n], value);
    }
  }

  /** The pixels of an image that have the value. */
  ghost function PixelsWith(rows: seq<seq<nat>>, value: nat): set<(nat, nat)> {
    set i: nat, j: nat | i < |rows| && j < |rows[i]| && rows[i][j] == value :: (i, j)
  }

  ghost function InRow(i: nat, s: set<nat>): set<(nat, nat)> {
    set j | j in s :: (i, j)
  }

  lemma {:induction false} RowSize(i: nat, s: set<nat>)
    ensures |InRow(i, s)| == |s|
    decreases s
  {
    if s == {} {
      assert InRow(i, s) == {};
    } else {
      var j :| j in s;
      RowSize(i, s - {j});
      assert InRow(i, s) == InRow(i, s - {j}) + {(i, j)};
    }
  }

  lemma LastRow(rows: seq<seq<nat>>, value: nat)
    requires rows != []
    ensures
      var n := |rows| - 1;
      && PixelsWith(rows, value) == PixelsWith(rows[..n], value) + InRow(n, Where(rows[n], value))
      && PixelsWith(rows[..n], value) !! InRow(n, Where(rows[n], value))
  {
    var n := |rows| - 1;
    var all := PixelsWith(rows, value);
    var before, here := PixelsWith(rows[..n], value), InRow(n, Where(rows[n], value));
    forall x: (nat, nat) ensures x in all <==> x in before || x in here {
      assert x == (x.0, x.1);
      if x.0 == n && x in all { assert x.1 in Where(rows[n], value); }
      assert x.0 < n ==> rows[..n][x.0] == rows[x.0];
    }
  }

  /** Counting row by row counts each pixel once. */
  lemma {:induction false} PixelsCounted(rows: seq<seq<nat>>, value: nat)
    ensures PixelCount(rows, value) == |PixelsWith(rows, value)|
  {
    if rows == [] {
      assert PixelsWith(rows, value) == {};
    } else {
      var n := |rows| - 1;
      PixelsCounted(rows[..n], value);
      OwnedCounts(rows[n], value);
      LastRow(rows, value);
      RowSize(n, Where(rows[n], value));
    }
  }

  // ---- entries ----------------------------------------------------------------------------

  /** The entry's range of an array holds exactly the positions that carry the face's index. */
  ghost predicate Spans(owner: seq<nat>, range: (nat, nat), face: nat) {
    range.0 <= range.1 <= |owner| && forall j :: 0 <= j < |owner| ==> (owner[j] == face <==> range.0 <= j < range.1)
  }

  lemma RangeSpans(owner: seq<nat>, ranges: seq<Range>, i: nat)
    requires Ranged(owner, ranges) && i < |ranges|
    ensures Spans(owner, (ranges[i].0, ranges[i].0 + ranges[i].1), i)
  {
    forall j: nat | j < |owner| ensures owner[j] == i <==> Inside(ranges[i], j) {
      assert OwnedAt(owner, ranges, i, j);
    }
  }

  /** The entry holds the place of face `i` and what the kernel says of it. */
  ghost predicate Describes(e: Entry, k: Kernel, s: Arrays, i: nat)
    requires i < |s.faces|
  {
    && e.node == i && e.traversal == s.faces[i].traversal && e.traversal < |k.faces|
    && e.kind == k.faces[e.traversal].kind && e.fingerprint == s.faces[i].fingerprint
  }

  /** The entry says where the points and triangles of face `i` are; there are some of both. */
  ghost predicate Locates(e: Entry, s: Arrays, i: nat) {
    && Spans(s.pointFaces, e.points, i) && Spans(s.mesh.triFace, e.triangles, i)
    && e.points.0 < e.points.1 && e.triangles.0 < e.triangles.1
  }

  /** The entry says how many pixels of each view show face `i`. */
  ghost predicate CountsPixels(e: Entry, s: Arrays, i: nat) {
    |e.pixels| == |s.views| && forall v :: 0 <= v < |s.views| ==> e.pixels[v] == |PixelsWith(s.views[v].mask, i + 1)|
  }

  lemma EntryLocates(s: Arrays, i: nat)
    requires Sized(s) && i < |s.faces| && Ranged(s.pointFaces, s.points) && Ranged(s.mesh.triFace, s.mesh.ranges)
    requires s.points[i].1 > 0 && s.mesh.ranges[i].1 > 0
    ensures Locates(EntryFor(s, i), s, i)
  {
    RangeSpans(s.pointFaces, s.points, i);
    RangeSpans(s.mesh.triFace, s.mesh.ranges, i);
  }

  lemma EntryCounts(s: Arrays, i: nat)
    requires Sized(s) && i < |s.faces|
    ensures CountsPixels(EntryFor(s, i), s, i)
  {
    forall v | 0 <= v < |s.views| ensures Pixels(s.views, i)[v] == |PixelsWith(s.views[v].mask, i + 1)| {
      PixelsCounted(s.views[v].mask, i + 1);
    }
  }

  lemma EntryDescribes(k: Kernel, m: Measures, s: Arrays, i: nat)
    requires ValidKernel(k) && Records(k, m, s.faces, s.edges) && Sized(s) && i < |s.faces|
    ensures s.faces[i].id == FaceName(i) && Describes(EntryFor(s, i), k, s, i)
  {
    RecordsNamed(k, m, s.faces, s.edges);
  }

  lemma EntryStored(p: Part, a: Artifacts, i: nat)
    requires ValidPart(p) && Extracts(p, a) && i < |a.arrays.faces|
    ensures Records(p.kernel, p.measures, a.arrays.faces, a.arrays.edges) && Sized(a.arrays)
    ensures Ranged(a.arrays.pointFaces, a.arrays.points) && Ranged(a.arrays.mesh.triFace, a.arrays.mesh.ranges)
    ensures a.arrays.points[i].1 > 0 && a.arrays.mesh.ranges[i].1 > 0
    ensures a.arrays.faces[i].id in a.lineage && a.lineage[a.arrays.faces[i].id] == EntryFor(a.arrays, i)
  {
    assert a.arrays.points[i] in a.arrays.points && a.arrays.mesh.ranges[i] in a.arrays.mesh.ranges;
  }

  /** The entry of every face: its place, what the kernel says of it, where its points and triangles are,
      and how many pixels of each view show it. */
  lemma EntryMeans(p: Part, a: Artifacts, i: nat)
    requires ValidPart(p) && Extracts(p, a) && i < |a.arrays.faces|
    ensures FaceName(i) in a.lineage
    ensures Describes(a.lineage[FaceName(i)], p.kernel, a.arrays, i)
    ensures Locates(a.lineage[FaceName(i)], a.arrays, i) && CountsPixels(a.lineage[FaceName(i)], a.arrays, i)
  {
    EntryStored(p, a, i);
    EntryDescribes(p.kernel, p.measures, a.arrays, i);
    EntryLocates(a.arrays, i);
    EntryCounts(a.arrays, i);
  }

  predicate TakesPart(features: seq<Labelled>, k: int, name: string) {
    0 <= k < |features| && name in features[k].faces
  }

  /** `at` are the places of the features with a face of that name, ascending. */
  ghost predicate Places(features: seq<Labelled>, name: string, at: seq<nat>) {
    Ascending(at) && forall k {:trigger TakesPart(features, k, name)} :: TakesPart(features, k, name) <==> k in at
  }

  /** The names are those of the features at the places. */
  predicate NamedBy(features: seq<Labelled>, at: seq<nat>, names: seq<string>) {
    |names| == |at| && forall c :: 0 <= c < |at| ==> at[c] < |features| && names[c] == features[at[c]].id
  }

  lemma PlacesMore(features: seq<Labelled>, f: Labelled, name: string, at: seq<nat>)
    requires Places(features, name, at)
    ensures Places(features + [f], name, if name in f.faces then at + [|features|] else at)
  {
    var more, at' := features + [f], if name in f.faces then at + [|features|] else at;
    forall k ensures TakesPart(more, k, name) <==> k in at' {
      assert TakesPart(features, k, name) <==> k in at;
    }
    forall c | 0 <= c < |at| ensures at[c] < |features| { assert at[c] in at && TakesPart(features, at[c], name); }
  }

  /** The features listed for a name are those with a face of that name, each once, in their order. */
  lemma {:induction false} FeaturesListed(features: seq<Labelled>, name: string) returns (at: seq<nat>)
    ensures Places(features, name, at) && NamedBy(features, at, FeaturesOf(features, name))
  {
    at := [];
    if features != [] {
      var n := |features| - 1;
      var before := FeaturesListed(features[..n], name);
      assert features == features[..n] + [features[n]];
      PlacesMore(features[..n], features[n], name, before);
      at := if name in features[n].faces then before + [n] else before;
    }
  }
}
