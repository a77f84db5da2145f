/** The union-find over hole segments: an in-place parent array, path halving, and linking without
    rank or order (`_recognize_holes` of cad2ml/semantics/recognizer.py). */
module HoleStacks {
  import opened Partition
  import opened Sorting
  import opened NearClusters

  /** What the two axial ends of a segment can be, as far as stacking is concerned. */
  datatype End = StepTo(to: nat) | OtherEnd

  /** The axial ends found for each full segment. */
  type Segments = seq<seq<End>>

  predicate ValidSegments(info: Segments) {
    forall i, e :: 0 <= i < |info| && e in info[i] && e.StepTo? ==> e.to < |info|
  }

  // ---- the forest -------------------------------------------------------------------------

  /** Node `x` of a parent array, seen with its root and with a level that falls toward the root. */
  predicate NodeOk(p: seq<nat>, root: seq<nat>, level: seq<nat>, x: nat)
    requires |p| == |root| == |level|
  {
    x < |p| ==>
      && p[x] < |p| && root[x] < |p|
      && root[p[x]] == root[x] && p[root[x]] == root[x]
      && (p[x] == x ==> root[x] == x)
      && (p[x] != x ==> level[p[x]] < level[x])
  }

  /** No parent chain has a cycle, and each ends at the named root. */
  ghost predicate Acyclic(p: seq<nat>, root: seq<nat>, level: seq<nat>) {
    |p| == |root| == |level| && forall x: nat {:trigger NodeOk(p, root, level, x)} :: NodeOk(p, root, level, x)
  }

  /** Following `p` from `x` for ever. */
  function Follow(p: seq<nat>, root: seq<nat>, level: seq<nat>, x: nat): nat
    requires Acyclic(p, root, level) && x < |p|
    decreases level[x]
  {
    assert NodeOk(p, root, level, x);
    if p[x] == x then x else Follow(p, root, level, p[x])
  }

  /** The named roots are the real ends of the chains. */
  lemma {:induction false} FollowIsRoot(p: seq<nat>, root: seq<nat>, level: seq<nat>, x: nat)
    requires Acyclic(p, root, level) && x < |p|
    ensures Follow(p, root, level, x) == root[x]
    decreases level[x]
  {
    assert NodeOk(p, root, level, x);
    if p[x] != x { FollowIsRoot(p, root, level, p[x]); }
  }

  lemma HalvingKeeps(p: seq<nat>, root: seq<nat>, level: seq<nat>, x: nat)
    requires Acyclic(p, root, level) && x < |p| && p[x] < |p|
    ensures Acyclic(p[x := p[p[x]]], root, level)
  {
    assert NodeOk(p, root, level, x) && NodeOk(p, root, level, p[x]);
    var q := p[x := p[p[x]]];
    forall y: nat ensures NodeOk(q, root, level, y) { assert NodeOk(p, root, level, y); }
  }

  /** The classes of roots `a` and `b` become one, under `b`. */
  function MergedRoot(root: seq<nat>, a: nat, b: nat): seq<nat> {
    seq(|root|, i requires 0 <= i < |root| => if root[i] == a then b else root[i])
  }

  function RaisedLevel(root: seq<nat>, level: seq<nat>, a: nat, b: nat): seq<nat>
    requires |root| == |level| && b < |level|
  {
    seq(|root|, i requires 0 <= i < |root| => if root[i] == a then level[i] + level[b] + 1 else level[i])
  }

  lemma LinkKeeps(p: seq<nat>, root: seq<nat>, level: seq<nat>, a: nat, b: nat)
    requires Acyclic(p, root, level) && a < |p| && b < |p| && p[a] == a && p[b] == b && a != b
    ensures Acyclic(p[a := b], MergedRoot(root, a, b), RaisedLevel(root, level, a, b))
  {
    assert NodeOk(p, root, level, a) && NodeOk(p, root, level, b);
    var q, r, l := p[a := b], MergedRoot(root, a, b), RaisedLevel(root, level, a, b);
    forall y: nat ensures NodeOk(q, r, l, y) { assert NodeOk(p, root, level, y); }
  }

  function RootMap(root: seq<nat>): map<nat, nat> {
    map i: nat | i < |root| :: root[i]
  }

  /** `find`: terminates, returns the root, and changes no class. */
  method Find(parent: array<nat>, ghost root: seq<nat>, ghost level: seq<nat>, x: nat) returns (r: nat)
    requires Acyclic(parent[..], root, level) && x < parent.Length
    modifies parent
    ensures Acyclic(parent[..], root, level)
    ensures r == root[x] && r < parent.Length && parent[r] == r
    ensures forall y :: 0 <= y < parent.Length && old(parent[y]) == y ==> parent[y] == y
  {
    r := x;
    assert NodeOk(parent[..], root, level, x);
    while parent[r] != r
      invariant Acyclic(parent[..], root, level) && r < parent.Length && root[r] == root[x]
      invariant parent[r] < parent.Length
      invariant forall y :: 0 <= y < parent.Length && old(parent[y]) == y ==> parent[y] == y
      decreases level[r]
    {
      ghost var p := parent[..];
      assert NodeOk(p, root, level, r) && NodeOk(p, root, level, p[r]);
      HalvingKeeps(p, root, level, r);
      parent[r] := parent[parent[r]];
      assert parent[..] == p[r := p[p[r]]];
      r := parent[r];
      assert NodeOk(parent[..], root, level, r);
    }
    assert NodeOk(parent[..], root, level, r);
  }

  // ---- the links --------------------------------------------------------------------------

  predicate Links(info: Segments, i: int, e: int) {
    && 0 <= i < |info| && |info[i]| == 2 && 0 <= e < 2
    && info[i][e].StepTo? && info[i][e].to < |info| && |info[info[i][e].to]| == 2
  }

  /** The step links of the segments before `i`, and of the ends before `e` of segment `i`. */
  ghost function StepLinks(info: Segments, i: nat, e: nat): set<Link> {
    set k, m | 0 <= k < |info| && 0 <= m < 2 && Links(info, k, m) && (k < i || (k == i && m < e)) ::
        (k as nat, info[k][m].to)
  }

  ghost function AllStepLinks(info: Segments): set<Link> {
    StepLinks(info, |info|, 0)
  }

  lemma StepLinksStep(info: Segments, i: nat, e: nat)
    requires e < 2 && i < |info|
    ensures StepLinks(info, i, e + 1) == StepLinks(info, i, e) + if Links(info, i, e) then {(i, info[i][e].to)} else {}
  {
  }

  lemma StepLinksNext(info: Segments, i: nat)
    requires i < |info|
    ensures StepLinks(info, i + 1, 0) == StepLinks(info, i, 2)
    ensures |info[i]| != 2 ==> StepLinks(info, i, 2) == StepLinks(info, i, 0)
  {
  }

  /** The ghost side of the parent array: roots, levels, and the classes they stand for. */
  ghost predicate Stacked(p: seq<nat>, root: seq<nat>, level: seq<nat>, links: set<Link>) {
    Acyclic(p, root, level) && Labels(RootMap(root), links)
  }

  /** Each step links the root of its segment under the root it leads to, which is looked up first. */
  method LinkSegments(parent: array<nat>, i: nat, to: nat, ghost root: seq<nat>, ghost level: seq<nat>,
                      ghost links: set<Link>)
    returns (ghost root': seq<nat>, ghost level': seq<nat>)
    requires Stacked(parent[..], root, level, links) && i < parent.Length && to < parent.Length
    modifies parent
    ensures Stacked(parent[..], root', level', links + {(i, to)})
  {
    var target := Find(parent, root, level, to);
    var source := Find(parent, root, level, i);
    assert NodeOk(parent[..], root, level, to) && NodeOk(parent[..], root, level, i);
    root', level' := MergedRoot(root, source, target), level;
    ghost var p := parent[..];
    if source != target {
      LinkKeeps(p, root, level, source, target);
      level' := RaisedLevel(root, level, source, target);
    } else {
      assert root' == root;
    }
    parent[source] := target;
    assert parent[..] == p[source := target];
    assert source == target ==> p[source := target] == p;
    MergeLabels(RootMap(root), RootMap(root'), links, i, to);
  }

  lemma NoStepLinks(info: Segments)
    ensures StepLinks(info, 0, 0) == {}
  {
  }

  /** The linking loops: afterwards two segments have one root exactly when a chain of steps joins
      them. */
  method LinkAll(info: Segments) returns (parent: array<nat>, ghost root: seq<nat>, ghost level: seq<nat>)
    requires ValidSegments(info)
    ensures fresh(parent) && parent.Length == |info| && Stacked(parent[..], root, level, AllStepLinks(info))
  {
    parent := new nat[|info|](i => i);
    root, level := parent[..], seq(|info|, i => 0);
    Singletons(parent[..], root, level);
    NoStepLinks(info);
    var i := 0;
    while i < |info|
      invariant 0 <= i <= |info|
      invariant Stacked(parent[..], root, level, StepLinks(info, i, 0))
    {
      root, level := LinkSegment(info, i, parent, root, level);
      i := i + 1;
    }
  }

  /** The ends of one segment; only segments with two ends take part. */
  method LinkSegment(info: Segments, i: nat, parent: array<nat>, ghost root: seq<nat>, ghost level: seq<nat>)
    returns (ghost root': seq<nat>, ghost level': seq<nat>)
    requires ValidSegments(info) && i < |info| && parent.Length == |info|
    requires Stacked(parent[..], root, level, StepLinks(info, i, 0))
    modifies parent
    ensures Stacked(parent[..], root', level', StepLinks(info, i + 1, 0))
  {
    StepLinksNext(info, i);
    root', level' := root, level;
    if |info[i]| == 2 {
      root', level' := LinkEnd(info, i, 0, parent, root', level');
      root', level' := LinkEnd(info, i, 1, parent, root', level');
    }
  }

  /** One end of a segment that has two. */
  method LinkEnd(info: Segments, i: nat, e: nat, parent: array<nat>, ghost root: seq<nat>, ghost level: seq<nat>)
    returns (ghost root': seq<nat>, ghost level': seq<nat>)
    requires ValidSegments(info) && i < |info| && |info[i]| == 2 && e < 2 && parent.Length == |info|
    requires Stacked(parent[..], root, level, StepLinks(info, i, e))
    modifies parent
    ensures Stacked(parent[..], root', level', StepLinks(info, i, e + 1))
  {
    StepLinksStep(info, i, e);
    assert info[i][e] in info[i];
    root', level' := root, level;
    if info[i][e].StepTo? && |info[info[i][e].to]| == 2 {
      root', level' := LinkSegments(parent, i, info[i][e].to, root, level, StepLinks(info, i, e));
    } else {
      assert StepLinks(info, i, e) + {} == StepLinks(info, i, e);
    }
  }

  lemma Singletons(p: seq<nat>, root: seq<nat>, level: seq<nat>)
    requires |p| == |root| == |level| && forall i :: 0 <= i < |p| ==> p[i] == i && root[i] == i
    ensures Stacked(p, root, level, {})
  {
    forall x: nat ensures NodeOk(p, root, level, x) {}
    forall x, y ensures Agrees(RootMap(root), {}, x, y) {
      if x in RootMap(root) && y in RootMap(root) {
        if x == y { LinkedReflexive({}, x); }
        if Linked({}, x, y) {
          var c :| Chain({}, c) && c[0] == x && c[|c| - 1] == y;
          ChainConstant({}, RootMap(root), c);
        }
      }
    }
  }

  // ---- the stacks -------------------------------------------------------------------------

  ghost predicate InSome(stacks: map<nat, seq<nat>>, i: nat) {
    exists r :: GroupHas(stacks, r, i)
  }

  /** `stacks` partitions the segments into the classes of the step links. */
  ghost predicate StacksOf(info: Segments, stacks: map<nat, seq<nat>>) {
    && (forall r :: r in stacks ==> stacks[r] != [] && Ascending(stacks[r]))
    && (forall r, i :: r in stacks && i in stacks[r] ==> i < |info|)
    && (forall i: nat {:trigger InSome(stacks, i)} :: i < |info| ==> InSome(stacks, i))
    && (forall r, q, i, j :: GroupHas(stacks, r, i) && GroupHas(stacks, q, j) ==>
       (r == q <==> Linked(AllStepLinks(info), i, j)))
  }

  /** Stacks are exactly the equivalence classes of the step links; in particular every full segment
      lies in exactly one of them. */
  method StackSegments(info: Segments) returns (stacks: map<nat, seq<nat>>)
    requires ValidSegments(info)
    ensures StacksOf(info, stacks)
  {
    var parent, root, level := LinkAll(info);
    stacks := map[];
    ghost var m := RootMap(root);
    ghost var ids: seq<nat> := [];
    var i := 0;
    while i < |info|
      invariant 0 <= i <= |info| && Acyclic(parent[..], root, level) && parent.Length == |info|
      invariant |ids| == i && (forall k :: 0 <= k < i ==> ids[k] == k)
      invariant Grouped(m, ids, stacks)
    {
      var r := Find(parent, root, level, i);
      AddedGrouped(m, ids, stacks, i);
      stacks := stacks[r := (if r in stacks then stacks[r] else []) + [i]];
      ids := ids + [i];
      i := i + 1;
    }
    GroupsAreStacks(info, root, ids, stacks);
  }

  lemma GroupsAreStacks(info: Segments, root: seq<nat>, ids: seq<nat>, stacks: map<nat, seq<nat>>)
    requires |root| == |info| && Labels(RootMap(root), AllStepLinks(info))
    requires |ids| == |info| && (forall k :: 0 <= k < |ids| ==> ids[k] == k)
    requires Grouped(RootMap(root), ids, stacks)
    ensures StacksOf(info, stacks)
  {
    var m := RootMap(root);
    forall r | r in stacks ensures stacks[r] != [] && Ascending(stacks[r]) {}
    forall i: nat | i < |info| ensures InSome(stacks, i) {
      assert ids[i] == i && i in ids;
      assert GroupHas(stacks, m[i], i);
    }
    forall r, i | r in stacks && i in stacks[r] ensures i < |info| {
      assert GroupHas(stacks, r, i);
    }
    forall r, q, i, j | GroupHas(stacks, r, i) && GroupHas(stacks, q, j)
      ensures r == q <==> Linked(AllStepLinks(info), i, j)
    {
      assert Agrees(m, AllStepLinks(info), i, j);
    }
  }
}
