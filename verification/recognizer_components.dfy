/** `_connected` of cad2ml/semantics/recognizer.py: the connected components of a group of faces. */
module RecognizerComponents {
  import opened Sorting
  import opened Partition
  import opened RecognizerSearch

  /** Adjacency within the group. */
  ghost function Within(adj: Adjacency, ids: set<Face>): set<Link> {
    set x, n | x in ids && x in adj && n in adj[x] && n in ids :: (x, n)
  }

  ghost predicate Symmetric(adj: Adjacency, ids: set<Face>) {
    forall x, n :: x in ids && n in ids && Next(adj, x, n) ==> Next(adj, n, x)
  }

  /** Neighbours within the group of members of `s` are in `t`. */
  ghost predicate LeadsInto(adj: Adjacency, ids: set<Face>, s: set<Face>, t: set<Face>) {
    forall x, n :: x in s && Next(adj, x, n) && n in ids ==> n in t
  }

  ghost predicate AllLinkedTo(links: set<Link>, f: Face, s: seq<Face>) {
    forall x :: x in s ==> Linked(links, f, x)
  }

  /** The inner loop: push the neighbours of `cur` not seen before. */
  method PushNeighbours(adj: Adjacency, ids: set<Face>, cur: Face, seen: set<Face>, stack: seq<Face>)
    returns (seen': set<Face>, stack': seq<Face>)
    requires cur in adj && Elements(stack) <= seen
    requires Distinct(stack)
    ensures |stack'| >= |stack| && stack'[..|stack|] == stack && Distinct(stack')
    ensures seen' == seen + Elements(stack') && (forall x :: x in stack'[|stack|..] ==> x !in seen)
    ensures forall x :: x in stack'[|stack|..] ==> x in ids && Next(adj, cur, x)
    ensures LeadsInto(adj, ids, {cur}, seen')
  {
    seen', stack' := seen, stack;
    var i := 0;
    while i < |adj[cur]|
      invariant 0 <= i <= |adj[cur]|
      invariant |stack'| >= |stack| && stack'[..|stack|] == stack && Distinct(stack')
      invariant seen' == seen + Elements(stack') && (forall x :: x in stack'[|stack|..] ==> x !in seen)
      invariant forall x :: x in stack'[|stack|..] ==> x in ids && Next(adj, cur, x)
      invariant forall k :: 0 <= k < i && adj[cur][k] in ids ==> adj[cur][k] in seen'
    {
      var n := adj[cur][i];
      if n in ids && n !in seen' {
        seen' := seen' + {n};
        assert Elements(stack' + [n]) == Elements(stack') + {n};
        stack' := stack' + [n];
      }
      i := i + 1;
    }
    forall n | Next(adj, cur, n) && n in ids ensures n in seen' {
      var k :| 0 <= k < |adj[cur]| && adj[cur][k] == n;
    }
  }

  /** The search stands at `comp`, with `stack` to visit, having met `seen0` before it began. */
  ghost predicate Searching(adj: Adjacency, ids: set<Face>, f: Face, seen0: set<Face>, comp: seq<Face>,
                            stack: seq<Face>) {
    && Distinct(comp + stack) && Elements(comp + stack) <= ids && Elements(comp + stack) !! seen0
    && f in comp + stack && AllLinkedTo(Within(adj, ids), f, comp + stack)
    && LeadsInto(adj, ids, Elements(comp), seen0 + Elements(comp + stack))
  }

  lemma Visited(adj: Adjacency, ids: set<Face>, f: Face, seen0: set<Face>, comp: seq<Face>, stack: seq<Face>,
                cur: Face, stack': seq<Face>)
    requires Searching(adj, ids, f, seen0, comp, stack + [cur])
    requires |stack'| >= |stack| && stack'[..|stack|] == stack && Distinct(stack')
    requires forall x :: x in stack'[|stack|..] ==>
               x in ids && Next(adj, cur, x) && x !in seen0 + Elements(comp + (stack + [cur]))
    requires LeadsInto(adj, ids, {cur}, seen0 + Elements(comp + (stack + [cur])) + Elements(stack'))
    ensures Searching(adj, ids, f, seen0, comp + [cur], stack')
    ensures seen0 + Elements(comp + (stack + [cur])) + Elements(stack') == seen0 + Elements((comp + [cur]) + stack')
  {
    var links := Within(adj, ids);
    var news := stack'[|stack|..];
    var was, now := comp + (stack + [cur]), (comp + [cur]) + stack';
    assert stack' == stack + news;
    assert cur in was && cur in stack + [cur];
    forall x ensures x in now <==> x in was || x in news {
      assert x in stack' <==> x in stack || x in news;
      assert x in stack + [cur] <==> x in stack || x == cur;
    }
    assert Elements(now) == Elements(was) + Elements(news);
    assert Elements(stack') <= Elements(now);
    forall x | x in now ensures Linked(links, f, x) {
      if x in news {
        LinkedStep(links, cur, x);
        LinkedTransitive(links, f, cur, x);
      }
    }
    DistinctMoved(comp, stack, cur, news);
    assert Elements(comp + [cur]) == Elements(comp) + {cur};
  }

  lemma DistinctMoved(comp: seq<Face>, stack: seq<Face>, cur: Face, news: seq<Face>)
    requires Distinct(comp + (stack + [cur])) && Distinct(stack + news)
    requires forall x :: x in news ==> x !in comp + (stack + [cur])
    ensures Distinct((comp + [cur]) + (stack + news))
  {
    var was, now := comp + (stack + [cur]), (comp + [cur]) + (stack + news);
    forall i, k | 0 <= i < k < |now| ensures now[i] != now[k] {
      if k > |comp| {
        assert now[k] == (stack + news)[k - |comp| - 1];
        if i < |comp| {
          assert now[i] == was[i];
          if k - |comp| - 1 < |stack| { assert now[k] == was[k - 1]; } else { assert now[k] in news; }
        } else if i == |comp| {
          assert now[i] == cur == was[|comp| + |stack|];
          if k - |comp| - 1 < |stack| { assert now[k] == was[k - 1]; } else { assert now[k] in news; }
        } else {
          assert now[i] == (stack + news)[i - |comp| - 1];
        }
      } else {
        assert now[i] == was[i];
        if k < |comp| { assert now[k] == was[k]; } else { assert now[k] == cur == was[|comp| + |stack|]; }
      }
    }
  }

  /** One component: everything linked to `f` that the search reaches, each face once. */
  method Component(adj: Adjacency, ids: set<Face>, seen0: set<Face>, f: Face) returns (comp: seq<Face>, seen: set<Face>)
    requires ids <= adj.Keys && f in ids && f !in seen0
    ensures seen == seen0 + Elements(comp) && Searching(adj, ids, f, seen0, comp, [])
  {
    comp := [];
    var stack := [f];
    seen := seen0 + {f};
    LinkedReflexive(Within(adj, ids), f);
    assert comp + stack == [f];
    assert Elements([f]) == {f};
    while stack != []
      invariant seen == seen0 + Elements(comp + stack) && Searching(adj, ids, f, seen0, comp, stack)
      decreases ids - seen, |stack|
    {
      var cur := stack[|stack| - 1];
      ghost var before := stack;
      stack := stack[..|stack| - 1];
      assert before == stack + [cur];
      assert cur in comp + before;
      ghost var seen1, stack1 := seen, stack;
      StackParts(comp, stack, cur);
      seen, stack := PushNeighbours(adj, ids, cur, seen, stack);
      Visited(adj, ids, f, seen0, comp, stack1, cur, stack);
      comp := comp + [cur];
      FewerUnseen(ids, seen1, seen, stack1, stack);
    }
    assert comp + [] == comp;
  }

  /** Whatever is pushed was not seen before. */
  lemma FewerUnseen(ids: set<Face>, seen: set<Face>, seen': set<Face>, stack: seq<Face>, stack': seq<Face>)
    requires |stack'| >= |stack| && seen' == seen + Elements(stack')
    requires forall x :: x in stack'[|stack|..] ==> x in ids && x !in seen
    ensures ids - seen' <= ids - seen && (|stack'| > |stack| ==> ids - seen' < ids - seen)
  {
    if |stack'| > |stack| {
      var x := stack'[|stack|];
      assert x in stack'[|stack|..];
      assert x in ids - seen && x !in ids - seen';
    }
  }

  lemma StackParts(comp: seq<Face>, stack: seq<Face>, cur: Face)
    requires Distinct(comp + (stack + [cur]))
    ensures Distinct(stack) && Elements(stack) <= Elements(comp + (stack + [cur]))
  {
    var all := comp + (stack + [cur]);
    forall i | 0 <= i < |stack| ensures stack[i] == all[|comp| + i] && stack[i] in all {}
  }

  // ---- all components ---------------------------------------------------------------------

  predicate Holds(comps: seq<seq<Face>>, k: int, x: Face) {
    0 <= k < |comps| && x in comps[k]
  }

  /** The lists share no face, repeat none, and hold exactly `s`. */
  ghost predicate Partitions(comps: seq<seq<Face>>, s: set<Face>) {
    && (forall k :: 0 <= k < |comps| ==> comps[k] != [] && Distinct(comps[k]))
    && (forall k, l, x :: Holds(comps, k, x) && Holds(comps, l, x) ==> k == l)
    && (forall x :: x in s ==> exists k :: Holds(comps, k, x))
    && (forall k, x :: Holds(comps, k, x) ==> x in s)
  }

  ghost predicate Separates(comps: seq<seq<Face>>, links: set<Link>, x: Face, y: Face) {
    forall k, l :: Holds(comps, k, x) && Holds(comps, l, y) ==> (k == l <==> Linked(links, x, y))
  }

  ghost predicate LinkedInside(comps: seq<seq<Face>>, links: set<Link>, x: Face, y: Face) {
    forall k :: Holds(comps, k, x) && Holds(comps, k, y) ==> Linked(links, x, y)
  }

  /** What the outer loop keeps. */
  ghost predicate Found(adj: Adjacency, ids: set<Face>, comps: seq<seq<Face>>, seen: set<Face>) {
    && Partitions(comps, seen) && seen <= ids
    && LeadsInto(adj, ids, seen, seen)
    && (forall x, y {:trigger LinkedInside(comps, Within(adj, ids), x, y)} ::
       LinkedInside(comps, Within(adj, ids), x, y))
    && (Symmetric(adj, ids) ==> forall k :: 0 <= k < |comps| ==>
       LeadsInto(adj, ids, Elements(comps[k]), Elements(comps[k])))
  }

  lemma FoundOne(adj: Adjacency, ids: set<Face>, comps: seq<seq<Face>>, seen: set<Face>, f: Face, comp: seq<Face>)
    requires Found(adj, ids, comps, seen) && Searching(adj, ids, f, seen, comp, [])
    ensures Found(adj, ids, comps + [comp], seen + Elements(comp))
  {
    var links, more := Within(adj, ids), comps + [comp];
    assert comp + [] == comp;
    PartitionsMore(comps, seen, comp);
    forall x, y ensures LinkedInside(more, links, x, y) {
      forall k | Holds(more, k, x) && Holds(more, k, y) ensures Linked(links, x, y) {
        if k < |comps| {
          assert Holds(comps, k, x) && Holds(comps, k, y) && LinkedInside(comps, links, x, y);
        } else {
          LinkedSymmetric(links, f, x);
          LinkedTransitive(links, x, f, y);
        }
      }
    }
    if Symmetric(adj, ids) {
      forall x, n | x in comp && Next(adj, x, n) && n in ids ensures n in comp {
        assert x in Elements(comp);
        assert x in ids && Next(adj, n, x);
      }
      forall k | 0 <= k < |more| ensures LeadsInto(adj, ids, Elements(more[k]), Elements(more[k])) {}
    }
  }

  lemma PartitionsMore(comps: seq<seq<Face>>, seen: set<Face>, comp: seq<Face>)
    requires Partitions(comps, seen) && Distinct(comp) && comp != [] && Elements(comp) !! seen
    ensures Partitions(comps + [comp], seen + Elements(comp))
  {
    var more := comps + [comp];
    forall k, x ensures Holds(more, k, x) <==> Holds(comps, k, x) || (k == |comps| && x in Elements(comp)) {}
    forall x | x in seen + Elements(comp) ensures exists k :: Holds(more, k, x) {
      if x in seen {
        var k :| Holds(comps, k, x);
        assert Holds(more, k, x);
      } else {
        assert Holds(more, |comps|, x);
      }
    }
  }

  /** A chain within the group never leaves a component that is closed under adjacency. */
  lemma StaysInside(adj: Adjacency, ids: set<Face>, s: set<Face>, x: Face, y: Face)
    requires Symmetric(adj, ids) && s <= ids <= adj.Keys && LeadsInto(adj, ids, s, s)
    requires x in s && y in ids && Linked(Within(adj, ids), x, y)
    ensures y in s
  {
    var links := Within(adj, ids);
    var rep := map z | z in ids :: if z in s then 1 else 0;
    forall l | l in links ensures l.0 in rep && l.1 in rep && rep[l.0] == rep[l.1] {
      assert Next(adj, l.0, l.1) && Next(adj, l.1, l.0);
    }
    var p :| Chain(links, p) && p[0] == x && p[|p| - 1] == y;
    ChainConstant(links, rep, p);
  }

  /** `_connected`: the lists partition the group whatever the records say; when adjacency is
      symmetric they are exactly its connected components. */
  method Connected(adj: Adjacency, faces: seq<Face>) returns (comps: seq<seq<Face>>)
    requires forall x :: x in faces ==> x in adj
    ensures Partitions(comps, Elements(faces))
    ensures forall x, y {:trigger LinkedInside(comps, Within(adj, Elements(faces)), x, y)} ::
              LinkedInside(comps, Within(adj, Elements(faces)), x, y)
    ensures Symmetric(adj, Elements(faces)) ==>
              forall x, y {:trigger Separates(comps, Within(adj, Elements(faces)), x, y)} ::
                Separates(comps, Within(adj, Elements(faces)), x, y)
  {
    var ids := set x | x in faces;
    assert ids == Elements(faces);
    var seen: set<Face> := {};
    comps := [];
    var i := 0;
    while i < |faces|
      invariant 0 <= i <= |faces| && Found(adj, ids, comps, seen)
      invariant forall k :: 0 <= k < i ==> faces[k] in seen
    {
      if faces[i] !in seen {
        var comp, seen' := Component(adj, ids, seen, faces[i]);
        FoundOne(adj, ids, comps, seen, faces[i], comp);
        assert comp + [] == comp;
        comps, seen := comps + [comp], seen';
      }
      i := i + 1;
    }
    assert seen == ids;
    if Symmetric(adj, ids) {
      forall x, y ensures Separates(comps, Within(adj, ids), x, y) {
        SeparatesFound(adj, ids, comps, x, y);
      }
    }
  }

  lemma SeparatesFound(adj: Adjacency, ids: set<Face>, comps: seq<seq<Face>>, x: Face, y: Face)
    requires Found(adj, ids, comps, ids) && Symmetric(adj, ids) && ids <= adj.Keys
    ensures Separates(comps, Within(adj, ids), x, y)
  {
    forall k, l | Holds(comps, k, x) && Holds(comps, l, y)
      ensures k == l <==> Linked(Within(adj, ids), x, y)
    {
      assert LinkedInside(comps, Within(adj, ids), x, y);
      if Linked(Within(adj, ids), x, y) {
        forall z | z in comps[k] ensures z in ids { assert Holds(comps, k, z); }
        StaysInside(adj, ids, Elements(comps[k]), x, y);
        assert Holds(comps, k, y);
      }
    }
  }
}
