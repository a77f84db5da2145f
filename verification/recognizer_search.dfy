/** The worklist searches of the feature recognizer over face adjacency: connected components, the
    closing floor of a hole, the step to another bore, and the wall ring of a pocket
    (cad2ml/semantics/recognizer.py). Geometric tests are arbitrary predicates on faces. */
module RecognizerSearch {
  import opened Wrappers
  import opened Sorting

  type Face = nat

  /** `adjacent_face_ids` of every face record. */
  type Adjacency = map<Face, seq<Face>>

  predicate Closed(adj: Adjacency) {
    forall x, n :: x in adj && n in adj[x] ==> n in adj
  }

  predicate Next(adj: Adjacency, x: Face, n: Face) {
    x in adj && n in adj[x]
  }

  // ---- the closing floor ------------------------------------------------------------------

  /** `s` holds every start face outside the wall, and every neighbour outside the wall of its own. */
  ghost predicate FloorClosed(adj: Adjacency, start: seq<Face>, wall: set<Face>, s: set<Face>) {
    && s !! wall
    && (forall x :: x in start ==> x in wall || x in s)
    && (forall x, n :: x in s && Next(adj, x, n) ==> n in wall || n in s)
  }

  ghost predicate AcceptableFloor(s: set<Face>, ok: Face -> bool) {
    (forall x :: x in s ==> ok(x)) && |s| <= 9
  }

  /** The search stands at `floor`, with `todo` still to visit. */
  ghost predicate FloorSearch(adj: Adjacency, start: seq<Face>, wall: set<Face>, ok: Face -> bool,
                              floor: set<Face>, todo: seq<Face>) {
    && floor <= adj.Keys && floor !! wall && AcceptableFloor(floor, ok)
    && (forall x :: x in todo ==> x in adj)
    && (forall x :: x in start ==> x in wall || x in floor || x in todo)
    && (forall x, n :: x in floor && Next(adj, x, n) ==> n in wall || n in floor || n in todo)
    && (forall s :: FloorClosed(adj, start, wall, s) ==> floor <= s && forall x :: x in todo ==> x in wall || x in s)
  }

  /** The neighbours the loop pushes. */
  function Outside(ns: seq<Face>, wall: set<Face>, seen: set<Face>): (r: seq<Face>)
    ensures forall x :: x in r <==> x in ns && x !in wall && x !in seen
  {
    if ns == [] then []
    else if ns[0] !in wall && ns[0] !in seen then [ns[0]] + Outside(ns[1..], wall, seen)
    else Outside(ns[1..], wall, seen)
  }

  lemma FloorVisits(adj: Adjacency, start: seq<Face>, wall: set<Face>, ok: Face -> bool, floor: set<Face>,
                    todo: seq<Face>)
    requires Closed(adj) && FloorSearch(adj, start, wall, ok, floor, todo) && todo != []
    ensures
      var f := todo[|todo| - 1];
      var rest := todo[..|todo| - 1];
      && (f in floor || f in wall ==> FloorSearch(adj, start, wall, ok, floor, rest))
      && (f !in floor && f !in wall && ok(f) && |floor| <= 8 ==>
            FloorSearch(adj, start, wall, ok, floor + {f}, rest + Outside(adj[f], wall, floor + {f})))
      && (f !in floor && f !in wall && (!ok(f) || |floor| > 8) ==>
            forall s :: FloorClosed(adj, start, wall, s) ==> !AcceptableFloor(s, ok))
  {
    var f := todo[|todo| - 1];
    var rest := todo[..|todo| - 1];
    assert todo == rest + [f];
    if f !in floor && f !in wall {
      if ok(f) && |floor| <= 8 {
        var more := Outside(adj[f], wall, floor + {f});
        forall s | FloorClosed(adj, start, wall, s)
          ensures floor + {f} <= s && forall x :: x in rest + more ==> x in wall || x in s
        {
          forall x | x in more ensures x in wall || x in s { assert Next(adj, f, x); }
        }
      } else {
        forall s | FloorClosed(adj, start, wall, s) ensures !AcceptableFloor(s, ok) {
          if |floor| > 8 { SubsetSize(floor + {f}, s); }
        }
      }
    }
  }

  /** `_closing_floor`: the least closed set of faces behind the rim, if all of it passes the test and
      it has at most nine faces; otherwise nothing. The final subset test cannot fail. */
  method ClosingFloor(adj: Adjacency, start: seq<Face>, wall: set<Face>, ok: Face -> bool) returns (r: seq<Face>)
    requires Closed(adj) && forall x :: x in start ==> x in adj
    ensures Ascending(r)
    ensures r != [] ==>
      && FloorClosed(adj, start, wall, Elements(r)) && AcceptableFloor(Elements(r), ok)
      && forall s :: FloorClosed(adj, start, wall, s) ==> Elements(r) <= s
    ensures r == [] ==>
      || (forall x :: x in start ==> x in wall)
      || (forall s :: FloorClosed(adj, start, wall, s) ==> !AcceptableFloor(s, ok))
  {
    var floor: set<Face> := {};
    var frontier := start;
    while frontier != []
      invariant FloorSearch(adj, start, wall, ok, floor, frontier)
      decreases adj.Keys - floor, |frontier|
    {
      FloorVisits(adj, start, wall, ok, floor, frontier);
      var f := frontier[|frontier| - 1];
      frontier := frontier[..|frontier| - 1];
      if f in floor || f in wall { continue; }
      if !ok(f) || |floor| > 8 { return []; }
      floor := floor + {f};
      frontier := frontier + Outside(adj[f], wall, floor);
    }
    assert FloorClosed(adj, start, wall, floor);
    var closes := forall f :: f in floor ==> forall n :: n in adj[f] ==> n in wall || n in floor;
    assert closes by {
      forall f, n | f in floor && n in adj[f] ensures n in wall || n in floor { assert Next(adj, f, n); }
    }
    if floor == {} || !closes { return []; }
    r := SortedKeys(floor);
    SortedElements(r, floor);
  }

  // ---- the step to another bore -----------------------------------------------------------

  /** Where a face met by the step search belongs: to the bore itself, to another full segment (then
      that segment is among `others`), or to the transition `s`. */
  predicate Sorted3(own: set<Face>, segOf: map<Face, nat>, s: set<Face>, others: set<nat>, x: Face) {
    x in own || (x in segOf && segOf[x] in others) || x in s
  }

  ghost predicate StepClosed(adj: Adjacency, start: seq<Face>, own: set<Face>, segOf: map<Face, nat>, s: set<Face>,
                             others: set<nat>) {
    && s !! own && s !! segOf.Keys
    && (forall x :: x in start ==> Sorted3(own, segOf, s, others, x))
    && (forall x, n :: x in s && Next(adj, x, n) ==> Sorted3(own, segOf, s, others, n))
  }

  ghost predicate LeastStep(adj: Adjacency, start: seq<Face>, own: set<Face>, segOf: map<Face, nat>, s: set<Face>,
                            others: set<nat>) {
    && StepClosed(adj, start, own, segOf, s, others)
    && forall t, o :: StepClosed(adj, start, own, segOf, t, o) ==> s <= t && others <= o
  }

  ghost predicate StepSearch(adj: Adjacency, start: seq<Face>, own: set<Face>, segOf: map<Face, nat>, ok: Face -> bool,
                             s: set<Face>, others: set<nat>, todo: seq<Face>) {
    && s <= adj.Keys && s !! own && s !! segOf.Keys && AcceptableFloor(s, ok)
    && (forall x :: x in todo ==> x in adj)
    && (forall x :: x in start ==> Sorted3(own, segOf, s, others, x) || x in todo)
    && (forall x, n :: x in s && Next(adj, x, n) ==> Sorted3(own, segOf, s, others, n) || n in todo)
    && (forall t, o :: StepClosed(adj, start, own, segOf, t, o) ==>
          s <= t && others <= o && forall x :: x in todo ==> Sorted3(own, segOf, t, o, x))
  }

  lemma StepVisits(adj: Adjacency, start: seq<Face>, own: set<Face>, segOf: map<Face, nat>, ok: Face -> bool,
                   s: set<Face>, others: set<nat>, todo: seq<Face>)
    requires Closed(adj) && StepSearch(adj, start, own, segOf, ok, s, others, todo) && todo != []
    ensures
      var f := todo[|todo| - 1];
      var rest := todo[..|todo| - 1];
      && (f in s || f in own ==> StepSearch(adj, start, own, segOf, ok, s, others, rest))
      && (f !in s && f !in own && f in segOf ==> StepSearch(adj, start, own, segOf, ok, s, others + {segOf[f]}, rest))
      && (f !in s && f !in own && f !in segOf && ok(f) && |s| <= 8 ==>
            StepSearch(adj, start, own, segOf, ok, s + {f}, others, rest + Outside(adj[f], own, s + {f})))
      && (f !in s && f !in own && f !in segOf && (!ok(f) || |s| > 8) ==>
            forall t, o :: StepClosed(adj, start, own, segOf, t, o) ==> !AcceptableFloor(t, ok))
  {
    var f := todo[|todo| - 1];
    var rest := todo[..|todo| - 1];
    assert todo == rest + [f];
    if f !in s && f !in own {
      if f !in segOf {
        if ok(f) && |s| <= 8 {
          StepTakes(adj, start, own, segOf, ok, s, others, rest, f);
        } else {
          forall t, o | StepClosed(adj, start, own, segOf, t, o) ensures !AcceptableFloor(t, ok) {
            assert Sorted3(own, segOf, t, o, f);
            if |s| > 8 { SubsetSize(s + {f}, t); }
          }
        }
      } else {
        forall t, o | StepClosed(adj, start, own, segOf, t, o)
          ensures others + {segOf[f]} <= o
        {
          assert Sorted3(own, segOf, t, o, f);
        }
      }
    }
  }

  lemma StepTakes(adj: Adjacency, start: seq<Face>, own: set<Face>, segOf: map<Face, nat>, ok: Face -> bool,
                  s: set<Face>, others: set<nat>, rest: seq<Face>, f: Face)
    requires Closed(adj) && StepSearch(adj, start, own, segOf, ok, s, others, rest + [f])
    requires f !in s && f !in own && f !in segOf && ok(f) && |s| <= 8
    ensures StepSearch(adj, start, own, segOf, ok, s + {f}, others, rest + Outside(adj[f], own, s + {f}))
  {
    assert f in rest + [f];
    var more := Outside(adj[f], own, s + {f});
    forall x | x in more ensures x in adj { assert Next(adj, f, x); }
    forall t, o | StepClosed(adj, start, own, segOf, t, o)
      ensures s + {f} <= t && others <= o && forall x :: x in rest + more ==> Sorted3(own, segOf, t, o, x)
    {
      assert Sorted3(own, segOf, t, o, f);
      forall x | x in more ensures Sorted3(own, segOf, t, o, x) { assert Next(adj, f, x); }
    }
  }

  /** `_step_to_segment`: the least closed transition behind the rim, when all of it passes the test,
      it is not empty, has at most nine faces and reaches exactly one other full segment; otherwise
      nothing. The final subset test cannot fail. */
  method StepToSegment(adj: Adjacency, start: seq<Face>, own: set<Face>, segOf: map<Face, nat>, ok: Face -> bool)
    returns (r: Option<(seq<Face>, nat)>)
    requires Closed(adj) && forall x :: x in start ==> x in adj
    ensures r.Some? ==>
      && Ascending(r.value.0) && r.value.0 != []
      && LeastStep(adj, start, own, segOf, Elements(r.value.0), {r.value.1})
      && AcceptableFloor(Elements(r.value.0), ok)
    ensures r == None ==>
      || (forall t, o :: StepClosed(adj, start, own, segOf, t, o) ==> !AcceptableFloor(t, ok))
      || (exists t, o :: LeastStep(adj, start, own, segOf, t, o) && (t == {} || |o| != 1))
  {
    var trans: set<Face> := {};
    var others: set<nat> := {};
    var frontier := start;
    while frontier != []
      invariant StepSearch(adj, start, own, segOf, ok, trans, others, frontier)
      decreases adj.Keys - trans, |frontier|
    {
      StepVisits(adj, start, own, segOf, ok, trans, others, frontier);
      var f := frontier[|frontier| - 1];
      frontier := frontier[..|frontier| - 1];
      if f in trans || f in own { continue; }
      if f in segOf {
        others := others + {segOf[f]};
        continue;
      }
      if !ok(f) || |trans| > 8 { return None; }
      trans := trans + {f};
      frontier := frontier + Outside(adj[f], own, trans);
    }
    assert LeastStep(adj, start, own, segOf, trans, others);
    r := FinishStep(adj, start, own, segOf, ok, trans, others);
  }

  /** The end of `_step_to_segment`. */
  method FinishStep(adj: Adjacency, start: seq<Face>, own: set<Face>, segOf: map<Face, nat>, ghost ok: Face -> bool,
                    trans: set<Face>, others: set<nat>)
    returns (r: Option<(seq<Face>, nat)>)
    requires trans <= adj.Keys && AcceptableFloor(trans, ok) && LeastStep(adj, start, own, segOf, trans, others)
    ensures r.Some? <==> trans != {} && |others| == 1
    ensures r.Some? ==>
      && Ascending(r.value.0) && r.value.0 != []
      && Elements(r.value.0) == trans && others == {r.value.1}
  {
    if |others| != 1 || trans == {} { return None; }
    var otherIds := set k | k in segOf && segOf[k] in others;
    var fits := forall t :: t in trans ==> forall n :: n in adj[t] ==> n in own || n in trans || n in otherIds;
    assert fits by {
      forall t, n | t in trans && n in adj[t] ensures n in own || n in trans || n in otherIds {
        assert Next(adj, t, n);
        assert Sorted3(own, segOf, trans, others, n);
      }
    }
    if !fits { return None; }
    var other :| other in others;
    OnlyOne(others, other);
    var faces := SortedKeys(trans);
    SortedElements(faces, trans);
    r := Some((faces, other));
  }

  lemma OnlyOne(s: set<nat>, x: nat)
    requires |s| == 1 && x in s
    ensures s == {x}
  {
    assert |s - {x}| == 0;
    assert s - {x} == {};
  }

  // ---- the wall ring of a pocket ----------------------------------------------------------

  ghost predicate RingClosed(adj: Adjacency, walls: seq<Face>, blocked: set<Face>, joins: (Face, Face) -> bool,
                             s: set<Face>) {
    && (forall x :: x in walls ==> x in s)
    && (forall x, n :: x in s && Next(adj, x, n) && n !in blocked && joins(x, n) ==> n in s)
  }

  /** Ring growth of `_recognize_pockets`: the least set with the walls that is closed under tangent
      joins, keeping off the floor face and claimed faces. */
  method GrowRing(adj: Adjacency, walls: seq<Face>, blocked: set<Face>, joins: (Face, Face) -> bool)
    returns (ring: set<Face>)
    requires Closed(adj) && forall x :: x in walls ==> x in adj
    ensures RingClosed(adj, walls, blocked, joins, ring)
    ensures forall s :: RingClosed(adj, walls, blocked, joins, s) ==> ring <= s
  {
    ring := set x | x in walls;
    var frontier := walls;
    while frontier != []
      invariant (forall x :: x in walls ==> x in ring) && ring <= adj.Keys
      invariant forall x :: x in frontier ==> x in ring
      invariant forall x, n :: x in ring && x !in frontier && Next(adj, x, n) && n !in blocked && joins(x, n) ==>
          n in ring
      invariant forall s :: RingClosed(adj, walls, blocked, joins, s) ==> ring <= s
      decreases adj.Keys - ring, |frontier|
    {
      var w := frontier[|frontier| - 1];
      ghost var before := frontier;
      frontier := frontier[..|frontier| - 1];
      assert before == frontier + [w];
      var i := 0;
      ghost var ring0, size0 := ring, |frontier|;
      while i < |adj[w]|
        invariant 0 <= i <= |adj[w]| && w in ring && ring0 <= ring <= adj.Keys
        invariant ring == ring0 ==> |frontier| == size0
        invariant forall x :: x in walls ==> x in ring
        invariant forall x :: x in frontier ==> x in ring
        invariant forall x :: x in ring ==> x in frontier || x in ring0
        invariant forall x :: x in before ==> x == w || x in frontier
        invariant forall x, n ::
                    x in ring && x !in frontier && x != w && Next(adj, x, n) && n !in blocked && joins(x, n) ==>
                      n in ring
        invariant forall k :: 0 <= k < i && adj[w][k] !in blocked && joins(w, adj[w][k]) ==> adj[w][k] in ring
        invariant forall s :: RingClosed(adj, walls, blocked, joins, s) ==> ring <= s
      {
        var n := adj[w][i];
        assert Next(adj, w, n);
        if n !in ring && n !in blocked && joins(w, n) {
          ring := ring + {n};
          frontier := frontier + [n];
        }
        i := i + 1;
      }
      forall n | Next(adj, w, n) && n !in blocked && joins(w, n) ensures n in ring {
        var k :| 0 <= k < |adj[w]| && adj[w][k] == n;
      }
    }
  }
}
