/** Equivalence closures, and how merging two classes tracks one more link. */
module Partition {

  type Link = (nat, nat)

  predicate Step(links: set<Link>, x: nat, y: nat) {
    x == y || (x, y) in links || (y, x) in links
  }

  /** A chain of links, walked in either direction. */
  ghost predicate Chain(links: set<Link>, p: seq<nat>) {
    p != [] && forall i {:trigger p[i]} :: 0 < i < |p| ==> Step(links, p[i - 1], p[i])
  }

  /** The reflexive, symmetric and transitive closure of `links`. */
  ghost predicate Linked(links: set<Link>, x: nat, y: nat) {
    exists p :: Chain(links, p) && p[0] == x && p[|p| - 1] == y
  }

  lemma ChainInit(links: set<Link>, p: seq<nat>)
    requires Chain(links, p) && |p| > 1
    ensures Chain(links, p[..|p| - 1]) && Step(links, p[|p| - 2], p[|p| - 1])
  {
    var q := p[..|p| - 1];
    forall i | 0 < i < |q| ensures Step(links, q[i - 1], q[i]) { assert Step(links, p[i - 1], p[i]); }
    assert Step(links, p[|p| - 2], p[|p| - 1]);
  }

  lemma LinkedReflexive(links: set<Link>, x: nat)
    ensures Linked(links, x, x)
  {
    assert Chain(links, [x]);
  }

  lemma LinkedStep(links: set<Link>, x: nat, y: nat)
    requires Step(links, x, y)
    ensures Linked(links, x, y)
  {
    var p := [x, y];
    assert Chain(links, p) && p[0] == x && p[|p| - 1] == y;
  }

  lemma LinkedTransitive(links: set<Link>, x: nat, y: nat, z: nat)
    requires Linked(links, x, y) && Linked(links, y, z)
    ensures Linked(links, x, z)
  {
    var p :| Chain(links, p) && p[0] == x && p[|p| - 1] == y;
    var q :| Chain(links, q) && q[0] == y && q[|q| - 1] == z;
    var r := p + q;
    forall i | 0 < i < |r| ensures Step(links, r[i - 1], r[i]) {
      if i < |p| {
        assert r[i - 1] == p[i - 1] && r[i] == p[i];
      } else if i > |p| {
        assert r[i - 1] == q[i - |p| - 1] && r[i] == q[i - |p|];
      }
    }
    assert Chain(links, r) && r[0] == x && r[|r| - 1] == z;
  }

  lemma LinkedSymmetric(links: set<Link>, x: nat, y: nat)
    requires Linked(links, x, y)
    ensures Linked(links, y, x)
  {
    var p :| Chain(links, p) && p[0] == x && p[|p| - 1] == y;
    var r := seq(|p|, i requires 0 <= i < |p| => p[|p| - 1 - i]);
    forall i | 0 < i < |r| ensures Step(links, r[i - 1], r[i]) {
      var k := |p| - i;
      assert r[i - 1] == p[k] && r[i] == p[k - 1];
    }
    assert Chain(links, r) && r[0] == y && r[|r| - 1] == x;
  }

  /** A labelling that no link changes is constant along chains. */
  lemma {:induction false} ChainConstant(links: set<Link>, rep: map<nat, nat>, p: seq<nat>)
    requires Chain(links, p) && p[0] in rep
    requires forall l :: l in links ==> l.0 in rep && l.1 in rep && rep[l.0] == rep[l.1]
    ensures p[|p| - 1] in rep && rep[p[|p| - 1]] == rep[p[0]]
  {
    if |p| > 1 {
      var q := p[..|p| - 1];
      forall i | 0 < i < |q| ensures Step(links, q[i - 1], q[i]) { assert Step(links, p[i - 1], p[i]); }
      ChainConstant(links, rep, q);
      assert Step(links, p[|p| - 2], p[|p| - 1]);
    }
  }

  predicate Known(rep: map<nat, nat>, l: Link) {
    l.0 in rep && l.1 in rep
  }

  ghost predicate Agrees(rep: map<nat, nat>, links: set<Link>, x: nat, y: nat) {
    x in rep && y in rep ==> (rep[x] == rep[y] <==> Linked(links, x, y))
  }

  /** `rep` names the classes of the closure of `links` on its keys. */
  ghost predicate Labels(rep: map<nat, nat>, links: set<Link>) {
    && (forall l {:trigger Known(rep, l)} :: l in links ==> Known(rep, l))
    && forall x, y {:trigger Agrees(rep, links, x, y)} :: Agrees(rep, links, x, y)
  }

  /** `rep'` gives the classes of `a` and `b` in `rep` one name, which is `a`'s or `b`'s, and
      leaves every other class as it was. */
  ghost predicate Merges(rep: map<nat, nat>, rep': map<nat, nat>, a: nat, b: nat) {
    && a in rep && b in rep && rep'.Keys == rep.Keys
    && (rep'[a] == rep[a] || rep'[a] == rep[b])
    && forall x {:trigger rep'[x]} :: x in rep ==>
         rep'[x] == if rep[x] == rep[a] || rep[x] == rep[b] then rep'[a] else rep[x]
  }

  lemma MergeLabels(rep: map<nat, nat>, rep': map<nat, nat>, links: set<Link>, a: nat, b: nat)
    requires Labels(rep, links) && Merges(rep, rep', a, b)
    ensures Labels(rep', links + {(a, b)})
  {
    var more := links + {(a, b)};
    forall l | l in more ensures Known(rep', l) && rep'[l.0] == rep'[l.1] {
      if l in links {
        assert Known(rep, l) && Agrees(rep, links, l.0, l.1);
        LinkedStep(links, l.0, l.1);
      }
    }
    forall x, y ensures Agrees(rep', more, x, y) {
      if x in rep' && y in rep' {
        if rep'[x] == rep'[y] { MergedAreLinked(rep, rep', links, a, b, x, y); }
        if Linked(more, x, y) {
          var p :| Chain(more, p) && p[0] == x && p[|p| - 1] == y;
          ChainConstant(more, rep', p);
        }
      }
    }
  }

  lemma MergedAreLinked(rep: map<nat, nat>, rep': map<nat, nat>, links: set<Link>, a: nat, b: nat, x: nat, y: nat)
    requires Labels(rep, links) && Merges(rep, rep', a, b)
    requires x in rep && y in rep && rep'[x] == rep'[y]
    ensures Linked(links + {(a, b)}, x, y)
  {
    var more := links + {(a, b)};
    LinkedStep(more, a, b);
    LinkedStep(more, b, a);
    if rep[x] == rep[y] {
      assert Agrees(rep, links, x, y);
    } else {
      var u := if rep[x] == rep[a] then a else b;
      var v := if rep[y] == rep[a] then a else b;
      assert Agrees(rep, links, x, u) && Agrees(rep, links, v, y);
      LinkedReflexive(more, u);
      LinkedTransitive(more, x, u, v);
      LinkedTransitive(more, x, v, y);
    }
  }

  /** A new element that no link touches is its own class. */
  lemma FreshLabel(rep: map<nat, nat>, links: set<Link>, x: nat)
    requires Labels(rep, links) && x !in rep && x !in rep.Values
    ensures Labels(rep[x := x], links)
  {
    var rep' := rep[x := x];
    forall l | l in links ensures Known(rep', l) && rep'[l.0] == rep'[l.1] {
      assert Known(rep, l) && Agrees(rep, links, l.0, l.1);
      LinkedStep(links, l.0, l.1);
    }
    forall u, v ensures Agrees(rep', links, u, v) {
      if u in rep' && v in rep' {
        assert Agrees(rep, links, u, v);
        if u in rep { assert rep[u] in rep.Values; }
        if v in rep { assert rep[v] in rep.Values; }
        if u == v { LinkedReflexive(links, u); }
        if Linked(links, u, v) {
          var p :| Chain(links, p) && p[0] == u && p[|p| - 1] == v;
          ChainConstant(links, rep', p);
        }
      }
    }
  }
}
