/** Sorting by a key order, and the order of the keys and identifiers the code sorts by. */
module Ordering {

  /** Any two values compare, and comparisons chain. */
  ghost predicate Ranks<T(!new)>(le: (T, T) -> bool) {
    && (forall x, y :: le(x, y) || le(y, x))
    && (forall x, y, z :: le(x, y) && le(y, z) ==> le(x, z))
  }

  ghost predicate SortedBy<T>(le: (T, T) -> bool, s: seq<T>) {
    forall i, k :: 0 <= i < k < |s| ==> le(s[i], s[k])
  }

  function InsertBy<T>(le: (T, T) -> bool, x: T, s: seq<T>): seq<T> {
    if s == [] then [x] else if le(x, s[0]) then [x] + s else [s[0]] + InsertBy(le, x, s[1..])
  }

  /** `sorted`: stable, so that equals keep their order. */
  function SortBy<T>(le: (T, T) -> bool, s: seq<T>): seq<T> {
    if s == [] then [] else InsertBy(le, s[0], SortBy(le, s[1..]))
  }

  lemma {:induction false} InsertCounts<T>(le: (T, T) -> bool, x: T, s: seq<T>)
    ensures multiset(InsertBy(le, x, s)) == multiset(s) + multiset{x} && |InsertBy(le, x, s)| == |s| + 1
  {
    if s != [] && !le(x, s[0]) {
      assert s == [s[0]] + s[1..];
      InsertCounts(le, x, s[1..]);
    }
  }

  lemma {:induction false} InsertSorts<T(!new)>(le: (T, T) -> bool, x: T, s: seq<T>)
    requires Ranks(le) && SortedBy(le, s)
    ensures SortedBy(le, InsertBy(le, x, s))
  {
    if s != [] && !le(x, s[0]) {
      var t := InsertBy(le, x, s[1..]);
      InsertSorts(le, x, s[1..]);
      InsertCounts(le, x, s[1..]);
      forall y | y in t ensures le(s[0], y) {
        assert y in multiset(t);
        assert y in multiset(s[1..]) || y == x;
      }
    }
  }

  lemma {:induction false} SortByCounts<T>(le: (T, T) -> bool, s: seq<T>)
    ensures multiset(SortBy(le, s)) == multiset(s) && |SortBy(le, s)| == |s|
  {
    if s != [] {
      SortByCounts(le, s[1..]);
      InsertCounts(le, s[0], SortBy(le, s[1..]));
      assert s == [s[0]] + s[1..];
    }
  }

  lemma {:induction false} SortBySorts<T(!new)>(le: (T, T) -> bool, s: seq<T>)
    requires Ranks(le)
    ensures SortedBy(le, SortBy(le, s)) && multiset(SortBy(le, s)) == multiset(s) && |SortBy(le, s)| == |s|
  {
    SortByCounts(le, s);
    if s != [] {
      SortBySorts(le, s[1..]);
      InsertSorts(le, s[0], SortBy(le, s[1..]));
    }
  }

  /** Only equal members compare both ways. */
  ghost predicate TellsApart<T(!new)>(le: (T, T) -> bool, s: seq<T>) {
    forall x, y :: x in s && y in s && le(x, y) && le(y, x) ==> x == y
  }

  /** If the order tells the members apart, they have only one sorted arrangement. */
  lemma {:induction false} SortedByUnique<T(!new)>(le: (T, T) -> bool, a: seq<T>, b: seq<T>)
    requires Ranks(le) && SortedBy(le, a) && SortedBy(le, b) && multiset(a) == multiset(b) && TellsApart(le, a)
    ensures a == b
  {
    assert |a| == |multiset(a)| && |b| == |multiset(b)|;
    if a != [] {
      SameHeads(le, a, b);
      assert a == [a[0]] + a[1..] && b == [b[0]] + b[1..];
      Tail(le, a);
      Tail(le, b);
      SortedByUnique(le, a[1..], b[1..]);
    }
  }

  lemma Tail<T(!new)>(le: (T, T) -> bool, s: seq<T>)
    requires s != [] && SortedBy(le, s)
    ensures SortedBy(le, s[1..]) && multiset(s[1..]) == multiset(s) - multiset{s[0]}
    ensures TellsApart(le, s) ==> TellsApart(le, s[1..])
  {
    assert s == [s[0]] + s[1..];
  }

  lemma SameHeads<T(!new)>(le: (T, T) -> bool, a: seq<T>, b: seq<T>)
    requires Ranks(le) && SortedBy(le, a) && SortedBy(le, b) && multiset(a) == multiset(b) && TellsApart(le, a)
    requires a != [] && b != []
    ensures a[0] == b[0]
  {
    assert a[0] in multiset(b) && b[0] in multiset(a);
    var i :| 0 <= i < |a| && a[i] == b[0];
    var k :| 0 <= k < |b| && b[k] == a[0];
    assert le(a[0], a[0]) && le(b[0], b[0]);
    assert le(a[0], b[0]) && le(b[0], a[0]);
  }

  /** The order in which the members arrive does not matter. */
  lemma SortByForgetsOrder<T(!new)>(le: (T, T) -> bool, a: seq<T>, b: seq<T>)
    requires Ranks(le) && multiset(a) == multiset(b) && TellsApart(le, a)
    ensures SortBy(le, a) == SortBy(le, b)
  {
    SortBySorts(le, a);
    SortBySorts(le, b);
    var s := SortBy(le, a);
    forall x, y | x in s && y in s && le(x, y) && le(y, x) ensures x == y {
      assert x in multiset(s) && y in multiset(s);
      assert x in multiset(a) && y in multiset(a);
    }
    SortedByUnique(le, s, SortBy(le, b));
  }

  // ---- the order of tuples and strings ----------------------------------------------------

  /** Tuples and lists compare by their first difference. */
  predicate LexLe(a: seq<int>, b: seq<int>) {
    a == [] || (b != [] && (a[0] < b[0] || (a[0] == b[0] && LexLe(a[1..], b[1..]))))
  }

  lemma {:induction false} LexTotal(a: seq<int>, b: seq<int>)
    ensures LexLe(a, b) || LexLe(b, a)
    ensures LexLe(a, b) && LexLe(b, a) ==> a == b
  {
    if a != [] && b != [] && a[0] == b[0] {
      LexTotal(a[1..], b[1..]);
      assert a == [a[0]] + a[1..] && b == [b[0]] + b[1..];
    }
  }

  lemma {:induction false} LexTransitive(a: seq<int>, b: seq<int>, c: seq<int>)
    requires LexLe(a, b) && LexLe(b, c)
    ensures LexLe(a, c)
  {
    if a != [] && a[0] == b[0] && b[0] == c[0] { LexTransitive(a[1..], b[1..], c[1..]); }
  }

  function Codes(s: string): seq<int> {
    seq(|s|, i requires 0 <= i < |s| => s[i] as int)
  }

  /** Strings compare by code point. */
  predicate StringLe(a: string, b: string) {
    LexLe(Codes(a), Codes(b))
  }

  lemma CodesInjective(a: string, b: string)
    requires Codes(a) == Codes(b)
    ensures a == b
  {
    assert |a| == |Codes(a)| && |b| == |Codes(b)|;
    forall i | 0 <= i < |a| ensures a[i] == b[i] {
      assert Codes(a)[i] == a[i] as int && Codes(b)[i] == b[i] as int;
    }
  }

  lemma StringsRank(s: seq<string>)
    ensures Ranks(StringLe) && TellsApart(StringLe, s)
  {
    forall x: string, y: string ensures StringLe(x, y) || StringLe(y, x) { LexTotal(Codes(x), Codes(y)); }
    forall x: string, y: string, z: string | StringLe(x, y) && StringLe(y, z) ensures StringLe(x, z) {
      LexTransitive(Codes(x), Codes(y), Codes(z));
    }
    forall x, y | x in s && y in s && StringLe(x, y) && StringLe(y, x) ensures x == y {
      LexTotal(Codes(x), Codes(y));
      CodesInjective(x, y);
    }
  }

  // ---- lists without repetitions ----------------------------------------------------------

  ghost predicate AllDifferent<T>(s: seq<T>) {
    forall i, k :: 0 <= i < k < |s| ==> s[i] != s[k]
  }

  lemma {:induction false} DifferentCount<T>(s: seq<T>, x: T)
    requires AllDifferent(s)
    ensures multiset(s)[x] == if x in s then 1 else 0
  {
    if s != [] {
      assert s == [s[0]] + s[1..];
      DifferentCount(s[1..], x);
    }
  }

  /** Lists without repetitions and with the same members are arrangements of each other. */
  lemma SameMembers<T(!new)>(a: seq<T>, b: seq<T>)
    requires AllDifferent(a) && AllDifferent(b) && forall x :: x in a <==> x in b
    ensures multiset(a) == multiset(b)
  {
    forall x ensures multiset(a)[x] == multiset(b)[x] {
      DifferentCount(a, x);
      DifferentCount(b, x);
    }
  }

  lemma TwiceCounts<T>(s: seq<T>, i: nat, k: nat)
    requires i < k < |s| && s[i] == s[k]
    ensures multiset(s)[s[i]] >= 2
  {
    assert s == s[..k] + [s[k]] + s[k + 1..];
    assert s[..k][i] in multiset(s[..k]);
  }

  lemma MultisetDifferent<T(!new)>(a: seq<T>, b: seq<T>)
    requires AllDifferent(a) && multiset(a) == multiset(b)
    ensures AllDifferent(b) && forall x :: x in a <==> x in b
  {
    forall x ensures x in a <==> x in b {
      assert x in a <==> x in multiset(a);
      assert x in b <==> x in multiset(b);
    }
    forall i, k | 0 <= i < k < |b| ensures b[i] != b[k] {
      if b[i] == b[k] {
        TwiceCounts(b, i, k);
        DifferentCount(a, b[i]);
      }
    }
  }

  /** Every member has the property at its position. */
  ghost predicate Throughout<T>(p: (T, nat) -> bool, s: seq<T>) {
    forall i :: 0 <= i < |s| ==> p(s[i], i)
  }

  lemma ThroughoutMore<T>(p: (T, nat) -> bool, s: seq<T>, x: T)
    requires Throughout(p, s) && p(x, |s|)
    ensures Throughout(p, s + [x])
  {
  }
}
