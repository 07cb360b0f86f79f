/** Filtering and mapping in one pass, and what such a pass keeps. */
module Sequences {
  function FilterMap<S, T>(keep: S -> bool, f: S -> T, s: seq<S>): seq<T> {
    if s == [] then []
    else if keep(s[0]) then [f(s[0])] + FilterMap(keep, f, s[1..])
    else FilterMap(keep, f, s[1..])
  }

  lemma {:induction false} FilterMapSplits<S, T>(keep: S -> bool, f: S -> T, a: seq<S>, b: seq<S>)
    ensures FilterMap(keep, f, a + b) == FilterMap(keep, f, a) + FilterMap(keep, f, b)
  {
    if a == [] {
      assert a + b == b;
    } else {
      FilterMapSplits(keep, f, a[1..], b);
      assert (a + b)[1..] == a[1..] + b && (a + b)[0] == a[0];
    }
  }

  lemma FilterMapLast<S, T>(keep: S -> bool, f: S -> T, a: seq<S>, x: S)
    ensures FilterMap(keep, f, a + [x]) == FilterMap(keep, f, a) + if keep(x) then [f(x)] else []
  {
    FilterMapSplits(keep, f, a, [x]);
    assert FilterMap(keep, f, [x]) == (if keep(x) then [f(x)] else []) + FilterMap(keep, f, []);
  }

  /** A pass that keeps every element as it is changes nothing. */
  lemma {:induction false} FilterMapFixed<S>(keep: S -> bool, f: S -> S, s: seq<S>)
    requires forall i | 0 <= i < |s| :: keep(s[i]) && f(s[i]) == s[i]
    ensures FilterMap(keep, f, s) == s
  {
    if s != [] {
      FilterMapFixed(keep, f, s[1..]);
      assert s == [s[0]] + s[1..];
    }
  }

  lemma {:induction false} FilterMapAll<S, T>(keep: S -> bool, f: S -> T, s: seq<S>)
    requires forall i | 0 <= i < |s| :: keep(s[i])
    ensures |FilterMap(keep, f, s)| == |s|
    ensures forall i | 0 <= i < |s| :: FilterMap(keep, f, s)[i] == f(s[i])
  {
    if s != [] { FilterMapAll(keep, f, s[1..]); }
  }

  /** Each element of the result comes from a kept one. */
  lemma {:induction false} FilterMapFrom<S, T>(keep: S -> bool, f: S -> T, s: seq<S>, j: nat) returns (i: nat)
    requires j < |FilterMap(keep, f, s)|
    ensures i < |s| && keep(s[i]) && FilterMap(keep, f, s)[j] == f(s[i])
  {
    if !keep(s[0]) {
      i := FilterMapFrom(keep, f, s[1..], j);
      i := i + 1;
    } else if j == 0 {
      i := 0;
    } else {
      i := FilterMapFrom(keep, f, s[1..], j - 1);
      i := i + 1;
    }
  }

  /** Each kept element reaches the result. */
  lemma {:induction false} FilterMapInto<S, T>(keep: S -> bool, f: S -> T, s: seq<S>, i: nat) returns (j: nat)
    requires i < |s| && keep(s[i])
    ensures j < |FilterMap(keep, f, s)| && FilterMap(keep, f, s)[j] == f(s[i])
  {
    if i == 0 {
      j := 0;
    } else {
      j := FilterMapInto(keep, f, s[1..], i - 1);
      if keep(s[0]) { j := j + 1; }
    }
  }

  /** The elements of the result come from these places: all the kept ones, in their order. */
  ghost predicate Traces<S, T(!new)>(keep: S -> bool, f: S -> T, s: seq<S>, from: seq<nat>) {
    && |from| == |FilterMap(keep, f, s)|
    && (forall j | 0 <= j < |from| ::
         from[j] < |s| && keep(s[from[j]]) && FilterMap(keep, f, s)[j] == f(s[from[j]]))
    && Rising(from) && Covers(keep, s, from)
  }

  ghost predicate Rising(from: seq<nat>) { forall j, k | 0 <= j < k < |from| :: from[j] < from[k] }

  ghost predicate Covers<S>(keep: S -> bool, s: seq<S>, from: seq<nat>) {
    forall i | 0 <= i < |s| && keep(s[i]) :: i in from
  }

  lemma CoversMore<S>(keep: S -> bool, a: seq<S>, x: S, from: seq<nat>)
    requires Covers(keep, a, from)
    ensures Covers(keep, a + [x], if keep(x) then from + [|a|] else from)
  {
  }

  lemma TracesMore<S, T(!new)>(keep: S -> bool, f: S -> T, a: seq<S>, x: S, from: seq<nat>)
    requires Traces(keep, f, a, from)
    ensures Traces(keep, f, a + [x], if keep(x) then from + [|a|] else from)
  {
    FilterMapLast(keep, f, a, x);
    CoversMore(keep, a, x, from);
    RisingMore(from, |a|);
  }

  lemma RisingMore(from: seq<nat>, n: nat)
    requires Rising(from) && forall j | 0 <= j < |from| :: from[j] < n
    ensures Rising(from + [n])
  {
  }

  lemma {:induction false} FilterMapIndices<S, T(!new)>(keep: S -> bool, f: S -> T, s: seq<S>) returns (from: seq<nat>)
    ensures Traces(keep, f, s, from)
  {
    if s == [] {
      from := [];
    } else {
      var a, x := s[..|s| - 1], s[|s| - 1];
      assert a + [x] == s;
      from := FilterMapIndices(keep, f, a);
      TracesMore(keep, f, a, x, from);
      if keep(x) { from := from + [|a|]; }
    }
  }

  lemma Without<S>(s: seq<S>, i: nat)
    requires i < |s|
    ensures multiset(s[..i] + s[i + 1..]) == multiset(s) - multiset{s[i]}
  {
    assert s == s[..i] + [s[i]] + s[i + 1..];
  }

  lemma WithoutHead<S>(s: seq<S>)
    requires s != []
    ensures multiset(s[1..]) == multiset(s) - multiset{s[0]}
  {
    assert s == [s[0]] + s[1..];
  }

  lemma Middle<S>(a: seq<S>, m: seq<S>, b: seq<S>)
    ensures multiset(a + m + b) == multiset(a + b) + multiset(m)
  {
  }

  lemma FilterMapWithout<S, T>(keep: S -> bool, f: S -> T, s: seq<S>, i: nat)
    requires i < |s|
    ensures multiset(FilterMap(keep, f, s))
         == multiset(FilterMap(keep, f, s[..i] + s[i + 1..])) + multiset(if keep(s[i]) then [f(s[i])] else [])
  {
    var a, b := FilterMap(keep, f, s[..i]), FilterMap(keep, f, s[i + 1..]);
    var m := if keep(s[i]) then [f(s[i])] else [];
    Parts(s, i);
    FilterMapAround(keep, f, s[..i], s[i], s[i + 1..]);
    assert FilterMap(keep, f, s) == a + m + b && FilterMap(keep, f, s[..i] + s[i + 1..]) == a + b;
    Middle(a, m, b);
  }

  lemma Parts<S>(s: seq<S>, i: nat)
    requires i < |s|
    ensures s[..i] + [s[i]] + s[i + 1..] == s
  {
  }

  lemma FilterMapAround<S, T>(keep: S -> bool, f: S -> T, a: seq<S>, x: S, b: seq<S>)
    ensures FilterMap(keep, f, a + [x] + b)
        == FilterMap(keep, f, a) + (if keep(x) then [f(x)] else []) + FilterMap(keep, f, b)
    ensures FilterMap(keep, f, a + b) == FilterMap(keep, f, a) + FilterMap(keep, f, b)
  {
    FilterMapSplits(keep, f, a, b);
    FilterMapSplits(keep, f, a + [x], b);
    FilterMapLast(keep, f, a, x);
  }

  /** Results over reorderings of one sequence are reorderings of each other. */
  lemma {:induction false} FilterMapPermutes<S, T>(keep: S -> bool, f: S -> T, a: seq<S>, b: seq<S>)
    requires multiset(a) == multiset(b)
    ensures multiset(FilterMap(keep, f, a)) == multiset(FilterMap(keep, f, b))
  {
    if a == [] {
      assert |b| == |multiset(b)| == 0;
    } else {
      var i := IndexOf(b, a[0]);
      var rest := b[..i] + b[i + 1..];
      Without(b, i);
      WithoutHead(a);
      FilterMapPermutes(keep, f, a[1..], rest);
      FilterMapWithout(keep, f, b, i);
      FilterMapHead(keep, f, a);
    }
  }

  lemma FilterMapHead<S, T>(keep: S -> bool, f: S -> T, a: seq<S>)
    requires a != []
    ensures multiset(FilterMap(keep, f, a))
        == multiset(FilterMap(keep, f, a[1..])) + multiset(if keep(a[0]) then [f(a[0])] else [])
  {
  }

  lemma IndexOf<S>(s: seq<S>, x: S) returns (i: nat)
    requires x in multiset(s)
    ensures i < |s| && s[i] == x
  {
    i :| i < |s| && s[i] == x;
  }

  function Count<S>(p: S -> bool, s: seq<S>): nat {
    if s == [] then 0 else Count(p, s[..|s| - 1]) + if p(s[|s| - 1]) then 1 else 0
  }

  lemma CountLast<S>(p: S -> bool, s: seq<S>, i: nat)
    requires i < |s|
    ensures Count(p, s[..i + 1]) == Count(p, s[..i]) + if p(s[i]) then 1 else 0
  {
    assert s[..i + 1][..i] == s[..i];
  }

  /** The weights of the elements added up. */
  function Total<S>(w: S -> nat, s: seq<S>): nat {
    if s == [] then 0 else Total(w, s[..|s| - 1]) + w(s[|s| - 1])
  }

  lemma TotalAdd<S>(w: S -> nat, s: seq<S>, x: S)
    ensures Total(w, s + [x]) == Total(w, s) + w(x)
  {
    assert (s + [x])[..|s|] == s;
  }

  lemma {:induction false} TotalSet<S>(w: S -> nat, s: seq<S>, i: nat, x: S)
    requires i < |s|
    ensures Total(w, s[i := x]) == Total(w, s) + w(x) - w(s[i])
  {
    var n := |s| - 1;
    if i == n {
      assert s[i := x][..n] == s[..n];
    } else {
      TotalSet(w, s[..n], i, x);
      assert s[i := x][..n] == s[..n][i := x];
    }
  }

  lemma {:induction false} TotalAtLeast<S>(w: S -> nat, s: seq<S>, i: nat)
    requires i < |s|
    ensures Total(w, s) >= w(s[i])
  {
    if i < |s| - 1 { TotalAtLeast(w, s[..|s| - 1], i); }
  }

  lemma {:induction false} TotalSame<S>(w: S -> nat, a: seq<S>, b: seq<S>)
    requires |a| == |b| && forall i | 0 <= i < |a| :: w(a[i]) == w(b[i])
    ensures Total(w, a) == Total(w, b)
  {
    if a != [] { TotalSame(w, a[..|a| - 1], b[..|b| - 1]); }
  }

  lemma SameMap<K, V>(a: map<K, V>, b: map<K, V>)
    requires a.Keys == b.Keys && forall k | k in a :: a[k] == b[k]
    ensures a == b
  {
  }

  /** The count is the number of places. */
  lemma {:induction false} CountIs<S>(p: S -> bool, s: seq<S>, places: set<int>)
    requires forall i :: i in places <==> 0 <= i < |s| && p(s[i])
    ensures Count(p, s) == |places|
  {
    if s == [] {
      forall i | i in places ensures false {}
      assert places == {};
    } else {
      var n := |s| - 1;
      forall i ensures i in places - {n} <==> 0 <= i < |s[..n]| && p(s[..n][i]) {}
      CountIs(p, s[..n], places - {n});
      assert n in places ==> places == places - {n} + {n};
      assert n !in places ==> places == places - {n};
    }
  }
}
