/** Insertion sort under an order that is strict and total on the elements sorted, and why any
    other sort returns the same. */
module Sorting {
  import opened Sequences

  ghost predicate StrictTotal<T(!new)>(less: (T, T) -> bool, on: set<T>) {
    && (forall a, b | a in on && b in on :: !less(a, b) && !less(b, a) ==> a == b)
    && (forall a, b | a in on && b in on :: less(a, b) ==> !less(b, a))
    && (forall a, b, c | a in on && b in on && c in on :: less(a, b) && less(b, c) ==> less(a, c))
  }

  ghost predicate Within<T(!new)>(s: seq<T>, on: set<T>) { forall x | x in s :: x in on }

  ghost predicate NoneBelow<T(!new)>(less: (T, T) -> bool, s: seq<T>, x: T) {
    forall y | y in s :: !less(y, x)
  }

  ghost predicate Sorted<T(!new)>(less: (T, T) -> bool, s: seq<T>) {
    s != [] ==> NoneBelow(less, s[1..], s[0]) && Sorted(less, s[1..])
  }

  function Insert<T(!new)>(less: (T, T) -> bool, x: T, s: seq<T>): seq<T> {
    if s == [] || !less(s[0], x) then [x] + s else [s[0]] + Insert(less, x, s[1..])
  }

  function Sort<T(!new)>(less: (T, T) -> bool, s: seq<T>): seq<T> {
    if s == [] then [] else Insert(less, s[0], Sort(less, s[1..]))
  }

  lemma {:induction false} InsertElements<T(!new)>(less: (T, T) -> bool, x: T, s: seq<T>)
    ensures multiset(Insert(less, x, s)) == multiset{x} + multiset(s)
  {
    if s != [] && less(s[0], x) {
      InsertElements(less, x, s[1..]);
      assert s == [s[0]] + s[1..];
    }
  }

  lemma {:induction false} InsertSorts<T(!new)>(less: (T, T) -> bool, on: set<T>, x: T, s: seq<T>)
    requires StrictTotal(less, on) && x in on && Within(s, on) && Sorted(less, s)
    ensures Sorted(less, Insert(less, x, s))
  {
    if s == [] {
      assert [x][1..] == [];
    } else if less(s[0], x) {
      var rest := Insert(less, x, s[1..]);
      InsertSorts(less, on, x, s[1..]);
      InsertElements(less, x, s[1..]);
      forall y | y in rest ensures !less(y, s[0]) { assert y in multiset(rest) && (y == x || y in s[1..]); }
      assert ([s[0]] + rest)[1..] == rest;
    } else {
      forall y | y in s ensures !less(y, x) {
        assert y == s[0] || y in s[1..];
        assert x == s[0] || less(x, s[0]);
      }
      assert ([x] + s)[1..] == s;
    }
  }

  lemma {:induction false} SortElements<T(!new)>(less: (T, T) -> bool, s: seq<T>)
    ensures multiset(Sort(less, s)) == multiset(s)
  {
    if s != [] {
      SortElements(less, s[1..]);
      InsertElements(less, s[0], Sort(less, s[1..]));
      assert s == [s[0]] + s[1..];
    }
  }

  lemma SameMembers<T(!new)>(a: seq<T>, b: seq<T>)
    requires multiset(a) == multiset(b)
    ensures forall x :: x in a <==> x in b
  {
    forall x ensures x in a <==> x in b { assert x in multiset(a) <==> x in multiset(b); }
  }

  lemma {:induction false} SortSorts<T(!new)>(less: (T, T) -> bool, on: set<T>, s: seq<T>)
    requires StrictTotal(less, on) && Within(s, on)
    ensures Sorted(less, Sort(less, s))
  {
    if s != [] {
      var rest := Sort(less, s[1..]);
      SortSorts(less, on, s[1..]);
      SortElements(less, s[1..]);
      SameMembers(rest, s[1..]);
      InsertSorts(less, on, s[0], rest);
    }
  }

  /** A sorted reordering is unique, so every sort returns it. */
  lemma {:induction false} SortedIsUnique<T(!new)>(less: (T, T) -> bool, on: set<T>, a: seq<T>, b: seq<T>)
    requires StrictTotal(less, on) && Within(a, on) && Sorted(less, a) && Sorted(less, b) && multiset(a) == multiset(b)
    ensures a == b
  {
    assert |a| == |multiset(a)| == |multiset(b)| == |b|;
    if a != [] {
      FirstIsShared(less, on, a, b);
      Tails(a, b);
      SortedIsUnique(less, on, a[1..], b[1..]);
      assert a == [a[0]] + a[1..] && b == [b[0]] + b[1..];
    }
  }

  lemma FirstIsShared<T(!new)>(less: (T, T) -> bool, on: set<T>, a: seq<T>, b: seq<T>)
    requires StrictTotal(less, on) && Within(a, on) && Sorted(less, a) && Sorted(less, b) &&
        multiset(a) == multiset(b) && a != [] && b != []
    ensures a[0] == b[0]
  {
    assert a[0] in multiset(b) && b[0] in multiset(a);
    HeadOrTail(a, b[0]);
    HeadOrTail(b, a[0]);
  }

  lemma HeadOrTail<T>(s: seq<T>, x: T)
    requires s != [] && x in multiset(s)
    ensures x == s[0] || x in s[1..]
  {
  }

  lemma Tails<T>(a: seq<T>, b: seq<T>)
    requires a != [] && b != [] && a[0] == b[0] && multiset(a) == multiset(b)
    ensures multiset(a[1..]) == multiset(b[1..])
  {
    WithoutHead(a);
    WithoutHead(b);
  }

  /** Sorting forgets the order of its input. */
  lemma SortPermutes<T(!new)>(less: (T, T) -> bool, on: set<T>, a: seq<T>, b: seq<T>)
    requires StrictTotal(less, on) && Within(a, on) && multiset(a) == multiset(b)
    ensures Sort(less, a) == Sort(less, b)
  {
    SameMembers(a, b);
    SortElements(less, a);
    SortElements(less, b);
    SameMembers(Sort(less, a), a);
    SortSorts(less, on, a);
    SortSorts(less, on, b);
    SortedIsUnique(less, on, Sort(less, a), Sort(less, b));
  }
}
