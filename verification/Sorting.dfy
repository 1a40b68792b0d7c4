/** Stable sorting by a comparison, and when the sorted sequence is determined by its elements alone. */
module Sorting {

  function Insert<T>(x: T, s: seq<T>, le: (T, T) -> bool): seq<T> {
    if s == [] || le(x, s[0]) then [x] + s else [s[0]] + Insert(x, s[1..], le)
  }

  /** Stable: an element goes before the equal ones that followed it. */
  function Sort<T>(s: seq<T>, le: (T, T) -> bool): seq<T> {
    if s == [] then [] else Insert(s[0], Sort(s[1..], le), le)
  }

  ghost predicate Ordering<T(!new)>(le: (T, T) -> bool) {
    && (forall x, y :: le(x, y) || le(y, x))
    && (forall x, y, z :: le(x, y) && le(y, z) ==> le(x, z))
  }

  ghost predicate Sorted<T>(s: seq<T>, le: (T, T) -> bool) { forall i, j :: 0 <= i < j < |s| ==> le(s[i], s[j]) }

  /** Equal elements are the same element. */
  ghost predicate Strict<T>(s: seq<T>, le: (T, T) -> bool) {
    forall x, y :: x in s && y in s && le(x, y) && le(y, x) ==> x == y
  }

  lemma {:induction false} InsertKeeps<T>(x: T, s: seq<T>, le: (T, T) -> bool)
    ensures multiset(Insert(x, s, le)) == multiset{x} + multiset(s)
  {
    if s != [] && !le(x, s[0]) {
      InsertKeeps(x, s[1..], le);
      assert s == [s[0]] + s[1..];
    }
  }

  lemma {:induction false} SortKeeps<T>(s: seq<T>, le: (T, T) -> bool)
    ensures multiset(Sort(s, le)) == multiset(s)
    ensures |Sort(s, le)| == |s|
    ensures forall x :: x in Sort(s, le) <==> x in s
  {
    if s != [] {
      SortKeeps(s[1..], le);
      InsertKeeps(s[0], Sort(s[1..], le), le);
      assert s == [s[0]] + s[1..];
    }
    assert |multiset(Sort(s, le))| == |Sort(s, le)|;
    forall x ensures x in Sort(s, le) <==> x in s {
      assert x in multiset(Sort(s, le)) <==> x in Sort(s, le);
    }
  }

  lemma {:induction false} InsertSorts<T(!new)>(x: T, s: seq<T>, le: (T, T) -> bool)
    requires Ordering(le) && Sorted(s, le)
    ensures Sorted(Insert(x, s, le), le)
  {
    if s != [] && !le(x, s[0]) {
      InsertSorts(x, s[1..], le);
      InsertKeeps(x, s[1..], le);
      var r := Insert(x, s[1..], le);
      forall j | 0 <= j < |r| ensures le(s[0], r[j]) {
        assert r[j] in multiset(r);
        if r[j] != x {
          assert r[j] in s[1..];
        }
      }
    } else if s != [] {
      forall j | 0 <= j < |s| ensures le(x, s[j]) { assert j == 0 || le(s[0], s[j]); }
    }
  }

  lemma {:induction false} SortSorts<T(!new)>(s: seq<T>, le: (T, T) -> bool)
    requires Ordering(le)
    ensures Sorted(Sort(s, le), le)
  {
    if s != [] {
      SortSorts(s[1..], le);
      InsertSorts(s[0], Sort(s[1..], le), le);
    }
  }

  lemma {:induction false} SortedIsFixed<T>(s: seq<T>, le: (T, T) -> bool)
    requires Sorted(s, le)
    ensures Sort(s, le) == s
  {
    if s != [] {
      SortedIsFixed(s[1..], le);
      assert s == [s[0]] + s[1..];
      assert |s| > 1 ==> le(s[0], s[1]);
    }
  }

  /** The head of a sorted sequence is below everything in it. */
  lemma HeadIsLeast<T>(s: seq<T>, x: T, le: (T, T) -> bool)
    requires Sorted(s, le) && x in s
    ensures x == s[0] || le(s[0], x)
  {
    var i :| 0 <= i < |s| && s[i] == x;
    if i > 0 { assert le(s[0], s[i]); }
  }

  lemma SameHead<T>(s: seq<T>, t: seq<T>, le: (T, T) -> bool)
    requires Sorted(s, le) && Sorted(t, le) && multiset(s) == multiset(t) && Strict(s, le) && s != []
    ensures t != [] && s[0] == t[0]
    ensures multiset(s[1..]) == multiset(t[1..])
  {
    assert s[0] in multiset(t);
    assert t[0] in multiset(s);
    HeadIsLeast(s, t[0], le);
    HeadIsLeast(t, s[0], le);
    assert s == [s[0]] + s[1..] && t == [t[0]] + t[1..];
    assert multiset(s[1..]) == multiset(s) - multiset{s[0]};
  }

  /** Two sorted arrangements of the same elements are equal when the comparison tells all of them apart. */
  lemma {:induction false} SortedIsUnique<T>(s: seq<T>, t: seq<T>, le: (T, T) -> bool)
    requires Sorted(s, le) && Sorted(t, le) && multiset(s) == multiset(t) && Strict(s, le)
    ensures s == t
  {
    assert |multiset(s)| == |s| && |multiset(t)| == |t|;
    if s != [] {
      SameHead(s, t, le);
      SortedIsUnique(s[1..], t[1..], le);
      assert s == [s[0]] + s[1..] && t == [t[0]] + t[1..];
    }
  }

  /** Sorting forgets the order of the input when the comparison tells all elements apart. */
  lemma SortForgetsOrder<T(!new)>(s: seq<T>, t: seq<T>, le: (T, T) -> bool)
    requires Ordering(le) && Strict(s, le) && multiset(s) == multiset(t)
    ensures Sort(s, le) == Sort(t, le)
  {
    SortKeeps(s, le);
    SortKeeps(t, le);
    SortSorts(s, le);
    SortSorts(t, le);
    SortedIsUnique(Sort(s, le), Sort(t, le), le);
  }

  /** In a sorted sequence that tells its elements apart, the smaller of two stands first. */
  lemma SmallerStandsFirst<T>(s: seq<T>, le: (T, T) -> bool, j: nat, k: nat)
    requires Sorted(s, le) && Strict(s, le) && j < |s| && k < |s| && s[j] != s[k] && le(s[j], s[k])
    ensures j < k
  {
  }

  function Map<A, B>(s: seq<A>, f: A -> B): seq<B> { seq(|s|, i requires 0 <= i < |s| => f(s[i])) }

  lemma MapCons<A, B>(x: A, s: seq<A>, f: A -> B)
    ensures Map([x] + s, f) == [f(x)] + Map(s, f)
  {}

  lemma MapSnoc<A, B>(s: seq<A>, x: A, f: A -> B)
    ensures Map(s + [x], f) == Map(s, f) + [f(x)]
  {}

  lemma MapEqual<A, B>(s: seq<A>, f: A -> B, g: A -> B)
    requires forall x :: x in s ==> f(x) == g(x)
    ensures Map(s, f) == Map(s, g)
  {}

  ghost predicate Same<A, B>(x: A, y: A, f: A -> B, le: (A, A) -> bool, le': (B, B) -> bool) { le(x, y) <==> le'(f(x), f(y)) }

  lemma {:induction false} InsertCommutes<A, B>(x: A, s: seq<A>, f: A -> B, le: (A, A) -> bool, le': (B, B) -> bool)
    requires forall y :: y in s ==> Same(x, y, f, le, le')
    ensures Map(Insert(x, s, le), f) == Insert(f(x), Map(s, f), le')
  {
    if s != [] {
      assert Map(s, f)[1..] == Map(s[1..], f);
      assert Same(x, s[0], f, le, le');
      if le(x, s[0]) {
        assert Map([x] + s, f) == [f(x)] + Map(s, f);
      } else {
        InsertCommutes(x, s[1..], f, le, le');
        assert Map([s[0]] + Insert(x, s[1..], le), f) == [f(s[0])] + Map(Insert(x, s[1..], le), f);
      }
    }
  }

  /** A mapping that keeps the comparison commutes with sorting. */
  lemma {:induction false} SortCommutes<A, B>(s: seq<A>, f: A -> B, le: (A, A) -> bool, le': (B, B) -> bool)
    requires forall x, y :: x in s && y in s ==> Same(x, y, f, le, le')
    ensures Map(Sort(s, le), f) == Sort(Map(s, f), le')
  {
    if s != [] {
      var rest := s[1..];
      assert Map(s, f)[1..] == Map(rest, f);
      SortCommutes(rest, f, le, le');
      SortKeeps(rest, le);
      forall y | y in Sort(rest, le) ensures Same(s[0], y, f, le, le') {
        assert y in multiset(Sort(rest, le));
        assert y in s;
      }
      InsertCommutes(s[0], Sort(rest, le), f, le, le');
    }
  }
}
