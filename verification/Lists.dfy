/** Filtering, flattening and first occurrences of lists, as far as the audit needs them. */
module Lists {

  function Filter<T(!new)>(s: seq<T>, p: T -> bool): (r: seq<T>)
    ensures forall x :: x in r <==> x in s && p(x)
  {
    if s == [] then [] else
      assert s == s[..|s| - 1] + [s[|s| - 1]];
      Filter(s[..|s| - 1], p) + if p(s[|s| - 1]) then [s[|s| - 1]] else []
  }

  /** Some element satisfies the predicate. */
  method SomeOf<T(!new)>(s: seq<T>, p: T -> bool) returns (some: bool)
    ensures some <==> exists x :: x in s && p(x)
  {
    for n := 0 to |s|
      invariant forall x :: x in s[..n] ==> !p(x)
    {
      assert s[..n + 1] == s[..n] + [s[n]];
      if p(s[n]) { return true; }
    }
    assert s[..|s|] == s;
    some := false;
  }

  /** Every element does. */
  method EveryOf<T(!new)>(s: seq<T>, p: T -> bool) returns (every: bool)
    ensures every <==> forall x :: x in s ==> p(x)
  {
    for n := 0 to |s|
      invariant forall x :: x in s[..n] ==> p(x)
    {
      assert s[..n + 1] == s[..n] + [s[n]];
      if !p(s[n]) { return false; }
    }
    assert s[..|s|] == s;
    every := true;
  }

  lemma FilterSnoc<T(!new)>(s: seq<T>, x: T, p: T -> bool)
    ensures Filter(s + [x], p) == if p(x) then Filter(s, p) + [x] else Filter(s, p)
  {
    assert (s + [x])[..|s|] == s;
  }

  lemma {:induction false} FilterConcat<T(!new)>(s: seq<T>, t: seq<T>, p: T -> bool)
    ensures Filter(s + t, p) == Filter(s, p) + Filter(t, p)
  {
    if t == [] {
      assert s + t == s;
    } else {
      var init, last := t[..|t| - 1], t[|t| - 1];
      assert t == init + [last] && s + t == (s + init) + [last];
      FilterConcat(s, init, p);
      FilterSnoc(s + init, last, p);
      FilterSnoc(init, last, p);
    }
  }

  lemma {:induction false} FilterCounts<T(!new)>(s: seq<T>, p: T -> bool, x: T)
    ensures multiset(Filter(s, p))[x] == if p(x) then multiset(s)[x] else 0
  {
    if s != [] {
      FilterCounts(s[..|s| - 1], p, x);
      assert s == s[..|s| - 1] + [s[|s| - 1]];
    }
  }

  function FlatMap<A, B>(s: seq<A>, f: A -> seq<B>): seq<B> {
    if s == [] then [] else FlatMap(s[..|s| - 1], f) + f(s[|s| - 1])
  }

  lemma FlatMapSnoc<A, B>(init: seq<A>, x: A, f: A -> seq<B>)
    ensures FlatMap(init + [x], f) == FlatMap(init, f) + f(x)
  {
    assert (init + [x])[..|init|] == init;
  }

  lemma {:induction false} InFlatMap<A, B>(s: seq<A>, f: A -> seq<B>, y: B)
    ensures y in FlatMap(s, f) <==> exists x :: x in s && y in f(x)
  {
    if s != [] {
      var n := |s| - 1;
      assert s == s[..n] + [s[n]];
      InFlatMap(s[..n], f, y);
    }
  }

  lemma {:induction false} FlatMapEqual<A, B>(s: seq<A>, t: seq<A>, f: A -> seq<B>, g: A -> seq<B>)
    requires |s| == |t| && forall i :: 0 <= i < |s| ==> f(s[i]) == g(t[i])
    ensures FlatMap(s, f) == FlatMap(t, g)
  {
    if s != [] { FlatMapEqual(s[..|s| - 1], t[..|t| - 1], f, g); }
  }

  lemma {:induction false} FilterAll<T(!new)>(s: seq<T>, p: T -> bool)
    requires forall x :: x in s ==> p(x)
    ensures Filter(s, p) == s
  {
    if s != [] {
      FilterAll(s[..|s| - 1], p);
      assert s == s[..|s| - 1] + [s[|s| - 1]];
    }
  }

  /** What is filtered keeps its order, so it repeats nothing that was not repeated. */
  lemma {:induction false} FilterNoDuplicates<T(!new)>(s: seq<T>, p: T -> bool)
    requires NoDuplicates(s)
    ensures NoDuplicates(Filter(s, p))
  {
    if s != [] {
      var init, x := s[..|s| - 1], s[|s| - 1];
      assert s == init + [x];
      FilterNoDuplicates(init, p);
      assert x !in init;
      assert x !in Filter(init, p);
    }
  }

  predicate NoDuplicates<T(==)>(s: seq<T>) { forall i, j :: 0 <= i < j < |s| ==> s[i] != s[j] }

  /** Each element once, where it first occurs. */
  function FirstSeen<T(==,!new)>(s: seq<T>): (r: seq<T>)
    ensures forall x :: x in r <==> x in s
    ensures NoDuplicates(r)
  {
    if s == [] then [] else
      var n := |s| - 1;
      assert s == s[..n] + [s[n]];
      var before := FirstSeen(s[..n]);
      if s[n] in before then before else before + [s[n]]
  }

  lemma FirstSeenSnoc<T(!new)>(s: seq<T>, x: T)
    ensures FirstSeen(s + [x]) == if x in s then FirstSeen(s) else FirstSeen(s) + [x]
  {
    assert (s + [x])[..|s|] == s;
  }

  lemma {:induction false} FirstSeenIsAll<T(!new)>(s: seq<T>)
    requires NoDuplicates(s)
    ensures FirstSeen(s) == s
  {
    if s != [] {
      var init, x := s[..|s| - 1], s[|s| - 1];
      assert s == init + [x];
      FirstSeenIsAll(init);
      assert x !in init;
    }
  }

  lemma {:induction false} OnceEach<T>(s: seq<T>, x: T)
    requires NoDuplicates(s)
    ensures multiset(s)[x] == if x in s then 1 else 0
  {
    if s != [] {
      var n := |s| - 1;
      assert s == s[..n] + [s[n]];
      OnceEach(s[..n], x);
      forall i | 0 <= i < n ensures s[..n][i] != s[n] {}
    }
  }

  /** An element in two places counts twice. */
  lemma Twice<T>(s: seq<T>, i: nat, j: nat)
    requires i < j < |s| && s[i] == s[j]
    ensures multiset(s)[s[i]] >= 2
  {
    assert s == s[..j] + s[j..];
    assert multiset(s) == multiset(s[..j]) + multiset(s[j..]);
    assert s[..j][i] in multiset(s[..j]) && s[j..][0] in multiset(s[j..]);
  }
}
