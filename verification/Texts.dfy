/** Strings as sequences of UTF-16 code units, in code-unit order. */
module Texts {
  import opened Sorting

  type CodeUnit = c: int | 0 <= c < 0x1_0000
  type Text = seq<CodeUnit>

  predicate TextLe(s: seq<int>, t: seq<int>) {
    s == [] || (t != [] && (s[0] < t[0] || (s[0] == t[0] && TextLe(s[1..], t[1..]))))
  }

  /** The first unit in which two texts differ decides; a text comes before its continuations. */
  ghost predicate Precedes(s: seq<int>, t: seq<int>, n: nat) {
    n <= |s| && n <= |t| && s[..n] == t[..n] && (n == |s| || (n < |t| && s[n] < t[n]))
  }

  lemma {:induction false} TextLeIsLexical(s: seq<int>, t: seq<int>)
    ensures TextLe(s, t) <==> exists n: nat :: Precedes(s, t, n)
  {
    if s == [] {
      assert Precedes(s, t, 0);
    } else if t != [] {
      TextLeIsLexical(s[1..], t[1..]);
      if s[0] < t[0] { assert Precedes(s, t, 0); }
      if s[0] == t[0] {
        forall n: nat ensures Precedes(s, t, n + 1) <==> Precedes(s[1..], t[1..], n) { SameTail(s, t, n); }
        if n: nat :| Precedes(s[1..], t[1..], n) { assert Precedes(s, t, n + 1); }
        if n: nat :| Precedes(s, t, n) { assert n > 0 && Precedes(s[1..], t[1..], n - 1); }
      }
    }
  }

  lemma SameTail(s: seq<int>, t: seq<int>, n: nat)
    requires s != [] && t != [] && s[0] == t[0]
    ensures Precedes(s, t, n + 1) <==> Precedes(s[1..], t[1..], n)
  {
    if n < |s| && n < |t| {
      assert s[..n + 1] == [s[0]] + s[1..][..n] && t[..n + 1] == [t[0]] + t[1..][..n];
      assert s[1..][..n] == s[..n + 1][1..] && t[1..][..n] == t[..n + 1][1..];
    }
  }

  lemma {:induction false} TextLeTotal(s: seq<int>, t: seq<int>)
    ensures TextLe(s, t) || TextLe(t, s)
    ensures TextLe(s, t) && TextLe(t, s) ==> s == t
  {
    if s != [] && t != [] {
      TextLeTotal(s[1..], t[1..]);
      assert s == [s[0]] + s[1..] && t == [t[0]] + t[1..];
    }
  }

  lemma {:induction false} TextLeTransitive(s: seq<int>, t: seq<int>, u: seq<int>)
    requires TextLe(s, t) && TextLe(t, u)
    ensures TextLe(s, u)
  {
    if s != [] && s[0] == t[0] && t[0] == u[0] { TextLeTransitive(s[1..], t[1..], u[1..]); }
  }

  /** The codes of a string that needs no surrogates, such as an identity or a timestamp. */
  function Codes(s: string): seq<int> { seq(|s|, i requires 0 <= i < |s| => s[i] as int) }

  predicate StringLe(s: string, t: string) { TextLe(Codes(s), Codes(t)) }

  lemma StringLeTotal(s: string, t: string)
    ensures StringLe(s, t) || StringLe(t, s)
    ensures StringLe(s, t) && StringLe(t, s) ==> s == t
  {
    TextLeTotal(Codes(s), Codes(t));
    if Codes(s) == Codes(t) {
      assert |s| == |Codes(s)| == |Codes(t)| == |t|;
      forall i | 0 <= i < |s| ensures s[i] == t[i] { assert Codes(s)[i] == Codes(t)[i]; }
    }
  }
}
