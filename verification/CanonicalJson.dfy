/**
 Canonical JSON: sorted keys, no whitespace, undefined members dropped; and a decoder that shows
 what the text determines.
 */
module CanonicalJson {
  import opened Options
  import opened Texts
  import opened JsonStrings
  import Sorting

  const COMMA: CodeUnit := 0x2C
  const COLON: CodeUnit := 0x3A
  const OPEN_ARR: CodeUnit := 0x5B
  const CLOSE_ARR: CodeUnit := 0x5D
  const OPEN_OBJ: CodeUnit := 0x7B
  const CLOSE_OBJ: CodeUnit := 0x7D
  const NULL: Text := [0x6E, 0x75, 0x6C, 0x6C]
  const TRUE: Text := [0x74, 0x72, 0x75, 0x65]
  const FALSE: Text := [0x66, 0x61, 0x6C, 0x73, 0x65]

  /** Digits, sign, point and exponent letters. */
  predicate NumberChar(c: CodeUnit) { 0x30 <= c <= 0x39 || c in {0x2B, 0x2D, 0x2E, 0x45, 0x65} }

  predicate IsToken(t: Text) { t != [] && forall c :: c in t ==> NumberChar(c) }

  /** The text of a finite number. */
  type Token = t: Text | IsToken(t) witness [0x30]

  /** A value; the members of an object are in insertion order. */
  datatype Value =
    | Undefined | Null | NonFinite
    | Bool(b: bool)
    | Num(token: Token)
    | Str(s: Text)
    | Arr(items: seq<Value>)
    | Obj(members: seq<Member>)
  datatype Member = Member(key: Text, value: Value)

  predicate KeyLe(m: Member, n: Member) { TextLe(m.key, n.key) }

  predicate Defined(m: Member) { m.value != Undefined }

  function Kept(ms: seq<Member>): (r: seq<Member>)
    ensures forall m :: m in r <==> m in ms && Defined(m)
  {
    if ms == [] then [] else
      assert ms == [ms[0]] + ms[1..];
      (if Defined(ms[0]) then [ms[0]] else []) + Kept(ms[1..])
  }

  /** The members in the order of the text: defined ones, by key. */
  function Order(ms: seq<Member>): (r: seq<Member>)
    ensures forall m :: m in r <==> m in ms && Defined(m)
  {
    Sorting.SortKeeps(Kept(ms), KeyLe);
    Sorting.Sort(Kept(ms), KeyLe)
  }

  function Join(ts: seq<Text>): Text {
    if ts == [] then [] else if |ts| == 1 then ts[0] else ts[0] + [COMMA] + Join(ts[1..])
  }

  lemma Smaller(ms: seq<Member>, m: Member)
    requires m in ms
    ensures m.value < Obj(ms)
  {
    var i :| 0 <= i < |ms| && ms[i] == m;
  }

  /** The canonical text. */
  function Ser(v: Value): Text {
    match v
    case Undefined => NULL
    case Null => NULL
    case NonFinite => NULL
    case Bool(b) => if b then TRUE else FALSE
    case Num(token) => token
    case Str(s) => Quoted(s)
    case Arr(items) => [OPEN_ARR] + Join(seq(|items|, i requires 0 <= i < |items| => Ser(items[i]))) + [CLOSE_ARR]
    case Obj(ms) =>
      var os := Order(ms);
      [OPEN_OBJ] + Join(seq(|os|, i requires 0 <= i < |os| =>
        (Smaller(ms, os[i]); Quoted(os[i].key) + [COLON] + Ser(os[i].value)))) + [CLOSE_OBJ]
  }

  /** The value that the text stands for. */
  function Norm(v: Value): Value {
    match v
    case Undefined => Null
    case NonFinite => Null
    case Arr(items) => Arr(seq(|items|, i requires 0 <= i < |items| => Norm(items[i])))
    case Obj(ms) =>
      var os := Order(ms);
      Obj(seq(|os|, i requires 0 <= i < |os| => (Smaller(ms, os[i]); Member(os[i].key, Norm(os[i].value)))))
    case _ => v
  }

  // ---------------------------------------------------------------------------
  // The decoder
  // ---------------------------------------------------------------------------

  function TakeNumber(s: Text): (r: (Text, Text))
    ensures |r.0| + |r.1| == |s| && forall c :: c in r.0 ==> NumberChar(c)
  {
    if s == [] || !NumberChar(s[0]) then ([], s)
    else var (t, rest) := TakeNumber(s[1..]); ([s[0]] + t, rest)
  }

  predicate StartsWith(s: Text, p: Text) { |s| >= |p| && s[..|p|] == p }

  function ParseValue(s: Text): (r: Option<(Value, Text)>)
    ensures r.Some? ==> |r.value.1| < |s|
    decreases |s|, 1
  {
    if s == [] then None
    else if NumberChar(s[0]) then var (t, rest) := TakeNumber(s); Some((Num(t), rest))
    else if s[0] == QUOTE then
      match DecodeChars(s[1..]) case None => None case Some((t, rest)) => Some((Str(t), rest))
    else if s[0] == OPEN_ARR then
      if |s| > 1 && s[1] == CLOSE_ARR then Some((Arr([]), s[2..]))
      else match ParseItems(s[1..]) case None => None case Some((vs, rest)) => Some((Arr(vs), rest))
    else if s[0] == OPEN_OBJ then
      if |s| > 1 && s[1] == CLOSE_OBJ then Some((Obj([]), s[2..]))
      else match ParseMembers(s[1..]) case None => None case Some((ms, rest)) => Some((Obj(ms), rest))
    else if StartsWith(s, NULL) then Some((Null, s[4..]))
    else if StartsWith(s, TRUE) then Some((Bool(true), s[4..]))
    else if StartsWith(s, FALSE) then Some((Bool(false), s[5..]))
    else None
  }

  /** One or more items and the closing bracket. */
  function ParseItems(s: Text): (r: Option<(seq<Value>, Text)>)
    ensures r.Some? ==> |r.value.1| < |s|
    decreases |s|, 2
  {
    match ParseValue(s)
    case None => None
    case Some((v, rest)) =>
      if rest != [] && rest[0] == CLOSE_ARR then Some(([v], rest[1..]))
      else if rest != [] && rest[0] == COMMA then
        match ParseItems(rest[1..]) case None => None case Some((vs, after)) => Some(([v] + vs, after))
      else None
  }

  /** One or more members and the closing brace. */
  function ParseMembers(s: Text): (r: Option<(seq<Member>, Text)>)
    ensures r.Some? ==> |r.value.1| < |s|
    decreases |s|, 2
  {
    match ParseMember(s)
    case None => None
    case Some((m, rest)) =>
      if rest != [] && rest[0] == CLOSE_OBJ then Some(([m], rest[1..]))
      else if rest != [] && rest[0] == COMMA then
        match ParseMembers(rest[1..]) case None => None case Some((ms, after)) => Some(([m] + ms, after))
      else None
  }

  function ParseMember(s: Text): (r: Option<(Member, Text)>)
    ensures r.Some? ==> |r.value.1| < |s|
    decreases |s|, 1
  {
    if s == [] || s[0] != QUOTE then None
    else match DecodeChars(s[1..])
         case None => None
         case Some((key, rest)) =>
           if rest == [] || rest[0] != COLON then None
           else match ParseValue(rest[1..]) case None => None case Some((v, after)) => Some((Member(key, v), after))
  }

  /** A whole text. */
  function Decode(s: Text): Option<Value> {
    match ParseValue(s) case None => None case Some((v, rest)) => if rest == [] then Some(v) else None
  }

  // ---------------------------------------------------------------------------
  // Decoding gives the normal form
  // ---------------------------------------------------------------------------

  /** What may follow a value: nothing that would lengthen a number. */
  predicate Ends(rest: Text) { rest == [] || !NumberChar(rest[0]) }

  lemma {:induction false} TakeWholeNumber(t: Text, rest: Text)
    requires (forall c :: c in t ==> NumberChar(c)) && Ends(rest)
    ensures TakeNumber(t + rest) == (t, rest)
  {
    if t == [] {
      assert t + rest == rest;
    } else {
      TakeWholeNumber(t[1..], rest);
      assert (t + rest)[1..] == t[1..] + rest;
      assert t == [t[0]] + t[1..];
    }
  }

  function SerItems(items: seq<Value>): seq<Text> { seq(|items|, i requires 0 <= i < |items| => Ser(items[i])) }

  function NormItems(items: seq<Value>): seq<Value> { seq(|items|, i requires 0 <= i < |items| => Norm(items[i])) }

  function SerMember(m: Member): Text { Quoted(m.key) + [COLON] + Ser(m.value) }

  function NormMember(m: Member): Member { Member(m.key, Norm(m.value)) }

  function SerMembers(ms: seq<Member>): seq<Text> { seq(|ms|, i requires 0 <= i < |ms| => SerMember(ms[i])) }

  function NormMembers(ms: seq<Member>): seq<Member> { seq(|ms|, i requires 0 <= i < |ms| => NormMember(ms[i])) }

  lemma SerShape(v: Value)
    ensures v.Arr? ==> Ser(v) == [OPEN_ARR] + Join(SerItems(v.items)) + [CLOSE_ARR] && Norm(v) == Arr(NormItems(v.items))
    ensures v.Obj? ==> Ser(v) == [OPEN_OBJ] + Join(SerMembers(Order(v.members))) + [CLOSE_OBJ]
                       && Norm(v) == Obj(NormMembers(Order(v.members)))
  {
    if v.Arr? {
      assert SerItems(v.items) == seq(|v.items|, i requires 0 <= i < |v.items| => Ser(v.items[i]));
      assert NormItems(v.items) == seq(|v.items|, i requires 0 <= i < |v.items| => Norm(v.items[i]));
    }
    if v.Obj? {
      var os := Order(v.members);
      assert SerMembers(os) == seq(|os|, i requires 0 <= i < |os| => Quoted(os[i].key) + [COLON] + Ser(os[i].value));
      assert NormMembers(os) == seq(|os|, i requires 0 <= i < |os| => Member(os[i].key, Norm(os[i].value)));
    }
  }

  lemma FirstUnit(v: Value)
    ensures Ser(v) != [] && Ser(v)[0] != CLOSE_ARR && Ser(v)[0] != CLOSE_OBJ
  {
    if v.Num? {
      assert v.token[0] in v.token;
    }
  }

  lemma {:induction false} ValueRoundTrip(v: Value, rest: Text)
    requires Ends(rest)
    ensures ParseValue(Ser(v) + rest) == Some((Norm(v), rest))
    decreases v, 1
  {
    SerShape(v);
    match v
    case Num(token) => NumberRoundTrip(token, rest);
    case Str(t) => QuotedRoundTrip(t, rest);
    case Arr(items) =>
      if items != [] { ItemsRoundTrip(v, items, rest); }
      ArrayRoundTrip(items, rest);
    case Obj(members) =>
      forall m | m in Order(members) ensures m.value < v { Smaller(members, m); }
      if Order(members) != [] { MembersRoundTrip(v, Order(members), rest); }
      ObjectRoundTrip(Order(members), rest);
    case _ => LiteralRoundTrip(v, rest);
  }

  lemma ArrayRoundTrip(items: seq<Value>, rest: Text)
    requires items != [] ==> ParseItems(Join(SerItems(items)) + [CLOSE_ARR] + rest) == Some((NormItems(items), rest))
    ensures ParseValue([OPEN_ARR] + Join(SerItems(items)) + [CLOSE_ARR] + rest) == Some((Arr(NormItems(items)), rest))
  {
    var body := Join(SerItems(items));
    EnterBrackets(OPEN_ARR, body, CLOSE_ARR, rest);
    if items == [] {
      assert ([OPEN_ARR] + body + [CLOSE_ARR] + rest)[2..] == rest;
    } else {
      FirstUnit(items[0]);
      assert body[0] == SerItems(items)[0][0];
    }
  }

  lemma ObjectRoundTrip(ms: seq<Member>, rest: Text)
    requires ms != [] ==> ParseMembers(Join(SerMembers(ms)) + [CLOSE_OBJ] + rest) == Some((NormMembers(ms), rest))
    ensures ParseValue([OPEN_OBJ] + Join(SerMembers(ms)) + [CLOSE_OBJ] + rest) == Some((Obj(NormMembers(ms)), rest))
  {
    var body := Join(SerMembers(ms));
    EnterBrackets(OPEN_OBJ, body, CLOSE_OBJ, rest);
    if ms == [] {
      assert ([OPEN_OBJ] + body + [CLOSE_OBJ] + rest)[2..] == rest;
    } else {
      assert body[0] == SerMembers(ms)[0][0] == QUOTE;
    }
  }

  lemma NumberRoundTrip(token: Token, rest: Text)
    requires Ends(rest)
    ensures ParseValue(token + rest) == Some((Num(token), rest))
  {
    assert (token + rest)[0] == token[0] && token[0] in token;
    TakeWholeNumber(token, rest);
  }

  lemma LiteralRoundTrip(v: Value, rest: Text)
    requires v.Undefined? || v.Null? || v.NonFinite? || v.Bool?
    ensures ParseValue(Ser(v) + rest) == Some((Norm(v), rest))
  {
    var p, s := Ser(v), Ser(v) + rest;
    assert s[..|p|] == p && s[|p|..] == rest;
  }

  lemma EnterBrackets(open: CodeUnit, body: Text, close: CodeUnit, rest: Text)
    ensures [open] + body + [close] + rest == [open] + (body + [close] + rest)
    ensures ([open] + body + [close] + rest)[1..] == body + [close] + rest
  {}

  /** The first element of a list text, and what follows it. */
  lemma Split(ts: seq<Text>, close: CodeUnit, rest: Text)
    requires ts != []
    ensures Join(ts) + [close] + rest
            == ts[0] + if |ts| == 1 then [close] + rest else [COMMA] + (Join(ts[1..]) + [close] + rest)
  {}

  lemma {:induction false} ItemsRoundTrip(v: Value, items: seq<Value>, rest: Text)
    requires items != [] && forall x :: x in items ==> x < v
    ensures ParseItems(Join(SerItems(items)) + [CLOSE_ARR] + rest) == Some((NormItems(items), rest))
    decreases v, 0, |items|
  {
    Split(SerItems(items), CLOSE_ARR, rest);
    var more := Join(SerItems(items)[1..]) + [CLOSE_ARR] + rest;
    var tail := if |items| == 1 then [CLOSE_ARR] + rest else [COMMA] + more;
    assert items[0] in items;
    ValueRoundTrip(items[0], tail);
    if |items| == 1 {
      assert tail[1..] == rest;
      assert NormItems(items) == [Norm(items[0])];
    } else {
      assert tail[1..] == more;
      assert SerItems(items)[1..] == SerItems(items[1..]);
      forall x | x in items[1..] ensures x < v { assert x in items; }
      ItemsRoundTrip(v, items[1..], rest);
      assert NormItems(items) == [Norm(items[0])] + NormItems(items[1..]);
    }
  }

  lemma MemberRoundTrip(m: Member, rest: Text)
    requires ParseValue(Ser(m.value) + rest) == Some((Norm(m.value), rest))
    ensures ParseMember(SerMember(m) + rest) == Some((NormMember(m), rest))
  {
    var after := [COLON] + (Ser(m.value) + rest);
    assert SerMember(m) + rest == Quoted(m.key) + after;
    QuotedRoundTrip(m.key, after);
    assert after[1..] == Ser(m.value) + rest;
  }

  lemma {:induction false} MembersRoundTrip(v: Value, ms: seq<Member>, rest: Text)
    requires ms != [] && forall m :: m in ms ==> m.value < v
    ensures ParseMembers(Join(SerMembers(ms)) + [CLOSE_OBJ] + rest) == Some((NormMembers(ms), rest))
    decreases v, 0, |ms|
  {
    Split(SerMembers(ms), CLOSE_OBJ, rest);
    var more := Join(SerMembers(ms)[1..]) + [CLOSE_OBJ] + rest;
    var tail := if |ms| == 1 then [CLOSE_OBJ] + rest else [COMMA] + more;
    assert ms[0] in ms;
    ValueRoundTrip(ms[0].value, tail);
    MemberRoundTrip(ms[0], tail);
    if |ms| == 1 {
      assert tail[1..] == rest;
      assert NormMembers(ms) == [NormMember(ms[0])];
    } else {
      assert tail[1..] == more;
      assert SerMembers(ms)[1..] == SerMembers(ms[1..]);
      MembersRoundTrip(v, ms[1..], rest);
      assert NormMembers(ms) == [NormMember(ms[0])] + NormMembers(ms[1..]);
    }
  }

  /** The decoder returns the normal form of the value. */
  lemma DecodeSer(v: Value)
    ensures Decode(Ser(v)) == Some(Norm(v))
  {
    ValueRoundTrip(v, []);
    assert Ser(v) + [] == Ser(v);
  }

  // ---------------------------------------------------------------------------
  // The text determines the normal form, and only that
  // ---------------------------------------------------------------------------

  lemma {:induction false} KeptAll(ms: seq<Member>)
    requires forall m :: m in ms ==> Defined(m)
    ensures Kept(ms) == ms
  {
    if ms != [] {
      KeptAll(ms[1..]);
      assert ms == [ms[0]] + ms[1..];
    }
  }

  lemma NormIsDefined(v: Value)
    ensures Norm(v) != Undefined
  {}

  lemma OrderIsSorted(ms: seq<Member>)
    ensures Sorting.Sorted(Order(ms), KeyLe)
  {
    KeyOrdering();
    Sorting.SortSorts(Kept(ms), KeyLe);
  }

  lemma KeyOrdering()
    ensures Sorting.Ordering(KeyLe)
  {
    forall m: Member, n: Member ensures KeyLe(m, n) || KeyLe(n, m) { TextLeTotal(m.key, n.key); }
    forall m: Member, n: Member, o: Member | KeyLe(m, n) && KeyLe(n, o) ensures KeyLe(m, o) { TextLeTransitive(m.key, n.key, o.key); }
  }

  /** The members of a normal form are already in order. */
  lemma OrderOfNorm(ms: seq<Member>)
    ensures Order(NormMembers(Order(ms))) == NormMembers(Order(ms))
  {
    var os := Order(ms);
    var ns := NormMembers(os);
    OrderIsSorted(ms);
    forall m | m in ns ensures Defined(m) {
      var i :| 0 <= i < |ns| && ns[i] == m;
      NormIsDefined(os[i].value);
    }
    forall i, j | 0 <= i < j < |ns| ensures KeyLe(ns[i], ns[j]) { assert KeyLe(os[i], os[j]); }
    KeptAll(ns);
    Sorting.SortedIsFixed(ns, KeyLe);
  }

  lemma {:induction false} SerOfNorm(v: Value)
    ensures Ser(Norm(v)) == Ser(v)
    decreases v
  {
    SerShape(v);
    SerShape(Norm(v));
    if v.Arr? {
      forall i | 0 <= i < |v.items| ensures SerItems(NormItems(v.items))[i] == SerItems(v.items)[i] { SerOfNorm(v.items[i]); }
      assert SerItems(NormItems(v.items)) == SerItems(v.items);
    }
    if v.Obj? {
      var os := Order(v.members);
      OrderOfNorm(v.members);
      forall i | 0 <= i < |os| ensures SerMembers(NormMembers(os))[i] == SerMembers(os)[i] {
        Smaller(v.members, os[i]);
        SerOfNorm(os[i].value);
      }
      assert SerMembers(NormMembers(os)) == SerMembers(os);
    }
  }

  /** Injective up to meaning: equal texts are exactly equal normal forms. */
  lemma SerEqualIffNormEqual(v: Value, w: Value)
    ensures Ser(v) == Ser(w) <==> Norm(v) == Norm(w)
  {
    DecodeSer(v);
    DecodeSer(w);
    SerOfNorm(v);
    SerOfNorm(w);
  }

  predicate DistinctKeys(ms: seq<Member>) { forall i, j :: 0 <= i < j < |ms| ==> ms[i].key != ms[j].key }

  lemma {:induction false} KeptMultiset(ms: seq<Member>, m: Member)
    ensures multiset(Kept(ms))[m] == if Defined(m) then multiset(ms)[m] else 0
  {
    if ms != [] {
      KeptMultiset(ms[1..], m);
      assert ms == [ms[0]] + ms[1..];
    }
  }

  /** Insertion order of the members does not matter. */
  lemma InsertionOrderIsForgotten(ms: seq<Member>, ns: seq<Member>)
    requires multiset(ms) == multiset(ns) && DistinctKeys(ms)
    ensures Ser(Obj(ms)) == Ser(Obj(ns))
  {
    forall m ensures multiset(Kept(ms))[m] == multiset(Kept(ns))[m] {
      KeptMultiset(ms, m);
      KeptMultiset(ns, m);
    }
    assert multiset(Kept(ms)) == multiset(Kept(ns));
    KeyOrdering();
    assert Sorting.Strict(Kept(ms), KeyLe) by {
      forall x, y | x in Kept(ms) && y in Kept(ms) && KeyLe(x, y) && KeyLe(y, x) ensures x == y {
        TextLeTotal(x.key, y.key);
        var i :| 0 <= i < |ms| && ms[i] == x;
        var j :| 0 <= j < |ms| && ms[j] == y;
        assert i == j || i < j || j < i;
      }
    }
    Sorting.SortForgetsOrder(Kept(ms), Kept(ns), KeyLe);
    SerShape(Obj(ms));
    SerShape(Obj(ns));
  }

  /** The members of an object are written by key: where two keys first differ, the smaller unit comes first. */
  lemma MembersAscend(ms: seq<Member>, i: nat, j: nat)
    requires i < j < |Order(ms)|
    ensures exists n: nat :: Precedes(Order(ms)[i].key, Order(ms)[j].key, n)
  {
    KeyOrdering();
    Sorting.SortSorts(Kept(ms), KeyLe);
    assert KeyLe(Order(ms)[i], Order(ms)[j]);
    TextLeIsLexical(Order(ms)[i].key, Order(ms)[j].key);
  }

  const EXAMPLE_LIST: Value := Arr([Null, Bool(true)])
  const EXAMPLE_B := Member([0x62], EXAMPLE_LIST)
  const EXAMPLE_A := Member([0x61], Bool(false))
  const EXAMPLE_C := Member([0x63], Undefined)

  lemma ExampleListText()
    ensures Ser(EXAMPLE_LIST) == [0x5B, 0x6E, 0x75, 0x6C, 0x6C, 0x2C, 0x74, 0x72, 0x75, 0x65, 0x5D]
  {
    SerShape(EXAMPLE_LIST);
    var parts := SerItems(EXAMPLE_LIST.items);
    assert parts == [Ser(Null), Ser(Bool(true))] == [NULL, TRUE];
    assert parts[1..] == [TRUE];
  }

  lemma KeptFirst(m: Member, ms: seq<Member>)
    ensures Kept([m] + ms) == (if Defined(m) then [m] else []) + Kept(ms)
  {
    assert ([m] + ms)[1..] == ms;
  }

  lemma ExampleOrder()
    ensures Order([EXAMPLE_B, EXAMPLE_A, EXAMPLE_C]) == [EXAMPLE_A, EXAMPLE_B]
  {
    KeptFirst(EXAMPLE_C, []);
    KeptFirst(EXAMPLE_A, [EXAMPLE_C]);
    KeptFirst(EXAMPLE_B, [EXAMPLE_A, EXAMPLE_C]);
    assert [EXAMPLE_C] + [] == [EXAMPLE_C] && [EXAMPLE_A] + [EXAMPLE_C] == [EXAMPLE_A, EXAMPLE_C];
    assert [EXAMPLE_B] + [EXAMPLE_A, EXAMPLE_C] == [EXAMPLE_B, EXAMPLE_A, EXAMPLE_C];
    var kept := [EXAMPLE_B, EXAMPLE_A];
    assert kept[1..] == [EXAMPLE_A] && kept[1..][1..] == [];
    assert Sorting.Sort([EXAMPLE_A], KeyLe) == [EXAMPLE_A] by { assert [EXAMPLE_A][1..] == []; }
    assert !KeyLe(EXAMPLE_B, EXAMPLE_A);
    assert Sorting.Insert(EXAMPLE_B, [EXAMPLE_A], KeyLe) == [EXAMPLE_A, EXAMPLE_B] by { assert [EXAMPLE_A][1..] == []; }
  }

  /** The text of {b: [null, true], a: false, c: undefined}, unit by unit: {"a":false,"b":[null,true]}. */
  lemma ExampleText()
    ensures Ser(Obj([EXAMPLE_B, EXAMPLE_A, EXAMPLE_C]))
            == [0x7B] + ([0x22, 0x61, 0x22, 0x3A, 0x66, 0x61, 0x6C, 0x73, 0x65] + [0x2C]
                         + [0x22, 0x62, 0x22, 0x3A, 0x5B, 0x6E, 0x75, 0x6C, 0x6C, 0x2C, 0x74, 0x72, 0x75, 0x65, 0x5D]) + [0x7D]
  {
    SerShape(Obj([EXAMPLE_B, EXAMPLE_A, EXAMPLE_C]));
    ExampleOrder();
    ExampleMembers();
    var a, b := SerMember(EXAMPLE_A), SerMember(EXAMPLE_B);
    assert SerMembers([EXAMPLE_A, EXAMPLE_B]) == [a, b];
    JoinTwo(a, b);
  }

  lemma JoinTwo(a: Text, b: Text)
    ensures Join([a, b]) == a + [COMMA] + b
  {
    assert [a, b][1..] == [b];
  }

  lemma ExampleMembers()
    ensures SerMember(EXAMPLE_A) == [0x22, 0x61, 0x22, 0x3A, 0x66, 0x61, 0x6C, 0x73, 0x65]
    ensures SerMember(EXAMPLE_B) == [0x22, 0x62, 0x22, 0x3A, 0x5B, 0x6E, 0x75, 0x6C, 0x6C, 0x2C, 0x74, 0x72, 0x75, 0x65, 0x5D]
  {
    ExampleListText();
    OneLetter(0x61);
    OneLetter(0x62);
    assert Ser(Bool(false)) == FALSE;
  }

  lemma OneLetter(c: CodeUnit)
    requires 0x61 <= c <= 0x7A
    ensures Quoted([c]) == [0x22, c, 0x22]
  {
    var s: Text := [c];
    assert s[1..] == [] && Escape(s) == EscapeUnit(c) + Escape(s[1..]);
  }
}
