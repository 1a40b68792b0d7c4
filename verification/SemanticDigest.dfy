/**
 The content identity of a semantic contract: the preimage of its digest.  Six collections are
 treated as sets, everything else keeps its authored order.
 */
module SemanticDigests {
  import opened Options
  import opened Texts
  import opened JsonStrings
  import opened CanonicalJson
  import Sorting

  // ---------------------------------------------------------------------------
  // canonicalizeJson, then JSON.stringify
  // ---------------------------------------------------------------------------

  function ByKey(ms: seq<Member>): (r: seq<Member>)
    ensures forall m :: m in r <==> m in ms
  {
    Sorting.SortKeeps(ms, KeyLe);
    Sorting.Sort(ms, KeyLe)
  }

  /** Keys sorted at every depth, array order kept, nothing dropped. */
  function Canon(v: Value): Value {
    match v
    case Arr(items) => Arr(seq(|items|, i requires 0 <= i < |items| => Canon(items[i])))
    case Obj(ms) =>
      var os := ByKey(ms);
      Obj(seq(|os|, i requires 0 <= i < |os| => (Smaller(ms, os[i]); Member(os[i].key, Canon(os[i].value)))))
    case _ => v
  }

  method CanonicalizeJson(v: Value) returns (r: Value)
    ensures r == Canon(v)
    decreases v
  {
    if v.Arr? {
      var out: seq<Value> := [];
      for i := 0 to |v.items|
        invariant out == seq(i, j requires 0 <= j < i => Canon(v.items[j]))
      {
        var x := CanonicalizeJson(v.items[i]);
        out := out + [x];
      }
      r := Arr(out);
    } else if v.Obj? {
      var os := ByKey(v.members);
      var out: seq<Member> := [];
      for i := 0 to |os|
        invariant out == seq(i, j requires 0 <= j < i => Member(os[j].key, Canon(os[j].value)))
      {
        Smaller(v.members, os[i]);
        var x := CanonicalizeJson(os[i].value);
        out := out + [Member(os[i].key, x)];
      }
      r := Obj(out);
    } else {
      r := v;
    }
  }

  /** JSON.stringify in member order; an undefined top level, which gives no text, is written as null. */
  function Stringify(v: Value): Text {
    match v
    case Arr(items) => [OPEN_ARR] + Join(seq(|items|, i requires 0 <= i < |items| => Stringify(items[i]))) + [CLOSE_ARR]
    case Obj(ms) =>
      var os := Kept(ms);
      [OPEN_OBJ] + Join(seq(|os|, i requires 0 <= i < |os| =>
        (Smaller(ms, os[i]); Quoted(os[i].key) + [COLON] + Stringify(os[i].value)))) + [CLOSE_OBJ]
    case _ => Ser(v)
  }

  lemma KeptCons(m: Member, s: seq<Member>)
    ensures Kept([m] + s) == if Defined(m) then [m] + Kept(s) else Kept(s)
  {
    assert ([m] + s)[1..] == s;
  }

  lemma KeptHead(m: Member, s: seq<Member>)
    requires Sorting.Sorted(s, KeyLe) && (s != [] ==> KeyLe(m, s[0]))
    ensures Kept(s) != [] ==> KeyLe(m, Kept(s)[0])
  {
    if Kept(s) != [] {
      var k := Kept(s)[0];
      assert k in s;
      Sorting.HeadIsLeast(s, k, KeyLe);
      if k != s[0] { TextLeTransitive(m.key, s[0].key, k.key); }
    }
  }

  lemma {:induction false} KeptInsert(m: Member, s: seq<Member>)
    requires Sorting.Sorted(s, KeyLe)
    ensures Kept(Sorting.Insert(m, s, KeyLe)) == if Defined(m) then Sorting.Insert(m, Kept(s), KeyLe) else Kept(s)
  {
    if s == [] || KeyLe(m, s[0]) {
      KeptCons(m, s);
      KeptHead(m, s);
    } else {
      var rest := s[1..];
      KeptInsert(m, rest);
      assert s == [s[0]] + rest;
      KeptCons(s[0], rest);
      KeptCons(s[0], Sorting.Insert(m, rest, KeyLe));
      assert Defined(s[0]) ==> Kept(s)[1..] == Kept(rest);
    }
  }

  /** Dropping undefined members before or after sorting is the same. */
  lemma {:induction false} KeptByKey(ms: seq<Member>)
    ensures Kept(Sorting.Sort(ms, KeyLe)) == Order(ms)
  {
    if ms != [] {
      var rest := ms[1..];
      KeptByKey(rest);
      KeyOrdering();
      Sorting.SortSorts(rest, KeyLe);
      KeptInsert(ms[0], Sorting.Sort(rest, KeyLe));
      assert ms == [ms[0]] + rest;
      KeptCons(ms[0], rest);
      assert Defined(ms[0]) ==> Kept(ms)[1..] == Kept(rest);
    }
  }

  function CanonMember(m: Member): Member { Member(m.key, Canon(m.value)) }

  lemma {:induction false} KeptCanon(ms: seq<Member>)
    ensures Kept(Sorting.Map(ms, CanonMember)) == Sorting.Map(Kept(ms), CanonMember)
  {
    if ms != [] {
      var m, rest := ms[0], ms[1..];
      assert ms == [m] + rest;
      KeptCanon(rest);
      Sorting.MapCons(m, rest, CanonMember);
      KeptCons(m, rest);
      KeptCons(CanonMember(m), Sorting.Map(rest, CanonMember));
      DefinedCanon(m);
      Sorting.MapCons(m, Kept(rest), CanonMember);
    }
  }

  lemma DefinedCanon(m: Member)
    ensures Defined(CanonMember(m)) <==> Defined(m)
  {}

  function StringifyMember(m: Member): Text { Quoted(m.key) + [COLON] + Stringify(m.value) }

  lemma Shapes(v: Value)
    ensures v.Arr? ==> Stringify(v) == [OPEN_ARR] + Join(Sorting.Map(v.items, Stringify)) + [CLOSE_ARR]
                       && Canon(v) == Arr(Sorting.Map(v.items, Canon))
    ensures v.Obj? ==> Stringify(v) == [OPEN_OBJ] + Join(Sorting.Map(Kept(v.members), StringifyMember)) + [CLOSE_OBJ]
                       && Canon(v) == Obj(Sorting.Map(ByKey(v.members), CanonMember))
  {
    if v.Arr? {
      assert Sorting.Map(v.items, Stringify) == seq(|v.items|, i requires 0 <= i < |v.items| => Stringify(v.items[i]));
      assert Sorting.Map(v.items, Canon) == seq(|v.items|, i requires 0 <= i < |v.items| => Canon(v.items[i]));
    }
    if v.Obj? {
      var os := Kept(v.members);
      assert Sorting.Map(os, StringifyMember) == seq(|os|, i requires 0 <= i < |os| => Quoted(os[i].key) + [COLON] + Stringify(os[i].value));
      var bs := ByKey(v.members);
      assert Sorting.Map(bs, CanonMember) == seq(|bs|, i requires 0 <= i < |bs| => Member(bs[i].key, Canon(bs[i].value)));
    }
  }

  /** The two canonical serialisations of the repository write the same text. */
  lemma {:induction false} StringifyCanon(v: Value)
    ensures Stringify(Canon(v)) == Ser(v)
    decreases v
  {
    Shapes(v);
    Shapes(Canon(v));
    SerShape(v);
    if v.Arr? {
      forall i | 0 <= i < |v.items| ensures Stringify(Canon(v.items[i])) == Ser(v.items[i]) { StringifyCanon(v.items[i]); }
      assert Sorting.Map(Sorting.Map(v.items, Canon), Stringify) == SerItems(v.items);
    }
    if v.Obj? {
      KeptCanon(ByKey(v.members));
      KeptByKey(v.members);
      var os := Order(v.members);
      forall i | 0 <= i < |os| ensures Stringify(Canon(os[i].value)) == Ser(os[i].value) {
        Smaller(v.members, os[i]);
        StringifyCanon(os[i].value);
      }
      assert Sorting.Map(Sorting.Map(os, CanonMember), StringifyMember) == SerMembers(os);
    }
  }

  // ---------------------------------------------------------------------------
  // The preimage of the digest
  // ---------------------------------------------------------------------------

  datatype Field =
    | contractKey | riskClass
    | sourceObjects | concepts | distinctConcepts | negativeSideEffects | factsEstablished | unresolvedSemantics

  const FIELDS: seq<Field> := [contractKey, riskClass, sourceObjects, concepts, distinctConcepts, negativeSideEffects,
                               factsEstablished, unresolvedSemantics]

  /** The fields that the contract treats as sets. */
  predicate SetLike(f: Field) { f != contractKey && f != riskClass }

  function Name(f: Field): (s: string)
    ensures IsAscii(s)
  {
    match f
    case contractKey => "contractKey"
    case riskClass => "riskClass"
    case sourceObjects => "sourceObjects"
    case concepts => "concepts"
    case distinctConcepts => "distinctConcepts"
    case negativeSideEffects => "negativeSideEffects"
    case factsEstablished => "factsEstablished"
    case unresolvedSemantics => "unresolvedSemantics"
  }

  predicate IsAscii(s: string) { forall i :: 0 <= i < |s| ==> s[i] as int < 128 }

  function Unit(c: char): CodeUnit
    requires c as int < 128
  {
    c as int
  }

  function Ascii(s: string): Text
    requires IsAscii(s)
  {
    seq(|s|, i requires 0 <= i < |s| => Unit(s[i]))
  }

  function Key(f: Field): Text { Ascii(Name(f)) }

  /** Where a field stands in the payload. */
  function Position(f: Field): (i: nat)
    ensures i < |FIELDS| && FIELDS[i] == f
  {
    match f
    case contractKey => 0
    case riskClass => 1
    case sourceObjects => 2
    case concepts => 3
    case distinctConcepts => 4
    case negativeSideEffects => 5
    case factsEstablished => 6
    case unresolvedSemantics => 7
  }

  lemma KeysDiffer(f: Field, g: Field)
    requires Key(f) == Key(g)
    ensures f == g
  {
    assert |Name(f)| == |Key(f)| == |Key(g)| == |Name(g)|;
    forall i | 0 <= i < |Name(f)| ensures Name(f)[i] == Name(g)[i] { assert Key(f)[i] == Key(g)[i]; }
    assert Name(f)[0] == Name(g)[0];
  }

  /** A property of a document; anything but an object has none. */
  function Get(doc: Value, key: Text): Value { if doc.Obj? then Find(doc.members, key) else Undefined }

  function Find(ms: seq<Member>, key: Text): Value {
    if ms == [] then Undefined else if ms[0].key == key then ms[0].value else Find(ms[1..], key)
  }

  function OrNull(v: Value): Value { if v == Undefined then Null else v }

  /** Sort order of set members: their canonical text; undefined goes last, as in any array sort. */
  predicate MemberLe(v: Value, w: Value) { w == Undefined || (v != Undefined && TextLe(Stringify(Canon(v)), Stringify(Canon(w)))) }

  /** A set-like collection as it enters the digest; anything but an array counts as empty. */
  function SetItems(v: Value): seq<Value> { if v.Arr? then Sorting.Sort(v.items, MemberLe) else [] }

  function FieldValue(doc: Value, f: Field): Value {
    if SetLike(f) then Arr(SetItems(Get(doc, Key(f)))) else OrNull(Get(doc, Key(f)))
  }

  function Payload(doc: Value): seq<Member> {
    seq(|FIELDS|, i requires 0 <= i < |FIELDS| => Member(Key(FIELDS[i]), FieldValue(doc, FIELDS[i])))
  }

  function Preimage(doc: Value): Text { Stringify(Canon(Obj(Payload(doc)))) }

  method BuildPayload(doc: Value) returns (payload: seq<Member>)
    ensures payload == Payload(doc)
  {
    payload := [];
    for n := 0 to |FIELDS|
      invariant payload == Payload(doc)[..n]
    {
      payload := payload + [Member(Key(FIELDS[n]), FieldValue(doc, FIELDS[n]))];
      assert Payload(doc)[..n + 1] == Payload(doc)[..n] + [Payload(doc)[n]];
    }
    assert Payload(doc)[..|FIELDS|] == Payload(doc);
  }

  method SemanticPreimage(doc: Value) returns (text: Text)
    ensures text == Preimage(doc)
  {
    var payload := BuildPayload(doc);
    var canonical := CanonicalizeJson(Obj(payload));
    text := Stringify(canonical);
  }

  lemma MemberOrdering()
    ensures Sorting.Ordering(MemberLe)
  {
    forall v: Value, w: Value ensures MemberLe(v, w) || MemberLe(w, v) {
      TextLeTotal(Stringify(Canon(v)), Stringify(Canon(w)));
    }
    forall v: Value, w: Value, x: Value | MemberLe(v, w) && MemberLe(w, x) ensures MemberLe(v, x) {
      if x != Undefined { TextLeTransitive(Stringify(Canon(v)), Stringify(Canon(w)), Stringify(Canon(x))); }
    }
  }

  /** Two objects with the same keys in the same order, nothing undefined: equal exactly member by member. */
  lemma SameKeysNorm(ms: seq<Member>, ns: seq<Member>)
    requires SameKeys(ms, ns)
    ensures Norm(Obj(ms)) == Norm(Obj(ns)) <==> NormMembers(ms) == NormMembers(ns)
  {
    OrderedNorm(ms);
    OrderedNorm(ns);
    if Norm(Obj(ms)) == Norm(Obj(ns)) {
      Sorting.SortKeeps(NormMembers(ms), KeyLe);
      Sorting.SortKeeps(NormMembers(ns), KeyLe);
      KeyedMultiset(NormMembers(ms), NormMembers(ns));
    }
  }

  predicate SameKeys(ms: seq<Member>, ns: seq<Member>) {
    && |ms| == |ns| && DistinctKeys(ms)
    && forall i :: 0 <= i < |ms| ==> ms[i].key == ns[i].key && Defined(ms[i]) && Defined(ns[i])
  }

  /** With the same distinct keys in the same places, equal multisets are equal sequences. */
  lemma KeyedMultiset(ms: seq<Member>, ns: seq<Member>)
    requires |ms| == |ns| && DistinctKeys(ms) && forall i :: 0 <= i < |ms| ==> ms[i].key == ns[i].key
    requires multiset(ms) == multiset(ns)
    ensures ms == ns
  {
    forall i | 0 <= i < |ms| ensures ms[i] == ns[i] {
      assert ms[i] in multiset(ns);
      var j :| 0 <= j < |ns| && ns[j] == ms[i];
      assert ms[j].key == ms[i].key;
    }
  }

  lemma OrderedNorm(ms: seq<Member>)
    requires forall m :: m in ms ==> Defined(m)
    ensures Norm(Obj(ms)) == Obj(Sorting.Sort(NormMembers(ms), KeyLe))
  {
    SerShape(Obj(ms));
    KeptAll(ms);
    Sorting.SortCommutes(ms, NormMember, KeyLe, KeyLe);
    assert Sorting.Map(ms, NormMember) == NormMembers(ms);
    assert Sorting.Map(Order(ms), NormMember) == NormMembers(Order(ms));
  }

  predicate NothingUndefined(vs: seq<Value>) { Undefined !in vs }

  lemma NormIdempotent(v: Value)
    ensures Norm(Norm(v)) == Norm(v)
  {
    DecodeSer(v);
    SerOfNorm(v);
    DecodeSer(Norm(v));
  }

  /** The normal forms of a sorted collection are the sorted normal forms. */
  lemma NormOfSorted(vs: seq<Value>)
    requires NothingUndefined(vs)
    ensures NormItems(Sorting.Sort(vs, MemberLe)) == Sorting.Sort(NormItems(vs), MemberLe)
  {
    forall x, y | x in vs && y in vs ensures Sorting.Same(x, y, Norm, MemberLe, MemberLe) {
      StringifyCanon(x);
      StringifyCanon(y);
      StringifyCanon(Norm(x));
      StringifyCanon(Norm(y));
      SerOfNorm(x);
      SerOfNorm(y);
      NormIsDefined(y);
      NormIsDefined(x);
    }
    Sorting.SortCommutes(vs, Norm, MemberLe, MemberLe);
    assert Sorting.Map(vs, Norm) == NormItems(vs);
    assert Sorting.Map(Sorting.Sort(vs, MemberLe), Norm) == NormItems(Sorting.Sort(vs, MemberLe));
  }

  lemma NormalFormsAreStrict(ns: seq<Value>)
    requires forall n :: n in ns ==> Norm(n) == n
    ensures Sorting.Strict(ns, MemberLe)
  {
    forall x, y | x in ns && y in ns && MemberLe(x, y) && MemberLe(y, x) ensures x == y {
      NormIsDefined(x);
      NormIsDefined(y);
      TextLeTotal(Stringify(Canon(x)), Stringify(Canon(y)));
      StringifyCanon(x);
      StringifyCanon(y);
      SerEqualIffNormEqual(x, y);
    }
  }

  /** Sorted collections look alike exactly when the collections have the same members with the same counts. */
  lemma SortedSetsEqual(vs: seq<Value>, ws: seq<Value>)
    requires NothingUndefined(vs) && NothingUndefined(ws)
    ensures NormItems(Sorting.Sort(vs, MemberLe)) == NormItems(Sorting.Sort(ws, MemberLe))
            <==> multiset(NormItems(vs)) == multiset(NormItems(ws))
  {
    NormOfSorted(vs);
    NormOfSorted(ws);
    Sorting.SortKeeps(NormItems(vs), MemberLe);
    Sorting.SortKeeps(NormItems(ws), MemberLe);
    if multiset(NormItems(vs)) == multiset(NormItems(ws)) {
      ItemsAreNormal(vs);
      NormalFormsAreStrict(NormItems(vs));
      MemberOrdering();
      Sorting.SortForgetsOrder(NormItems(vs), NormItems(ws), MemberLe);
    }
  }

  lemma ItemsAreNormal(vs: seq<Value>)
    ensures forall n :: n in NormItems(vs) ==> Norm(n) == n
  {
    forall n | n in NormItems(vs) ensures Norm(n) == n {
      var i :| 0 <= i < |vs| && n == Norm(vs[i]);
      NormIdempotent(vs[i]);
    }
  }

  function ItemsOf(v: Value): seq<Value> { if v.Arr? then v.items else [] }

  /** A set-like field agrees as a multiset of meanings, the two others by meaning. */
  ghost predicate SameField(doc: Value, other: Value, f: Field) {
    match f
    case contractKey | riskClass => Norm(Get(doc, Key(f))) == Norm(Get(other, Key(f)))
    case _ => multiset(NormItems(ItemsOf(Get(doc, Key(f))))) == multiset(NormItems(ItemsOf(Get(other, Key(f)))))
  }

  /** No collection has an undefined member; a parsed JSON document never has one. */
  ghost predicate FullCollections(doc: Value) { forall f :: SetLike(f) ==> NothingUndefined(ItemsOf(Get(doc, Key(f)))) }

  /**
   Two documents have the same preimage exactly when their contract key and risk class mean the same
   and each of the six collections has the same members, however they are arranged.
   */
  lemma PreimageEqualIff(doc: Value, other: Value)
    requires FullCollections(doc) && FullCollections(other)
    ensures Preimage(doc) == Preimage(other) <==> forall f :: SameField(doc, other, f)
  {
    var ms, ns := Payload(doc), Payload(other);
    StringifyCanon(Obj(ms));
    StringifyCanon(Obj(ns));
    SerEqualIffNormEqual(Obj(ms), Obj(ns));
    PayloadKeys(doc, other);
    SameKeysNorm(ms, ns);
    FieldByField(doc, other);
  }

  lemma PayloadKeys(doc: Value, other: Value)
    ensures SameKeys(Payload(doc), Payload(other))
  {
    var ms := Payload(doc);
    forall i, j | 0 <= i < j < |ms| ensures ms[i].key != ms[j].key {
      PlaceOf(i);
      PlaceOf(j);
      if ms[i].key == ms[j].key { KeysDiffer(FIELDS[i], FIELDS[j]); }
    }
  }

  lemma PlaceOf(i: nat)
    requires i < |FIELDS|
    ensures Position(FIELDS[i]) == i
  {}

  lemma FieldByField(doc: Value, other: Value)
    requires FullCollections(doc) && FullCollections(other)
    ensures NormMembers(Payload(doc)) == NormMembers(Payload(other)) <==> forall f :: SameField(doc, other, f)
  {
    var ms, ns := NormMembers(Payload(doc)), NormMembers(Payload(other));
    forall i | 0 <= i < |FIELDS| ensures ms[i] == ns[i] <==> SameField(doc, other, FIELDS[i]) {
      FieldAgrees(doc, other, FIELDS[i]);
    }
    forall f ensures SameField(doc, other, f) <==> ms[Position(f)] == ns[Position(f)] {}
    assert (forall i :: 0 <= i < |FIELDS| ==> ms[i] == ns[i]) ==> ms == ns;
  }

  lemma FieldAgrees(doc: Value, other: Value, f: Field)
    requires FullCollections(doc) && FullCollections(other)
    ensures Norm(FieldValue(doc, f)) == Norm(FieldValue(other, f)) <==> SameField(doc, other, f)
  {
    if SetLike(f) {
      SerShape(Arr(SetItems(Get(doc, Key(f)))));
      SerShape(Arr(SetItems(Get(other, Key(f)))));
      SortedSetsEqual(ItemsOf(Get(doc, Key(f))), ItemsOf(Get(other, Key(f))));
    }
  }

  // ---------------------------------------------------------------------------
  // What the identity does not forget
  // ---------------------------------------------------------------------------

  /** A concept whose only list is authored in this order. */
  function ConceptWith(names: seq<Value>): Value { Obj([Member(Key(concepts), Arr([Obj([Member([0x61], Arr(names))])]))]) }

  /** Lists inside a member keep their order: two different arrangements of one list are told apart. */
  lemma InnerListsKeepOrder(names: seq<Value>, others: seq<Value>)
    ensures Preimage(ConceptWith(names)) == Preimage(ConceptWith(others)) <==> NormItems(names) == NormItems(others)
  {
    var doc, other := ConceptWith(names), ConceptWith(others);
    InnerFull(names);
    InnerFull(others);
    PreimageEqualIff(doc, other);
    InnerField(names, others, concepts);
    if NormItems(names) == NormItems(others) {
      forall f ensures SameField(doc, other, f) { InnerField(names, others, f); }
    }
  }

  lemma InnerFull(names: seq<Value>)
    ensures FullCollections(ConceptWith(names))
  {
    forall f ensures NothingUndefined(ItemsOf(Get(ConceptWith(names), Key(f)))) { OnlyMember(ConceptWith(names), f); }
  }

  lemma InnerField(names: seq<Value>, others: seq<Value>, f: Field)
    ensures SameField(ConceptWith(names), ConceptWith(others), f) <==> (f == concepts ==> NormItems(names) == NormItems(others))
  {
    OnlyMember(ConceptWith(names), f);
    OnlyMember(ConceptWith(others), f);
    if f == concepts {
      InnerNorm(names);
      InnerNorm(others);
      var a, b := Norm(Obj([Member([0x61], Arr(names))])), Norm(Obj([Member([0x61], Arr(others))]));
      assert NormItems(ConceptWith(names).members[0].value.items) == [a];
      assert NormItems(ConceptWith(others).members[0].value.items) == [b];
      assert multiset([a])[a] == 1;
    }
  }

  lemma OnlyMember(doc: Value, f: Field)
    requires doc.Obj? && |doc.members| == 1 && doc.members[0].key == Key(concepts)
    ensures Get(doc, Key(f)) == if f == concepts then doc.members[0].value else Undefined
  {
    if Key(f) == Key(concepts) { KeysDiffer(f, concepts); }
    assert doc.members[1..] == [] && Find([], Key(f)) == Undefined;
  }

  lemma InnerNorm(names: seq<Value>)
    ensures Norm(Obj([Member([0x61], Arr(names))])) == Obj([Member([0x61], Arr(NormItems(names)))])
  {
    var ms := [Member([0x61], Arr(names))];
    SerShape(Obj(ms));
    SerShape(Arr(names));
    assert ms[1..] == [] && Kept([]) == [];
    assert Kept(ms) == ms;
    Sorting.SortedIsFixed(ms, KeyLe);
    assert NormMembers(ms) == [Member([0x61], Arr(NormItems(names)))];
  }
}
