/**
 The semantic rules of a compiled contract.  The validator scans each list once with a set or a map
 beside it; the specification says pairwise what each report means.
 */
module SemanticRules {
  import opened Options
  import opened Contracts

  datatype Problem =
    | DUPLICATE_SOURCE_KEY(i: nat)
    | DUPLICATE_CONCEPT(i: nat)
    | UNKNOWN_SOURCE_OBJECT(i: nat)
    | INVALID_TRANSITION_STATE(i: nat, j: nat)
    | FIELD_NAME_OVERLAP(i: nat, field: string)
    | UNKNOWN_DISTINCT_REF(i: nat, ref: string)
    | SELF_DISTINCT_PAIR(i: nat)
    | REPEATED_PAIR_MEMBER(i: nat, ref: string)
    | AMBIGUOUS_MEANING(i: nat)
    | STATUS_MISMATCH
    | INVALID_SIDE_EFFECT_COUNT(i: nat)
    | DUPLICATE_SIDE_EFFECT_ID(i: nat)
    | SIDE_EFFECT_ID_MISMATCH(i: nat)
    | DIGEST_MISMATCH

  datatype Notice =
    | MISSING_DIGEST_MEANING(i: nat)
    | MISSING_IDENTITY_MEANING(i: nat)
    | MISSING_SOURCE_OF_TRUTH(i: nat)
    | FORBIDDEN_ALTERNATIVE_OVERLAP(i: nat, alternative: string, owner: string)

  // ---------------------------------------------------------------------------
  // What each report means
  // ---------------------------------------------------------------------------

  /** An equal key stands earlier in the list. */
  predicate Repeats(keys: seq<string>, i: nat) { i < |keys| && exists j :: 0 <= j < i && keys[j] == keys[i] }

  function Keys(os: seq<SourceObject>): seq<string> { seq(|os|, i requires 0 <= i < |os| => os[i].key) }
  function Names(cs: seq<Concept>): seq<string> { seq(|cs|, i requires 0 <= i < |cs| => cs[i].name) }
  function Ids(ss: seq<SideEffect>): seq<string> { seq(|ss|, i requires 0 <= i < |ss| => ss[i].sideEffectId) }
  function FieldLists(cs: seq<Concept>): seq<seq<string>> { seq(|cs|, i requires 0 <= i < |cs| => cs[i].authoritativeFieldNames) }
  function AlternativeLists(cs: seq<Concept>): seq<seq<string>> { seq(|cs|, i requires 0 <= i < |cs| => cs[i].forbiddenAlternatives) }

  /** The name under which a word was claimed first, reading the lists in order. */
  function FirstOwner(names: seq<string>, lists: seq<seq<string>>, word: string): (r: Option<string>)
    requires |names| == |lists|
    ensures r.None? <==> forall i :: 0 <= i < |lists| ==> word !in lists[i]
    ensures r.Some? ==> exists i :: 0 <= i < |lists| && word in lists[i] && names[i] == r.value
  {
    if lists == [] then None else
      var n := |lists| - 1;
      var before := FirstOwner(names[..n], lists[..n], word);
      if before.Some? then before else if word in lists[n] then Some(names[n]) else None
  }

  /** A list claims a word that a differently named list before it claimed first. */
  predicate Clashes(names: seq<string>, lists: seq<seq<string>>, i: nat, word: string)
    requires |names| == |lists|
  {
    && i < |lists| && word in lists[i]
    && FirstOwner(names[..i], lists[..i], word).Some? && FirstOwner(names[..i], lists[..i], word).value != names[i]
  }

  predicate HasConcept(cs: seq<Concept>, name: string) { exists c :: c in cs && c.name == name }

  /** The first concept of a name. */
  function ConceptNamed(cs: seq<Concept>, name: string): (r: Option<Concept>)
    ensures r.Some? <==> HasConcept(cs, name)
    ensures r.Some? ==> r.value in cs && r.value.name == name
  {
    if cs == [] then None else
      var before := ConceptNamed(cs[..|cs| - 1], name);
      var last := cs[|cs| - 1];
      assert cs == cs[..|cs| - 1] + [last];
      if before.Some? then before else if last.name == name then Some(last) else None
  }

  predicate Says(m: Option<string>) { m.Some? && m.value != "" }

  /** The non-empty meanings of a concept. */
  function Meanings(c: Concept): (ms: set<string>)
    ensures forall m :: m in ms <==> m != "" && (c.digestMeaning == Some(m) || c.identityMeaning == Some(m))
  {
    (if Says(c.digestMeaning) then {c.digestMeaning.value} else {}) + (if Says(c.identityMeaning) then {c.identityMeaning.value} else {})
  }

  predicate SharedMeaning(cs: seq<Concept>, d: DistinctPair) {
    && HasConcept(cs, d.conceptA) && HasConcept(cs, d.conceptB)
    && Meanings(ConceptNamed(cs, d.conceptA).value) * Meanings(ConceptNamed(cs, d.conceptB).value) != {}
  }

  predicate BadTransition(c: Concept, t: Transition) { c.lifecycle != [] && (t.from !in c.lifecycle || t.to !in c.lifecycle) }

  function Refs(d: DistinctPair): seq<string> { [d.conceptA, d.conceptB] + d.alsoDistinctFrom }

  /** When a report is due, for each code, in terms of the document alone. */
  predicate Due(p: Platform, doc: Contract, x: Problem) {
    var k := doc.content;
    match x
    case DUPLICATE_SOURCE_KEY(i) => Repeats(Keys(k.sourceObjects), i)
    case DUPLICATE_CONCEPT(i) => Repeats(Names(k.concepts), i)
    case UNKNOWN_SOURCE_OBJECT(i) =>
      i < |k.concepts| && k.concepts[i].sourceObjectKey.Some? && k.concepts[i].sourceObjectKey.value !in Keys(k.sourceObjects)
    case INVALID_TRANSITION_STATE(i, j) =>
      i < |k.concepts| && j < |k.concepts[i].allowedTransitions| && BadTransition(k.concepts[i], k.concepts[i].allowedTransitions[j])
    case FIELD_NAME_OVERLAP(i, field) => Clashes(Names(k.concepts), FieldLists(k.concepts), i, field)
    case UNKNOWN_DISTINCT_REF(i, ref) =>
      i < |k.distinctConcepts| && ref in Refs(k.distinctConcepts[i]) && !HasConcept(k.concepts, ref)
    case SELF_DISTINCT_PAIR(i) => i < |k.distinctConcepts| && k.distinctConcepts[i].conceptA == k.distinctConcepts[i].conceptB
    case REPEATED_PAIR_MEMBER(i, ref) =>
      && i < |k.distinctConcepts| && ref in k.distinctConcepts[i].alsoDistinctFrom
      && ref in {k.distinctConcepts[i].conceptA, k.distinctConcepts[i].conceptB}
    case AMBIGUOUS_MEANING(i) => i < |k.distinctConcepts| && SharedMeaning(k.concepts, k.distinctConcepts[i])
    case STATUS_MISMATCH => doc.compileStatus != ComputeCompileStatus(k.unresolvedSemantics)
    case INVALID_SIDE_EFFECT_COUNT(i) => i < |k.negativeSideEffects| && k.negativeSideEffects[i].spec.expectedCount < 0
    case DUPLICATE_SIDE_EFFECT_ID(i) =>
      i < |k.negativeSideEffects| && ValidSideEffectId(k.negativeSideEffects[i].sideEffectId) && Repeats(Ids(k.negativeSideEffects), i)
    case SIDE_EFFECT_ID_MISMATCH(i) =>
      && i < |k.negativeSideEffects| && ValidSideEffectId(k.negativeSideEffects[i].sideEffectId)
      && !Repeats(Ids(k.negativeSideEffects), i)
      && p.sideEffectId(k.negativeSideEffects[i].spec) != k.negativeSideEffects[i].sideEffectId
    case DIGEST_MISMATCH => p.semanticDigest(k) != doc.semanticDigest
  }

  predicate NoticeDue(k: Content, x: Notice) {
    match x
    case MISSING_DIGEST_MEANING(i) => i < |k.concepts| && k.concepts[i].kind == DigestKind && !Says(k.concepts[i].digestMeaning)
    case MISSING_IDENTITY_MEANING(i) => i < |k.concepts| && k.concepts[i].kind == IdentityKind && !Says(k.concepts[i].identityMeaning)
    case MISSING_SOURCE_OF_TRUTH(i) => i < |k.concepts| && k.concepts[i].sourceObjectKey.None?
    case FORBIDDEN_ALTERNATIVE_OVERLAP(i, a, owner) =>
      && Clashes(Names(k.concepts), AlternativeLists(k.concepts), i, a)
      && FirstOwner(Names(k.concepts)[..i], AlternativeLists(k.concepts)[..i], a) == Some(owner)
  }

  // ---------------------------------------------------------------------------
  // The scans
  // ---------------------------------------------------------------------------

  /** The duplicate scan: one pass with a set of what was seen. */
  method ScanDuplicates(keys: seq<string>) returns (repeats: seq<nat>, seen: set<string>)
    ensures forall i: nat :: i in repeats <==> Repeats(keys, i)
    ensures forall k :: k in seen <==> k in keys
  {
    repeats, seen := [], {};
    for i := 0 to |keys|
      invariant forall j: nat :: j in repeats <==> j < i && Repeats(keys, j)
      invariant forall k :: k in seen <==> exists j :: 0 <= j < i && keys[j] == k
    {
      if keys[i] in seen { repeats := repeats + [i]; } else { seen := seen + {keys[i]}; }
    }
  }

  /** A claim that clashes: which list, which word, and who owned it. */
  datatype Claim = Claim(i: nat, word: string, owner: string)

  /** One list's claims against the owners so far. */
  method ScanList(names: seq<string>, lists: seq<seq<string>>, i: nat, owners: map<string, string>)
    returns (clashes: seq<Claim>, owners': map<string, string>)
    requires |names| == |lists| && i < |lists|
    requires forall w :: FirstOwner(names[..i], lists[..i], w) == if w in owners then Some(owners[w]) else None
    ensures forall w :: FirstOwner(names[..i + 1], lists[..i + 1], w) == if w in owners' then Some(owners'[w]) else None
    ensures forall c :: c in clashes <==> c.i == i && Clashes(names, lists, i, c.word) && FirstOwner(names[..i], lists[..i], c.word) == Some(c.owner)
  {
    clashes, owners' := [], owners;
    var words := lists[i];
    for n := 0 to |words|
      invariant forall w :: w in owners' <==> w in owners || w in words[..n]
      invariant forall w :: w in owners' ==> owners'[w] == if w in owners then owners[w] else names[i]
      invariant forall c :: c in clashes <==>
                  c.i == i && c.word in words[..n] && c.word in owners && owners[c.word] != names[i] && c.owner == owners[c.word]
    {
      var w := words[n];
      assert words[..n + 1] == words[..n] + [w];
      if w in owners' && owners'[w] != names[i] {
        clashes := clashes + [Claim(i, w, owners'[w])];
      } else if w !in owners' {
        owners' := owners'[w := names[i]];
      }
    }
    assert words[..|words|] == words;
    assert names[..i + 1][..i] == names[..i] && lists[..i + 1][..i] == lists[..i];
  }

  /** The owner scan: one map from word to the name that claimed it first. */
  method ScanOwners(names: seq<string>, lists: seq<seq<string>>) returns (clashes: seq<Claim>)
    requires |names| == |lists|
    ensures forall c :: c in clashes <==> Clashes(names, lists, c.i, c.word) && FirstOwner(names[..c.i], lists[..c.i], c.word) == Some(c.owner)
  {
    clashes := [];
    var owners: map<string, string> := map[];
    for i := 0 to |lists|
      invariant forall w :: FirstOwner(names[..i], lists[..i], w) == if w in owners then Some(owners[w]) else None
      invariant forall c :: c in clashes <==>
                  c.i < i && Clashes(names, lists, c.i, c.word) && FirstOwner(names[..c.i], lists[..c.i], c.word) == Some(c.owner)
    {
      var found;
      found, owners := ScanList(names, lists, i, owners);
      clashes := clashes + found;
    }
  }

  predicate AboutConcept(x: Problem) { x.DUPLICATE_CONCEPT? || x.UNKNOWN_SOURCE_OBJECT? || x.INVALID_TRANSITION_STATE? }

  predicate AboutPair(x: Problem) { x.UNKNOWN_DISTINCT_REF? || x.SELF_DISTINCT_PAIR? || x.REPEATED_PAIR_MEMBER? || x.AMBIGUOUS_MEANING? }

  /** The transitions of one concept. */
  method TransitionRules(c: Concept, i: nat) returns (found: seq<Problem>)
    ensures forall x :: x in found <==>
              x.INVALID_TRANSITION_STATE? && x.i == i && x.j < |c.allowedTransitions| && BadTransition(c, c.allowedTransitions[x.j])
  {
    found := [];
    if c.lifecycle == [] { return; }
    for j := 0 to |c.allowedTransitions|
      invariant forall x :: x in found <==>
                  x.INVALID_TRANSITION_STATE? && x.i == i && x.j < j && BadTransition(c, c.allowedTransitions[x.j])
    {
      var t := c.allowedTransitions[j];
      if t.from !in c.lifecycle || t.to !in c.lifecycle { found := found + [INVALID_TRANSITION_STATE(i, j)]; }
    }
  }

  /** One concept on its own: its source object and its transitions. */
  method OneConcept(p: Platform, doc: Contract, i: nat, sourceKeys: set<string>) returns (found: seq<Problem>)
    requires i < |doc.content.concepts| && forall k :: k in sourceKeys <==> k in Keys(doc.content.sourceObjects)
    ensures forall x :: x in found <==> AboutConcept(x) && !x.DUPLICATE_CONCEPT? && x.i == i && Due(p, doc, x)
  {
    var c := doc.content.concepts[i];
    var origin := [];
    if c.sourceObjectKey.Some? && c.sourceObjectKey.value !in sourceKeys { origin := [UNKNOWN_SOURCE_OBJECT(i)]; }
    var transitions := TransitionRules(c, i);
    found := origin + transitions;
  }

  /** Concept identity: names, origins and transitions, in one pass. */
  method ConceptRules(p: Platform, doc: Contract, sourceKeys: set<string>) returns (found: seq<Problem>)
    requires forall k :: k in sourceKeys <==> k in Keys(doc.content.sourceObjects)
    ensures forall x :: x in found <==> AboutConcept(x) && Due(p, doc, x)
  {
    var cs := doc.content.concepts;
    var seen := {};
    found := [];
    for i := 0 to |cs|
      invariant forall k :: k in seen <==> exists j :: 0 <= j < i && cs[j].name == k
      invariant forall x :: x in found <==> AboutConcept(x) && x.i < i && Due(p, doc, x)
    {
      var duplicate := [];
      if cs[i].name in seen { duplicate := [DUPLICATE_CONCEPT(i)]; } else { seen := seen + {cs[i].name}; }
      assert Repeats(Names(cs), i) <==> duplicate != [] by {
        assert forall j :: 0 <= j < i ==> Names(cs)[j] == cs[j].name;
      }
      var rest := OneConcept(p, doc, i, sourceKeys);
      found := found + duplicate + rest;
    }
  }

  /** What the concept pass notices without rejecting. */
  method ConceptNotices(k: Content) returns (found: seq<Notice>)
    ensures forall x :: x in found <==> !x.FORBIDDEN_ALTERNATIVE_OVERLAP? && NoticeDue(k, x)
  {
    found := [];
    for i := 0 to |k.concepts|
      invariant forall x :: x in found <==> !x.FORBIDDEN_ALTERNATIVE_OVERLAP? && x.i < i && NoticeDue(k, x)
    {
      var c := k.concepts[i];
      if c.kind == DigestKind && !Says(c.digestMeaning) { found := found + [MISSING_DIGEST_MEANING(i)]; }
      if c.kind == IdentityKind && !Says(c.identityMeaning) { found := found + [MISSING_IDENTITY_MEANING(i)]; }
      if c.sourceObjectKey.None? { found := found + [MISSING_SOURCE_OF_TRUTH(i)]; }
    }
  }

  /** One distinct pair: unknown references, self pairs, shared meanings. */
  method OnePair(p: Platform, doc: Contract, i: nat) returns (found: seq<Problem>)
    requires i < |doc.content.distinctConcepts|
    ensures forall x :: x in found <==> AboutPair(x) && x.i == i && Due(p, doc, x)
  {
    var cs, d := doc.content.concepts, doc.content.distinctConcepts[i];
    var unknown: seq<Problem>, repeated: seq<Problem> := [], [];
    var refs := Refs(d);
    for n := 0 to |refs|
      invariant forall x :: x in unknown <==> x.UNKNOWN_DISTINCT_REF? && x.i == i && x.ref in refs[..n] && !HasConcept(cs, x.ref)
    {
      assert refs[..n + 1] == refs[..n] + [refs[n]];
      if ConceptNamed(cs, refs[n]).None? { unknown := unknown + [UNKNOWN_DISTINCT_REF(i, refs[n])]; }
    }
    assert refs[..|refs|] == refs;
    for n := 0 to |d.alsoDistinctFrom|
      invariant forall x :: x in repeated <==>
                  x.REPEATED_PAIR_MEMBER? && x.i == i && x.ref in d.alsoDistinctFrom[..n] && x.ref in {d.conceptA, d.conceptB}
    {
      var ref := d.alsoDistinctFrom[n];
      assert d.alsoDistinctFrom[..n + 1] == d.alsoDistinctFrom[..n] + [ref];
      if ref == d.conceptA || ref == d.conceptB { repeated := repeated + [REPEATED_PAIR_MEMBER(i, ref)]; }
    }
    assert d.alsoDistinctFrom[..|d.alsoDistinctFrom|] == d.alsoDistinctFrom;
    var self := if d.conceptA == d.conceptB then [SELF_DISTINCT_PAIR(i)] else [];
    var a, b := ConceptNamed(cs, d.conceptA), ConceptNamed(cs, d.conceptB);
    var ambiguous := if a.Some? && b.Some? && Meanings(a.value) * Meanings(b.value) != {} then [AMBIGUOUS_MEANING(i)] else [];
    found := unknown + self + repeated + ambiguous;
  }

  method PairRules(p: Platform, doc: Contract) returns (found: seq<Problem>)
    ensures forall x :: x in found <==> AboutPair(x) && Due(p, doc, x)
  {
    found := [];
    for i := 0 to |doc.content.distinctConcepts|
      invariant forall x :: x in found <==> AboutPair(x) && x.i < i && Due(p, doc, x)
    {
      var one := OnePair(p, doc, i);
      found := found + one;
    }
  }

  /** Negative side effects: counts in one pass, identities in another. */
  method SideEffectRules(p: Platform, doc: Contract) returns (counts: seq<Problem>, ids: seq<Problem>)
    ensures forall x :: x in counts <==> x.INVALID_SIDE_EFFECT_COUNT? && Due(p, doc, x)
    ensures forall x :: x in ids <==> (x.DUPLICATE_SIDE_EFFECT_ID? || x.SIDE_EFFECT_ID_MISMATCH?) && Due(p, doc, x)
  {
    var ss := doc.content.negativeSideEffects;
    counts, ids := [], [];
    for i := 0 to |ss|
      invariant forall x :: x in counts <==> x.INVALID_SIDE_EFFECT_COUNT? && x.i < i && Due(p, doc, x)
    {
      if ss[i].spec.expectedCount < 0 { counts := counts + [INVALID_SIDE_EFFECT_COUNT(i)]; }
    }
    var seen := {};
    for i := 0 to |ss|
      invariant forall k :: k in seen <==> ValidSideEffectId(k) && exists j :: 0 <= j < i && Ids(ss)[j] == k
      invariant forall x :: x in ids <==> (x.DUPLICATE_SIDE_EFFECT_ID? || x.SIDE_EFFECT_ID_MISMATCH?) && x.i < i && Due(p, doc, x)
    {
      var id := ss[i].sideEffectId;
      assert Ids(ss)[i] == id;
      if ValidSideEffectId(id) {
        if id in seen {
          ids := ids + [DUPLICATE_SIDE_EFFECT_ID(i)];
        } else {
          seen := seen + {id};
          if p.sideEffectId(ss[i].spec) != id { ids := ids + [SIDE_EFFECT_ID_MISMATCH(i)]; }
        }
      }
    }
  }

  /** Source-object keys; the keys are kept for the concepts that refer to them. */
  method SourceKeyRules(p: Platform, doc: Contract) returns (found: seq<Problem>, sourceKeys: set<string>)
    ensures forall x :: x in found <==> x.DUPLICATE_SOURCE_KEY? && Due(p, doc, x)
    ensures forall k :: k in sourceKeys <==> k in Keys(doc.content.sourceObjects)
  {
    var repeats;
    repeats, sourceKeys := ScanDuplicates(Keys(doc.content.sourceObjects));
    found := [];
    for n := 0 to |repeats|
      invariant forall x :: x in found <==> x.DUPLICATE_SOURCE_KEY? && x.i in repeats[..n]
    {
      assert repeats[..n + 1] == repeats[..n] + [repeats[n]];
      found := found + [DUPLICATE_SOURCE_KEY(repeats[n])];
    }
    assert repeats[..|repeats|] == repeats;
  }

  /** No field is authoritative for two differently named concepts. */
  method FieldRules(p: Platform, doc: Contract) returns (found: seq<Problem>)
    ensures forall x :: x in found <==> x.FIELD_NAME_OVERLAP? && Due(p, doc, x)
  {
    var names, lists := Names(doc.content.concepts), FieldLists(doc.content.concepts);
    var claims := ScanOwners(names, lists);
    found := [];
    for n := 0 to |claims|
      invariant forall x :: x in found <==> x.FIELD_NAME_OVERLAP? && exists c :: c in claims[..n] && c.i == x.i && c.word == x.field
    {
      assert claims[..n + 1] == claims[..n] + [claims[n]];
      found := found + [FIELD_NAME_OVERLAP(claims[n].i, claims[n].word)];
    }
    assert claims[..|claims|] == claims;
    forall x: Problem | x.FIELD_NAME_OVERLAP? && Due(p, doc, x) ensures x in found {
      assert Claim(x.i, x.field, FirstOwner(names[..x.i], lists[..x.i], x.field).value) in claims;
    }
  }

  method AlternativeNotices(k: Content) returns (found: seq<Notice>)
    ensures forall x :: x in found <==> x.FORBIDDEN_ALTERNATIVE_OVERLAP? && NoticeDue(k, x)
  {
    var claims := ScanOwners(Names(k.concepts), AlternativeLists(k.concepts));
    found := [];
    for n := 0 to |claims|
      invariant forall x :: x in found <==>
                  x.FORBIDDEN_ALTERNATIVE_OVERLAP? && Claim(x.i, x.alternative, x.owner) in claims[..n]
    {
      assert claims[..n + 1] == claims[..n] + [claims[n]];
      found := found + [FORBIDDEN_ALTERNATIVE_OVERLAP(claims[n].i, claims[n].word, claims[n].owner)];
    }
    assert claims[..|claims|] == claims;
  }

  /** Every report that is due is made, and no other: the scans are sound and complete, code by code. */
  method ApplySemanticRules(p: Platform, doc: Contract) returns (errors: seq<Problem>, warnings: seq<Notice>)
    ensures forall x :: x in errors <==> Due(p, doc, x)
    ensures forall x :: x in warnings <==> NoticeDue(doc.content, x)
  {
    var keys, sourceKeys := SourceKeyRules(p, doc);
    var concepts := ConceptRules(p, doc, sourceKeys);
    var missing := ConceptNotices(doc.content);
    var overlaps := FieldRules(p, doc);
    var alternatives := AlternativeNotices(doc.content);
    var pairs := PairRules(p, doc);
    var status := if doc.compileStatus != ComputeCompileStatus(doc.content.unresolvedSemantics) then [STATUS_MISMATCH] else [];
    var counts, ids := SideEffectRules(p, doc);
    var digest := if p.semanticDigest(doc.content) != doc.semanticDigest then [DIGEST_MISMATCH] else [];
    errors := keys + concepts + overlaps + pairs + status + counts + ids + digest;
    warnings := missing + alternatives;
  }

  // ---------------------------------------------------------------------------
  // What a document without reports is
  // ---------------------------------------------------------------------------

  predicate Distinct(keys: seq<string>) { forall i, j :: 0 <= i < j < |keys| ==> keys[i] != keys[j] }

  /** Two concepts that claim one field have one name. */
  predicate FieldsOwnedOnce(cs: seq<Concept>) {
    forall i, j, f ::
      0 <= i < |cs| && 0 <= j < |cs| && f in cs[i].authoritativeFieldNames && f in cs[j].authoritativeFieldNames ==>
        cs[i].name == cs[j].name
  }

  predicate ConceptOk(cs: seq<Concept>, os: seq<SourceObject>, c: Concept) {
    && (c.sourceObjectKey.Some? ==> c.sourceObjectKey.value in Keys(os))
    && forall t :: t in c.allowedTransitions ==> !BadTransition(c, t)
  }

  predicate PairOk(cs: seq<Concept>, d: DistinctPair) {
    && d.conceptA != d.conceptB && HasConcept(cs, d.conceptA) && HasConcept(cs, d.conceptB)
    && (forall ref :: ref in d.alsoDistinctFrom ==> HasConcept(cs, ref) && ref != d.conceptA && ref != d.conceptB)
    && forall a, b :: a in cs && b in cs && a.name == d.conceptA && b.name == d.conceptB ==> Meanings(a) * Meanings(b) == {}
  }

  /** Identities that have the right form are unique and made from the content. */
  predicate IdentitiesOk(p: Platform, ss: seq<SideEffect>) {
    && (forall s :: s in ss && ValidSideEffectId(s.sideEffectId) ==> s.sideEffectId == p.sideEffectId(s.spec))
    && (forall i, j :: 0 <= i < j < |ss| && ValidSideEffectId(ss[i].sideEffectId) ==> ss[i].sideEffectId != ss[j].sideEffectId)
  }

  predicate ContentOk(p: Platform, k: Content) {
    && Distinct(Keys(k.sourceObjects)) && Distinct(Names(k.concepts)) && FieldsOwnedOnce(k.concepts)
    && (forall c :: c in k.concepts ==> ConceptOk(k.concepts, k.sourceObjects, c))
    && (forall d :: d in k.distinctConcepts ==> PairOk(k.concepts, d))
    && (forall s :: s in k.negativeSideEffects ==> s.spec.expectedCount >= 0)
    && IdentitiesOk(p, k.negativeSideEffects)
  }

  predicate SemanticallyValid(p: Platform, doc: Contract) {
    && ContentOk(p, doc.content)
    && doc.compileStatus == ComputeCompileStatus(doc.content.unresolvedSemantics)
    && doc.semanticDigest == p.semanticDigest(doc.content)
  }

  lemma NoRepeats(keys: seq<string>)
    ensures (forall i: nat :: !Repeats(keys, i)) <==> Distinct(keys)
  {
    if forall i: nat :: !Repeats(keys, i) {
      forall i, j | 0 <= i < j < |keys| ensures keys[i] != keys[j] { assert !Repeats(keys, j); }
    }
  }

  lemma FirstOwnerIsEarlier(names: seq<string>, lists: seq<seq<string>>, i: nat, w: string)
    requires |names| == |lists| && i < |lists|
    ensures Clashes(names, lists, i, w) ==> exists j: nat :: j < i && w in lists[j] && w in lists[i] && names[j] != names[i]
  {
    if Clashes(names, lists, i, w) {
      var j: nat :| j < i && w in lists[..i][j] && names[..i][j] == FirstOwner(names[..i], lists[..i], w).value;
      assert w in lists[j] && names[j] != names[i];
    }
  }

  /** No clash with a first owner is the same as no clash between any two claims. */
  lemma NoClashes(cs: seq<Concept>)
    ensures (forall i: nat, w :: !Clashes(Names(cs), FieldLists(cs), i, w)) <==> FieldsOwnedOnce(cs)
  {
    var names, lists := Names(cs), FieldLists(cs);
    if FieldsOwnedOnce(cs) {
      forall i: nat, w | i < |cs| ensures !Clashes(names, lists, i, w) {
        FirstOwnerIsEarlier(names, lists, i, w);
      }
    }
    if forall i: nat, w :: !Clashes(names, lists, i, w) {
      forall i, j, f | 0 <= i < |cs| && 0 <= j < |cs| && f in cs[i].authoritativeFieldNames && f in cs[j].authoritativeFieldNames
        ensures cs[i].name == cs[j].name
      {
        OwnerOfEveryClaim(names, lists, i, f);
        OwnerOfEveryClaim(names, lists, j, f);
      }
    }
  }

  /** Without clashes every claim belongs to the first owner. */
  lemma {:induction false} OwnerOfEveryClaim(names: seq<string>, lists: seq<seq<string>>, i: nat, w: string)
    requires |names| == |lists| && i < |lists| && w in lists[i]
    requires forall j: nat :: !Clashes(names, lists, j, w)
    ensures FirstOwner(names, lists, w) == Some(names[i])
  {
    assert !Clashes(names, lists, i, w);
    OwnerGrows(names, lists, i, w);
  }

  lemma {:induction false} OwnerGrows(names: seq<string>, lists: seq<seq<string>>, i: nat, w: string)
    requires |names| == |lists| && i < |lists| && w in lists[i]
    requires FirstOwner(names[..i], lists[..i], w) in {None, Some(names[i])}
    ensures FirstOwner(names, lists, w) == Some(names[i])
  {
    var n := |lists| - 1;
    if i < n {
      assert names[..n][..i] == names[..i] && lists[..n][..i] == lists[..i];
      OwnerGrows(names[..n], lists[..n], i, w);
    }
  }

  lemma ConceptsClean(p: Platform, doc: Contract)
    ensures (forall x :: AboutConcept(x) && !x.DUPLICATE_CONCEPT? ==> !Due(p, doc, x))
            <==> forall c :: c in doc.content.concepts ==> ConceptOk(doc.content.concepts, doc.content.sourceObjects, c)
  {
    var k := doc.content;
    if forall x :: AboutConcept(x) && !x.DUPLICATE_CONCEPT? ==> !Due(p, doc, x) {
      forall c | c in k.concepts ensures ConceptOk(k.concepts, k.sourceObjects, c) {
        var i: nat :| i < |k.concepts| && k.concepts[i] == c;
        assert !Due(p, doc, UNKNOWN_SOURCE_OBJECT(i));
        forall t | t in c.allowedTransitions ensures !BadTransition(c, t) {
          var j: nat :| j < |c.allowedTransitions| && c.allowedTransitions[j] == t;
          assert !Due(p, doc, INVALID_TRANSITION_STATE(i, j));
        }
      }
    }
    if forall c :: c in k.concepts ==> ConceptOk(k.concepts, k.sourceObjects, c) {
      forall x | AboutConcept(x) && !x.DUPLICATE_CONCEPT? ensures !Due(p, doc, x) {
        if x.i < |k.concepts| { assert ConceptOk(k.concepts, k.sourceObjects, k.concepts[x.i]); }
      }
    }
  }

  lemma OnlyConceptOfItsName(cs: seq<Concept>, c: Concept)
    requires Distinct(Names(cs)) && c in cs
    ensures ConceptNamed(cs, c.name) == Some(c)
  {
    var d := ConceptNamed(cs, c.name).value;
    var i: nat :| i < |cs| && cs[i] == c;
    var j: nat :| j < |cs| && cs[j] == d;
    assert Names(cs)[i] == Names(cs)[j];
  }

  ghost predicate PairQuiet(p: Platform, doc: Contract, i: nat) { forall x :: AboutPair(x) && x.i == i ==> !Due(p, doc, x) }

  lemma QuietPairIsOk(p: Platform, doc: Contract, i: nat)
    requires Distinct(Names(doc.content.concepts)) && i < |doc.content.distinctConcepts| && PairQuiet(p, doc, i)
    ensures PairOk(doc.content.concepts, doc.content.distinctConcepts[i])
  {
    var cs, d := doc.content.concepts, doc.content.distinctConcepts[i];
    assert !Due(p, doc, SELF_DISTINCT_PAIR(i)) && !Due(p, doc, AMBIGUOUS_MEANING(i));
    assert d.conceptA in Refs(d) && d.conceptB in Refs(d);
    assert !Due(p, doc, UNKNOWN_DISTINCT_REF(i, d.conceptA)) && !Due(p, doc, UNKNOWN_DISTINCT_REF(i, d.conceptB));
    forall ref | ref in d.alsoDistinctFrom ensures HasConcept(cs, ref) && ref != d.conceptA && ref != d.conceptB {
      assert ref in Refs(d);
      assert !Due(p, doc, UNKNOWN_DISTINCT_REF(i, ref)) && !Due(p, doc, REPEATED_PAIR_MEMBER(i, ref));
    }
    forall a, b | a in cs && b in cs && a.name == d.conceptA && b.name == d.conceptB ensures Meanings(a) * Meanings(b) == {} {
      OnlyConceptOfItsName(cs, a);
      OnlyConceptOfItsName(cs, b);
    }
  }

  lemma OkPairIsQuiet(p: Platform, doc: Contract, i: nat)
    requires i < |doc.content.distinctConcepts| && PairOk(doc.content.concepts, doc.content.distinctConcepts[i])
    ensures PairQuiet(p, doc, i)
  {
    var cs, d := doc.content.concepts, doc.content.distinctConcepts[i];
    forall ref | ref in Refs(d) ensures HasConcept(cs, ref) {
      assert ref == d.conceptA || ref == d.conceptB || ref in d.alsoDistinctFrom;
    }
  }

  lemma PairsClean(p: Platform, doc: Contract)
    requires Distinct(Names(doc.content.concepts))
    ensures (forall x :: AboutPair(x) ==> !Due(p, doc, x))
            <==> forall d :: d in doc.content.distinctConcepts ==> PairOk(doc.content.concepts, d)
  {
    var ds := doc.content.distinctConcepts;
    if forall x :: AboutPair(x) ==> !Due(p, doc, x) {
      forall d | d in ds ensures PairOk(doc.content.concepts, d) {
        var i: nat :| i < |ds| && ds[i] == d;
        QuietPairIsOk(p, doc, i);
      }
    }
    if forall d :: d in ds ==> PairOk(doc.content.concepts, d) {
      forall x | AboutPair(x) ensures !Due(p, doc, x) {
        if x.i < |ds| { OkPairIsQuiet(p, doc, x.i); }
      }
    }
  }

  lemma SideEffectsClean(p: Platform, doc: Contract)
    ensures (forall x: Problem :: x.INVALID_SIDE_EFFECT_COUNT? ==> !Due(p, doc, x))
            <==> forall s :: s in doc.content.negativeSideEffects ==> s.spec.expectedCount >= 0
    ensures (forall x: Problem :: x.DUPLICATE_SIDE_EFFECT_ID? || x.SIDE_EFFECT_ID_MISMATCH? ==> !Due(p, doc, x))
            <==> IdentitiesOk(p, doc.content.negativeSideEffects)
  {
    var ss := doc.content.negativeSideEffects;
    if forall x: Problem :: x.INVALID_SIDE_EFFECT_COUNT? ==> !Due(p, doc, x) {
      forall s | s in ss ensures s.spec.expectedCount >= 0 {
        var i: nat :| i < |ss| && ss[i] == s;
        assert !Due(p, doc, INVALID_SIDE_EFFECT_COUNT(i));
      }
    }
    if forall x: Problem :: x.DUPLICATE_SIDE_EFFECT_ID? || x.SIDE_EFFECT_ID_MISMATCH? ==> !Due(p, doc, x) {
      forall i, j | 0 <= i < j < |ss| && ValidSideEffectId(ss[i].sideEffectId) ensures ss[i].sideEffectId != ss[j].sideEffectId {
        assert !Due(p, doc, DUPLICATE_SIDE_EFFECT_ID(j));
        assert Ids(ss)[i] == ss[i].sideEffectId && Ids(ss)[j] == ss[j].sideEffectId;
      }
      forall s | s in ss && ValidSideEffectId(s.sideEffectId) ensures s.sideEffectId == p.sideEffectId(s.spec) {
        var i: nat :| i < |ss| && ss[i] == s;
        assert !Due(p, doc, DUPLICATE_SIDE_EFFECT_ID(i)) && !Due(p, doc, SIDE_EFFECT_ID_MISMATCH(i));
      }
    }
  }

  /** No report is due exactly when the document is semantically valid. */
  lemma NothingDueIffValid(p: Platform, doc: Contract)
    ensures (forall x :: !Due(p, doc, x)) <==> SemanticallyValid(p, doc)
  {
    var k := doc.content;
    NoRepeats(Keys(k.sourceObjects));
    NoRepeats(Names(k.concepts));
    NoClashes(k.concepts);
    ConceptsClean(p, doc);
    SideEffectsClean(p, doc);
    if Distinct(Names(k.concepts)) { PairsClean(p, doc); }
    if forall x :: !Due(p, doc, x) {
      forall i: nat ensures !Repeats(Keys(k.sourceObjects), i) { assert !Due(p, doc, DUPLICATE_SOURCE_KEY(i)); }
      forall i: nat ensures !Repeats(Names(k.concepts), i) { assert !Due(p, doc, DUPLICATE_CONCEPT(i)); }
      forall i: nat, w ensures !Clashes(Names(k.concepts), FieldLists(k.concepts), i, w) { assert !Due(p, doc, FIELD_NAME_OVERLAP(i, w)); }
      assert !Due(p, doc, STATUS_MISMATCH) && !Due(p, doc, DIGEST_MISMATCH);
    }
  }

  /** A field overlap is reported exactly when two differently named concepts share a field. */
  lemma OverlapIffShared(p: Platform, doc: Contract)
    ensures (exists x: Problem :: x.FIELD_NAME_OVERLAP? && Due(p, doc, x)) <==>
            exists a, b, f :: a in doc.content.concepts && b in doc.content.concepts && a.name != b.name
                              && f in a.authoritativeFieldNames && f in b.authoritativeFieldNames
  {
    var cs := doc.content.concepts;
    NoClashes(cs);
    if exists x: Problem :: x.FIELD_NAME_OVERLAP? && Due(p, doc, x) {
      var i, j, f :| 0 <= i < |cs| && 0 <= j < |cs| && f in cs[i].authoritativeFieldNames && f in cs[j].authoritativeFieldNames
                     && cs[i].name != cs[j].name;
      assert cs[i] in cs && cs[j] in cs;
    } else {
      forall i: nat, w ensures !Clashes(Names(cs), FieldLists(cs), i, w) { assert !Due(p, doc, FIELD_NAME_OVERLAP(i, w)); }
    }
  }

  /** In a valid document no two side effects state the same requirement. */
  lemma RequirementsAreDistinct(p: Platform, doc: Contract, i: nat, j: nat)
    requires SemanticallyValid(p, doc) && i < j < |doc.content.negativeSideEffects|
    requires forall s :: s in doc.content.negativeSideEffects ==> ValidSideEffectId(s.sideEffectId)
    ensures doc.content.negativeSideEffects[i].spec != doc.content.negativeSideEffects[j].spec
  {
    assert doc.content.negativeSideEffects[i] in doc.content.negativeSideEffects;
    assert doc.content.negativeSideEffects[j] in doc.content.negativeSideEffects;
  }

  // ---------------------------------------------------------------------------
  // Authority
  // ---------------------------------------------------------------------------

  datatype Failure = SchemaInvalid | RuleProblem(first: Problem) | NotCompiled

  /** Why a document is not authoritative, or None. */
  method AuthorityFailureReason(p: Platform, doc: Contract) returns (reason: Option<Failure>)
    ensures reason.None? <==> IsAuthoritative(p, doc)
    ensures reason == Some(NotCompiled) <==> SchemaValid(p, doc) && SemanticallyValid(p, doc) && doc.compileStatus != COMPILED
    ensures reason.Some? && reason.value.RuleProblem? ==> Due(p, doc, reason.value.first)
  {
    if !SchemaValid(p, doc) { return Some(SchemaInvalid); }
    var errors, _ := ApplySemanticRules(p, doc);
    NothingDueIffValid(p, doc);
    if errors != [] {
      assert errors[0] in errors;
      return Some(RuleProblem(errors[0]));
    }
    reason := if doc.compileStatus != COMPILED then Some(NotCompiled) else None;
  }

  predicate IsAuthoritative(p: Platform, doc: Contract) {
    SchemaValid(p, doc) && SemanticallyValid(p, doc) && doc.compileStatus == COMPILED
  }
}
