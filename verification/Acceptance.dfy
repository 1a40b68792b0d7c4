/**
 Repair contracts and their validation against the semantic contract they were made from: one pass
 per rule with maps and sets, against a pairwise specification.
 */
module Acceptance {
  import opened Options
  import opened Contracts
  import opened SemanticRules
  import opened Lists

  datatype Test = Test(
    name: string, command: Option<string>, expectation: string, negativeSideEffectId: Option<string>,
    negativeSideEffectRef: Option<string>, negativeSideEffectScope: Option<Scope>, expectedSideEffectCount: Option<int>)
  datatype Change = Change(target: string, change: string)
  datatype Preserve = Preserve(target: string, reason: string)
  datatype Check = Check(method_: string, expectation: string)
  datatype Frozen = Frozen(
    sourceObjects: seq<SourceObject>, concepts: seq<Concept>, distinctConcepts: seq<DistinctPair>,
    negativeSideEffects: seq<SideEffect>, factsEstablished: seq<string>, unresolvedSemantics: seq<Unresolved>)

  datatype RepairContract = RepairContract(
    repairId: string, contractKey: string, sourceSemanticDigest: string, rejectedAcceptanceRefs: seq<string>,
    objective: string, violation: string, requiredBehavior: string, mustChange: seq<Change>, mustNotChange: seq<Preserve>,
    acceptanceTests: seq<Test>, negativeSideEffects: seq<SideEffect>, frozenSemantics: Frozen, verification: seq<Check>,
    findingRefs: Option<seq<string>>, riskClass: RiskClass, createdAt: string)

  datatype FrozenField = F_SourceObjects | F_Concepts | F_DistinctConcepts | F_NegativeSideEffects | F_FactsEstablished | F_UnresolvedSemantics

  datatype Rejection =
    | INVALID_CARRIED_COUNT(i: nat)
    | INVALID_TEST_COUNT(i: nat)
    | DUPLICATE_REJECTED_REF(i: nat)
    | SOURCE_NOT_AUTHORITATIVE
    | CONTRACT_KEY_MISMATCH
    | SOURCE_DIGEST_INVALID
    | SOURCE_DIGEST_MISMATCH
    | UNKNOWN_REJECTED_REF(ref: string)
    | UNBOUNDED_MUST_CHANGE(i: nat)
    | DUPLICATE_CARRIED_SIDE_EFFECT(i: nat)
    | SIDE_EFFECT_NOT_CARRIED(k: nat)
    | SIDE_EFFECT_CARRY_MISMATCH(k: nat)
    | SIDE_EFFECT_NOT_FROM_SOURCE(i: nat)
    | SIDE_EFFECT_TEST_MISSING(k: nat)
    | DUPLICATE_SIDE_EFFECT_TEST(k: nat)
    | SIDE_EFFECT_TEST_MISMATCH(k: nat)
    | FROZEN_REQUIREMENT_MISMATCH(field: FrozenField)

  function ScopeName(s: Scope): string {
    match s
    case provider_factory => "provider_factory"
    case network => "network"
    case database => "database"
    case lock => "lock"
    case mutation => "mutation"
  }

  // ---------------------------------------------------------------------------
  // Lookups
  // ---------------------------------------------------------------------------

  /** What an index built by overwriting holds: the last entry. */
  function LastWith(ss: seq<SideEffect>, id: string): (r: Option<SideEffect>)
    ensures r.Some? <==> exists s :: s in ss && s.sideEffectId == id
    ensures r.Some? ==> r.value in ss && r.value.sideEffectId == id
  {
    if ss == [] then None else
      var n := |ss| - 1;
      assert ss == ss[..n] + [ss[n]];
      if ss[n].sideEffectId == id then Some(ss[n]) else LastWith(ss[..n], id)
  }

  /** What an index that skips malformed and repeated identities holds: the first entry. */
  function FirstWith(ss: seq<SideEffect>, id: string): (r: Option<SideEffect>)
    ensures r.Some? <==> ValidSideEffectId(id) && exists s :: s in ss && s.sideEffectId == id
    ensures r.Some? ==> r.value in ss && r.value.sideEffectId == id
  {
    if ss == [] || !ValidSideEffectId(id) then None else
      var n := |ss| - 1;
      assert ss == ss[..n] + [ss[n]];
      var before := FirstWith(ss[..n], id);
      if before.Some? then before else if ss[n].sideEffectId == id then Some(ss[n]) else None
  }

  /** The tests that name a side effect. */
  function Naming(ts: seq<Test>, id: string): (r: seq<Test>)
    ensures forall t :: t in r <==> t in ts && t.negativeSideEffectId == Some(id)
  {
    if ts == [] then [] else
      var n := |ts| - 1;
      assert ts == ts[..n] + [ts[n]];
      Naming(ts[..n], id) + if ts[n].negativeSideEffectId == Some(id) then [ts[n]] else []
  }

  /** How often an identity is counted; malformed identities are not. */
  function References(ts: seq<Test>, id: string): nat { if ValidSideEffectId(id) then |Naming(ts, id)| else 0 }

  function Keep(ss: seq<SideEffect>, refs: seq<string>, rejected: bool): (r: seq<SideEffect>)
    ensures forall s :: s in r <==> s in ss && (s.sideEffectId in refs) == rejected
  {
    if ss == [] then [] else
      assert ss == [ss[0]] + ss[1..];
      (if (ss[0].sideEffectId in refs) == rejected then [ss[0]] else []) + Keep(ss[1..], refs, rejected)
  }

  predicate InScope(ss: seq<SideEffect>, refs: seq<string>, target: string) {
    exists ref :: ref in refs && LastWith(ss, ref).Some? && ScopeName(LastWith(ss, ref).value.spec.scope) == target
  }

  predicate Pins(t: Test, s: SideEffect) {
    t.negativeSideEffectScope == Some(s.spec.scope) && t.expectedSideEffectCount == Some(s.spec.expectedCount)
  }

  predicate FrozenAgrees(doc: RepairContract, k: Content, f: FrozenField) {
    match f
    case F_SourceObjects => doc.frozenSemantics.sourceObjects == k.sourceObjects
    case F_Concepts => doc.frozenSemantics.concepts == k.concepts
    case F_DistinctConcepts => doc.frozenSemantics.distinctConcepts == k.distinctConcepts
    case F_NegativeSideEffects => doc.frozenSemantics.negativeSideEffects == Keep(k.negativeSideEffects, doc.rejectedAcceptanceRefs, false)
    case F_FactsEstablished => doc.frozenSemantics.factsEstablished == k.factsEstablished
    case F_UnresolvedSemantics => doc.frozenSemantics.unresolvedSemantics == k.unresolvedSemantics
  }

  // ---------------------------------------------------------------------------
  // What each rejection means
  // ---------------------------------------------------------------------------

  predicate DueAlone(doc: RepairContract, x: Rejection) {
    match x
    case INVALID_CARRIED_COUNT(i) => i < |doc.negativeSideEffects| && doc.negativeSideEffects[i].spec.expectedCount < 0
    case INVALID_TEST_COUNT(i) =>
      && i < |doc.acceptanceTests| && doc.acceptanceTests[i].expectedSideEffectCount.Some?
      && doc.acceptanceTests[i].expectedSideEffectCount.value < 0
    case DUPLICATE_REJECTED_REF(i) => Repeats(doc.rejectedAcceptanceRefs, i)
    case _ => false
  }

  predicate DueFrom(p: Platform, doc: RepairContract, source: Contract, x: Rejection) {
    var ss, ts := source.content.negativeSideEffects, doc.acceptanceTests;
    match x
    case SOURCE_NOT_AUTHORITATIVE => !IsAuthoritative(p, source)
    case CONTRACT_KEY_MISMATCH => source.content.contractKey != doc.contractKey
    case SOURCE_DIGEST_INVALID => p.semanticDigest(source.content) != source.semanticDigest
    case SOURCE_DIGEST_MISMATCH =>
      p.semanticDigest(source.content) == source.semanticDigest && doc.sourceSemanticDigest != source.semanticDigest
    case UNKNOWN_REJECTED_REF(ref) => ref in doc.rejectedAcceptanceRefs && LastWith(ss, ref).None?
    case UNBOUNDED_MUST_CHANGE(i) => i < |doc.mustChange| && !InScope(ss, doc.rejectedAcceptanceRefs, doc.mustChange[i].target)
    case DUPLICATE_CARRIED_SIDE_EFFECT(i) =>
      && i < |doc.negativeSideEffects| && ValidSideEffectId(doc.negativeSideEffects[i].sideEffectId)
      && Repeats(Ids(doc.negativeSideEffects), i)
    case SIDE_EFFECT_NOT_CARRIED(k) => k < |ss| && FirstWith(doc.negativeSideEffects, ss[k].sideEffectId).None?
    case SIDE_EFFECT_CARRY_MISMATCH(k) =>
      && k < |ss| && FirstWith(doc.negativeSideEffects, ss[k].sideEffectId).Some?
      && FirstWith(doc.negativeSideEffects, ss[k].sideEffectId).value.spec != ss[k].spec
    case SIDE_EFFECT_NOT_FROM_SOURCE(i) =>
      i < |doc.negativeSideEffects| && LastWith(ss, doc.negativeSideEffects[i].sideEffectId).None?
    case SIDE_EFFECT_TEST_MISSING(k) => k < |ss| && References(ts, ss[k].sideEffectId) == 0
    case DUPLICATE_SIDE_EFFECT_TEST(k) => k < |ss| && References(ts, ss[k].sideEffectId) > 1
    case SIDE_EFFECT_TEST_MISMATCH(k) =>
      k < |ss| && References(ts, ss[k].sideEffectId) == 1 && !Pins(Naming(ts, ss[k].sideEffectId)[0], ss[k])
    case FROZEN_REQUIREMENT_MISMATCH(f) => !FrozenAgrees(doc, source.content, f)
    case _ => false
  }

  predicate RejectionDue(p: Platform, doc: RepairContract, source: Option<Contract>, x: Rejection) {
    DueAlone(doc, x) || (source.Some? && DueFrom(p, doc, source.value, x))
  }

  // ---------------------------------------------------------------------------
  // The passes
  // ---------------------------------------------------------------------------

  method RulesAlone(doc: RepairContract) returns (errors: seq<Rejection>)
    ensures forall x :: x in errors <==> DueAlone(doc, x)
  {
    errors := [];
    for i := 0 to |doc.negativeSideEffects|
      invariant forall x: Rejection :: x in errors <==> x.INVALID_CARRIED_COUNT? && x.i < i && DueAlone(doc, x)
    {
      if doc.negativeSideEffects[i].spec.expectedCount < 0 { errors := errors + [INVALID_CARRIED_COUNT(i)]; }
    }
    for i := 0 to |doc.acceptanceTests|
      invariant forall x: Rejection :: x in errors <==>
                  DueAlone(doc, x) && (x.INVALID_CARRIED_COUNT? || (x.INVALID_TEST_COUNT? && x.i < i))
    {
      var count := doc.acceptanceTests[i].expectedSideEffectCount;
      if count.Some? && count.value < 0 { errors := errors + [INVALID_TEST_COUNT(i)]; }
    }
    var seen: set<string> := {};
    for i := 0 to |doc.rejectedAcceptanceRefs|
      invariant forall k :: k in seen <==> k in doc.rejectedAcceptanceRefs[..i]
      invariant forall x: Rejection :: x in errors <==>
                  DueAlone(doc, x) && (!x.DUPLICATE_REJECTED_REF? || x.i < i)
    {
      var ref := doc.rejectedAcceptanceRefs[i];
      assert doc.rejectedAcceptanceRefs[..i + 1] == doc.rejectedAcceptanceRefs[..i] + [ref];
      assert ref in seen <==> Repeats(doc.rejectedAcceptanceRefs, i);
      if ref in seen { errors := errors + [DUPLICATE_REJECTED_REF(i)]; }
      seen := seen + {ref};
    }
  }

  /** The source's side effects by identity; a later entry overwrites. */
  method IndexById(ss: seq<SideEffect>) returns (byId: map<string, SideEffect>)
    ensures forall id :: LastWith(ss, id) == if id in byId then Some(byId[id]) else None
  {
    byId := map[];
    for n := 0 to |ss|
      invariant forall id :: LastWith(ss[..n], id) == if id in byId then Some(byId[id]) else None
    {
      assert ss[..n + 1][..n] == ss[..n];
      byId := byId[ss[n].sideEffectId := ss[n]];
    }
    assert ss[..|ss|] == ss;
  }

  predicate AboutSource(x: Rejection) {
    x.SOURCE_NOT_AUTHORITATIVE? || x.CONTRACT_KEY_MISMATCH? || x.SOURCE_DIGEST_INVALID? || x.SOURCE_DIGEST_MISMATCH?
  }

  /** Authority first, then the key and the digest. */
  method SourceRules(p: Platform, doc: RepairContract, source: Contract) returns (errors: seq<Rejection>)
    ensures forall x :: x in errors <==> AboutSource(x) && DueFrom(p, doc, source, x)
  {
    var reason := AuthorityFailureReason(p, source);
    var authority := if reason.Some? then [SOURCE_NOT_AUTHORITATIVE] else [];
    var key := if source.content.contractKey != doc.contractKey then [CONTRACT_KEY_MISMATCH] else [];
    var digest := if p.semanticDigest(source.content) != source.semanticDigest then [SOURCE_DIGEST_INVALID]
                  else if doc.sourceSemanticDigest != source.semanticDigest then [SOURCE_DIGEST_MISMATCH] else [];
    errors := authority + key + digest;
  }

  /** Rejected references resolve, and bound what may change. */
  method ReferenceRules(p: Platform, doc: RepairContract, source: Contract, byId: map<string, SideEffect>) returns (errors: seq<Rejection>)
    requires forall id :: LastWith(source.content.negativeSideEffects, id) == if id in byId then Some(byId[id]) else None
    ensures forall x :: x in errors <==> (x.UNKNOWN_REJECTED_REF? || x.UNBOUNDED_MUST_CHANGE?) && DueFrom(p, doc, source, x)
  {
    var refs := doc.rejectedAcceptanceRefs;
    var scopes: set<string> := {};
    var unknown: seq<Rejection> := [];
    for n := 0 to |refs|
      invariant forall x :: x in unknown <==> x.UNKNOWN_REJECTED_REF? && x.ref in refs[..n] && x.ref !in byId
      invariant forall t :: t in scopes <==> exists ref :: ref in refs[..n] && ref in byId && ScopeName(byId[ref].spec.scope) == t
    {
      assert refs[..n + 1] == refs[..n] + [refs[n]];
      if refs[n] in byId {
        scopes := scopes + {ScopeName(byId[refs[n]].spec.scope)};
      } else if UNKNOWN_REJECTED_REF(refs[n]) !in unknown {
        unknown := unknown + [UNKNOWN_REJECTED_REF(refs[n])];
      }
    }
    assert refs[..|refs|] == refs;
    ghost var ss := source.content.negativeSideEffects;
    forall t ensures t in scopes <==> InScope(ss, refs, t) { ScopesAre(ss, refs, byId, t); }
    var outside := MustChangeRules(doc, scopes);
    errors := unknown + outside;
  }

  lemma ScopesAre(ss: seq<SideEffect>, refs: seq<string>, byId: map<string, SideEffect>, t: string)
    requires forall id :: LastWith(ss, id) == if id in byId then Some(byId[id]) else None
    ensures InScope(ss, refs, t) <==> exists ref :: ref in refs && ref in byId && ScopeName(byId[ref].spec.scope) == t
  {
    if InScope(ss, refs, t) {
      var ref :| ref in refs && LastWith(ss, ref).Some? && ScopeName(LastWith(ss, ref).value.spec.scope) == t;
      assert ref in byId;
    }
    if exists ref :: ref in refs && ref in byId && ScopeName(byId[ref].spec.scope) == t {
      var ref :| ref in refs && ref in byId && ScopeName(byId[ref].spec.scope) == t;
      assert LastWith(ss, ref).Some?;
    }
  }

  method MustChangeRules(doc: RepairContract, scopes: set<string>) returns (errors: seq<Rejection>)
    ensures forall x :: x in errors <==>
              x.UNBOUNDED_MUST_CHANGE? && x.i < |doc.mustChange| && doc.mustChange[x.i].target !in scopes
  {
    errors := [];
    for n := 0 to |doc.mustChange|
      invariant forall x :: x in errors <==> x.UNBOUNDED_MUST_CHANGE? && x.i < n && doc.mustChange[x.i].target !in scopes
    {
      if doc.mustChange[n].target !in scopes { errors := errors + [UNBOUNDED_MUST_CHANGE(n)]; }
    }
  }

  predicate AboutCarry(x: Rejection) {
    x.DUPLICATE_CARRIED_SIDE_EFFECT? || x.SIDE_EFFECT_NOT_CARRIED? || x.SIDE_EFFECT_CARRY_MISMATCH? || x.SIDE_EFFECT_NOT_FROM_SOURCE?
  }

  /** The map holds the first well-formed entry of each identity. */
  ghost predicate Indexed(byId: map<string, SideEffect>, cs: seq<SideEffect>) {
    forall id :: FirstWith(cs, id) == if id in byId then Some(byId[id]) else None
  }

  lemma IndexedMore(byId: map<string, SideEffect>, cs: seq<SideEffect>, n: nat)
    requires n < |cs| && Indexed(byId, cs[..n])
    ensures var id := cs[n].sideEffectId;
            Indexed(if ValidSideEffectId(id) && id !in byId then byId[id := cs[n]] else byId, cs[..n + 1])
  {
    assert cs[..n + 1][..n] == cs[..n];
  }

  /** The carried side effects by identity: well-formed ones, the first of each. */
  method IndexCarried(doc: RepairContract) returns (byId: map<string, SideEffect>, errors: seq<Rejection>)
    ensures Indexed(byId, doc.negativeSideEffects)
    ensures forall x :: x in errors <==>
              && x.DUPLICATE_CARRIED_SIDE_EFFECT? && x.i < |doc.negativeSideEffects|
              && ValidSideEffectId(doc.negativeSideEffects[x.i].sideEffectId) && Repeats(Ids(doc.negativeSideEffects), x.i)
  {
    var cs := doc.negativeSideEffects;
    byId, errors := map[], [];
    for n := 0 to |cs|
      invariant Indexed(byId, cs[..n])
      invariant forall x :: x in errors <==>
                  x.DUPLICATE_CARRIED_SIDE_EFFECT? && x.i < n && ValidSideEffectId(cs[x.i].sideEffectId) && Repeats(Ids(cs), x.i)
    {
      var id := cs[n].sideEffectId;
      IndexedMore(byId, cs, n);
      if ValidSideEffectId(id) {
        EarlierEntry(cs, n);
        if id in byId { errors := errors + [DUPLICATE_CARRIED_SIDE_EFFECT(n)]; } else { byId := byId[id := cs[n]]; }
      }
    }
    assert cs[..|cs|] == cs;
  }

  lemma EarlierEntry(cs: seq<SideEffect>, n: nat)
    requires n < |cs| && ValidSideEffectId(cs[n].sideEffectId)
    ensures FirstWith(cs[..n], cs[n].sideEffectId).Some? <==> Repeats(Ids(cs), n)
  {
    if Repeats(Ids(cs), n) {
      var j :| 0 <= j < n && Ids(cs)[j] == Ids(cs)[n];
      assert cs[..n][j] == cs[j];
    }
    if FirstWith(cs[..n], cs[n].sideEffectId).Some? {
      var s := FirstWith(cs[..n], cs[n].sideEffectId).value;
      var j: nat :| j < n && cs[..n][j] == s;
      assert Ids(cs)[j] == Ids(cs)[n];
    }
  }

  /** Every source side effect is carried exactly, and nothing else is. */
  method CarryRules(p: Platform, doc: RepairContract, source: Contract, byId: map<string, SideEffect>) returns (errors: seq<Rejection>)
    requires forall id :: LastWith(source.content.negativeSideEffects, id) == if id in byId then Some(byId[id]) else None
    ensures forall x :: x in errors <==> AboutCarry(x) && DueFrom(p, doc, source, x)
  {
    var ss := source.content.negativeSideEffects;
    var carried, duplicates := IndexCarried(doc);
    var mismatches: seq<Rejection> := [];
    for k := 0 to |ss|
      invariant forall x :: x in mismatches <==>
                  (x.SIDE_EFFECT_NOT_CARRIED? || x.SIDE_EFFECT_CARRY_MISMATCH?) && x.k < k && DueFrom(p, doc, source, x)
    {
      if ss[k].sideEffectId !in carried {
        mismatches := mismatches + [SIDE_EFFECT_NOT_CARRIED(k)];
      } else if carried[ss[k].sideEffectId].spec != ss[k].spec {
        mismatches := mismatches + [SIDE_EFFECT_CARRY_MISMATCH(k)];
      }
    }
    var foreign := ForeignRules(doc, byId);
    errors := duplicates + mismatches + foreign;
  }

  method ForeignRules(doc: RepairContract, byId: map<string, SideEffect>) returns (errors: seq<Rejection>)
    ensures forall x :: x in errors <==>
              x.SIDE_EFFECT_NOT_FROM_SOURCE? && x.i < |doc.negativeSideEffects| && doc.negativeSideEffects[x.i].sideEffectId !in byId
  {
    errors := [];
    for i := 0 to |doc.negativeSideEffects|
      invariant forall x :: x in errors <==>
                  x.SIDE_EFFECT_NOT_FROM_SOURCE? && x.i < i && doc.negativeSideEffects[x.i].sideEffectId !in byId
    {
      if doc.negativeSideEffects[i].sideEffectId !in byId { errors := errors + [SIDE_EFFECT_NOT_FROM_SOURCE(i)]; }
    }
  }

  /** How often each well-formed identity is named by a test. */
  method CountReferences(ts: seq<Test>) returns (counts: map<string, nat>)
    ensures forall id :: References(ts, id) == if id in counts then counts[id] else 0
  {
    counts := map[];
    for n := 0 to |ts|
      invariant forall id :: References(ts[..n], id) == if id in counts then counts[id] else 0
    {
      assert ts[..n + 1][..n] == ts[..n];
      var id := ts[n].negativeSideEffectId;
      if id.Some? && ValidSideEffectId(id.value) {
        counts := counts[id.value := (if id.value in counts then counts[id.value] else 0) + 1];
      }
    }
    assert ts[..|ts|] == ts;
  }

  /** The first test that names a side effect. */
  method FindTest(ts: seq<Test>, id: string) returns (t: Test)
    requires Naming(ts, id) != []
    ensures t == Naming(ts, id)[0]
  {
    var n := 0;
    while n < |ts| && ts[n].negativeSideEffectId != Some(id)
      invariant n <= |ts| && Naming(ts[..n], id) == []
    {
      assert ts[..n + 1][..n] == ts[..n];
      n := n + 1;
    }
    assert ts[..|ts|] == ts;
    assert ts[..n + 1][..n] == ts[..n];
    FirstNaming(ts, n + 1, id);
    t := ts[n];
  }

  lemma {:induction false} FirstNaming(ts: seq<Test>, n: nat, id: string)
    requires n <= |ts| && Naming(ts[..n], id) != []
    ensures Naming(ts, id) != [] && Naming(ts, id)[0] == Naming(ts[..n], id)[0]
  {
    if n < |ts| {
      var m := |ts| - 1;
      assert ts[..m][..n] == ts[..n];
      FirstNaming(ts[..m], n, id);
    } else {
      assert ts[..n] == ts;
    }
  }

  predicate AboutTests(x: Rejection) { x.SIDE_EFFECT_TEST_MISSING? || x.DUPLICATE_SIDE_EFFECT_TEST? || x.SIDE_EFFECT_TEST_MISMATCH? }

  /** Exactly one test names each source side effect, and pins its scope and count. */
  method TestRules(p: Platform, doc: RepairContract, source: Contract) returns (errors: seq<Rejection>)
    ensures forall x :: x in errors <==> AboutTests(x) && DueFrom(p, doc, source, x)
  {
    var ss, ts := source.content.negativeSideEffects, doc.acceptanceTests;
    var counts := CountReferences(ts);
    errors := [];
    for k := 0 to |ss|
      invariant forall x :: x in errors <==> AboutTests(x) && x.k < k && DueFrom(p, doc, source, x)
    {
      var id := ss[k].sideEffectId;
      var count := if id in counts then counts[id] else 0;
      assert count == References(ts, id);
      if count == 0 {
        errors := errors + [SIDE_EFFECT_TEST_MISSING(k)];
      } else if count > 1 {
        errors := errors + [DUPLICATE_SIDE_EFFECT_TEST(k)];
      } else {
        var t := FindTest(ts, id);
        if !Pins(t, ss[k]) { errors := errors + [SIDE_EFFECT_TEST_MISMATCH(k)]; }
      }
    }
  }

  method FrozenRules(p: Platform, doc: RepairContract, source: Contract) returns (errors: seq<Rejection>)
    ensures forall x :: x in errors <==> x.FROZEN_REQUIREMENT_MISMATCH? && DueFrom(p, doc, source, x)
  {
    var fields := [F_SourceObjects, F_Concepts, F_DistinctConcepts, F_NegativeSideEffects, F_FactsEstablished, F_UnresolvedSemantics];
    errors := [];
    for n := 0 to |fields|
      invariant forall x :: x in errors <==> x.FROZEN_REQUIREMENT_MISMATCH? && x.field in fields[..n] && DueFrom(p, doc, source, x)
    {
      assert fields[..n + 1] == fields[..n] + [fields[n]];
      if !FrozenAgrees(doc, source.content, fields[n]) { errors := errors + [FROZEN_REQUIREMENT_MISMATCH(fields[n])]; }
    }
    forall f: FrozenField ensures f in fields {
      match f
      case F_SourceObjects => assert fields[0] == f;
      case F_Concepts => assert fields[1] == f;
      case F_DistinctConcepts => assert fields[2] == f;
      case F_NegativeSideEffects => assert fields[3] == f;
      case F_FactsEstablished => assert fields[4] == f;
      case F_UnresolvedSemantics => assert fields[5] == f;
    }
    assert fields[..|fields|] == fields;
  }

  /** Every rejection that is due is made, and no other. */
  method ApplyAcceptanceRules(p: Platform, doc: RepairContract, source: Option<Contract>) returns (errors: seq<Rejection>)
    ensures forall x :: x in errors <==> RejectionDue(p, doc, source, x)
  {
    errors := RulesAlone(doc);
    if source.None? { return; }
    var fromSource := SourceRules(p, doc, source.value);
    var byId := IndexById(source.value.content.negativeSideEffects);
    var references := ReferenceRules(p, doc, source.value, byId);
    var carry := CarryRules(p, doc, source.value, byId);
    var tests := TestRules(p, doc, source.value);
    var frozen := FrozenRules(p, doc, source.value);
    errors := errors + fromSource + references + carry + tests + frozen;
  }

  // ---------------------------------------------------------------------------
  // What an accepted repair contract is
  // ---------------------------------------------------------------------------

  predicate TestShape(t: Test) {
    && Bounded(t.name, 200) && Bounded(t.expectation, 500)
    && (t.command.Some? ==> |t.command.value| <= 500)
    && (t.negativeSideEffectId.Some? ==> ValidSideEffectId(t.negativeSideEffectId.value))
    && (t.negativeSideEffectRef.Some? ==> |t.negativeSideEffectRef.value| <= 300)
  }

  /** The frozen parts as the schema sees them: the same shapes as in a semantic contract. */
  function FrozenContent(doc: RepairContract): Content {
    var f := doc.frozenSemantics;
    Content(doc.contractKey, doc.riskClass, f.sourceObjects, f.concepts, f.distinctConcepts, [], f.factsEstablished, f.unresolvedSemantics)
  }

  /** The acceptance-contract schema. */
  predicate RepairSchemaValid(p: Platform, doc: RepairContract) {
    && p.stamps(doc.repairId, doc.createdAt) && p.coreShapes(FrozenContent(doc))
    && DigestShape(doc.sourceSemanticDigest) && (doc.findingRefs.Some? ==> forall f :: f in doc.findingRefs.value ==> ValidFindingId(f))
    && doc.rejectedAcceptanceRefs != [] && (forall r :: r in doc.rejectedAcceptanceRefs ==> ValidSideEffectId(r))
    && Bounded(doc.objective, 500) && Bounded(doc.violation, 500) && Bounded(doc.requiredBehavior, 500)
    && doc.mustChange != [] && (forall m :: m in doc.mustChange ==> Bounded(m.target, 300) && Bounded(m.change, 500))
    && (forall m :: m in doc.mustNotChange ==> Bounded(m.target, 300) && Bounded(m.reason, 500))
    && doc.acceptanceTests != [] && (forall t :: t in doc.acceptanceTests ==> TestShape(t))
    && (forall s :: s in doc.negativeSideEffects ==> SideEffectShape(s))
    && (forall s :: s in doc.frozenSemantics.negativeSideEffects ==> SideEffectShape(s))
    && doc.verification != [] && (forall v :: v in doc.verification ==> Bounded(v.method_, 300) && Bounded(v.expectation, 500))
  }

  ghost predicate BadText(s: string, max: nat) { s == "" || |s| > max }

  ghost predicate BadTest(t: Test) {
    || BadText(t.name, 200) || BadText(t.expectation, 500)
    || (exists c :: t.command == Some(c) && |c| > 500)
    || (exists id :: t.negativeSideEffectId == Some(id) && !ValidSideEffectId(id))
    || (exists ref :: t.negativeSideEffectRef == Some(ref) && |ref| > 300)
  }

  ghost predicate BadSideEffect(s: SideEffect) {
    BadText(s.spec.gate, 300) || BadText(s.spec.requirement, 500) || !ValidSideEffectId(s.sideEffectId)
  }

  /** Every way in which a document can break the schema. */
  ghost predicate SchemaFault(p: Platform, doc: RepairContract) {
    || !p.stamps(doc.repairId, doc.createdAt) || !p.coreShapes(FrozenContent(doc)) || !DigestShape(doc.sourceSemanticDigest)
    || (exists fs, f :: doc.findingRefs == Some(fs) && f in fs && !ValidFindingId(f))
    // an empty list where one entry is required
    || doc.rejectedAcceptanceRefs == [] || doc.mustChange == [] || doc.acceptanceTests == [] || doc.verification == []
    // a malformed reference, or a text that is empty or too long
    || (exists r :: r in doc.rejectedAcceptanceRefs && !ValidSideEffectId(r))
    || BadText(doc.objective, 500) || BadText(doc.violation, 500) || BadText(doc.requiredBehavior, 500)
    || (exists m :: m in doc.mustChange && (BadText(m.target, 300) || BadText(m.change, 500)))
    || (exists m :: m in doc.mustNotChange && (BadText(m.target, 300) || BadText(m.reason, 500)))
    || (exists t :: t in doc.acceptanceTests && BadTest(t))
    || (exists s :: s in doc.negativeSideEffects + doc.frozenSemantics.negativeSideEffects && BadSideEffect(s))
    || (exists v :: v in doc.verification && (BadText(v.method_, 300) || BadText(v.expectation, 500)))
  }

  /** The schema refuses exactly the documents with a fault. */
  lemma SchemaRefusesFaults(p: Platform, doc: RepairContract)
    ensures !RepairSchemaValid(p, doc) <==> SchemaFault(p, doc)
  {
    forall t ensures BadTest(t) <==> !TestShape(t) { TestFaults(t); }
    assert forall s :: BadSideEffect(s) <==> !SideEffectShape(s);
    assert forall t, n: nat :: BadText(t, n) <==> !Bounded(t, n);
    assert forall s :: s in doc.negativeSideEffects + doc.frozenSemantics.negativeSideEffects <==>
                         s in doc.negativeSideEffects || s in doc.frozenSemantics.negativeSideEffects;
  }

  lemma TestFaults(t: Test)
    ensures BadTest(t) <==> !TestShape(t)
  {}

  predicate CountsOk(doc: RepairContract) {
    && (forall s :: s in doc.negativeSideEffects ==> s.spec.expectedCount >= 0)
    && (forall t :: t in doc.acceptanceTests && t.expectedSideEffectCount.Some? ==> t.expectedSideEffectCount.value >= 0)
  }

  /** Exactly one test names this side effect, and it pins the scope and the count. */
  predicate OneTest(ts: seq<Test>, s: SideEffect) {
    var named := Naming(ts, s.sideEffectId);
    |named| == 1 && Pins(named[0], s)
  }

  /** The contract is bound to its source: same content, every requirement carried, tested once, or frozen. */
  ghost predicate Bound(p: Platform, doc: RepairContract, source: Contract) {
    var k, refs := source.content, doc.rejectedAcceptanceRefs;
    && IsAuthoritative(p, source)
    && doc.contractKey == k.contractKey && doc.sourceSemanticDigest == source.semanticDigest
    && (forall r :: r in refs ==> r in Ids(k.negativeSideEffects))
    && (forall m :: m in doc.mustChange ==>
          exists s :: s in k.negativeSideEffects && s.sideEffectId in refs && ScopeName(s.spec.scope) == m.target)
    && multiset(doc.negativeSideEffects) == multiset(k.negativeSideEffects)
    && (forall s :: s in k.negativeSideEffects ==> OneTest(doc.acceptanceTests, s))
    && doc.frozenSemantics == Frozen(k.sourceObjects, k.concepts, k.distinctConcepts, Keep(k.negativeSideEffects, refs, false),
                                     k.factsEstablished, k.unresolvedSemantics)
  }

  ghost predicate Acceptable(p: Platform, doc: RepairContract, source: Option<Contract>) {
    && CountsOk(doc) && Distinct(doc.rejectedAcceptanceRefs)
    && (source.Some? ==> Bound(p, doc, source.value))
  }

  lemma AloneClean(doc: RepairContract)
    ensures (forall x :: !DueAlone(doc, x)) <==> CountsOk(doc) && Distinct(doc.rejectedAcceptanceRefs)
  {
    NoRepeats(doc.rejectedAcceptanceRefs);
    if forall x :: !DueAlone(doc, x) {
      forall s | s in doc.negativeSideEffects ensures s.spec.expectedCount >= 0 {
        var i: nat :| i < |doc.negativeSideEffects| && doc.negativeSideEffects[i] == s;
        assert !DueAlone(doc, INVALID_CARRIED_COUNT(i));
      }
      forall t | t in doc.acceptanceTests && t.expectedSideEffectCount.Some? ensures t.expectedSideEffectCount.value >= 0 {
        var i: nat :| i < |doc.acceptanceTests| && doc.acceptanceTests[i] == t;
        assert !DueAlone(doc, INVALID_TEST_COUNT(i));
      }
      forall i: nat ensures !Repeats(doc.rejectedAcceptanceRefs, i) { assert !DueAlone(doc, DUPLICATE_REJECTED_REF(i)); }
    }
  }

  predicate DistinctIds(ss: seq<SideEffect>) { Distinct(Ids(ss)) }

  /** With distinct identities both indexes hold the one entry. */
  lemma OnlyEntry(ss: seq<SideEffect>, s: SideEffect)
    requires DistinctIds(ss) && s in ss
    ensures LastWith(ss, s.sideEffectId) == Some(s)
    ensures ValidSideEffectId(s.sideEffectId) ==> FirstWith(ss, s.sideEffectId) == Some(s)
  {
    SameEntry(ss, s, LastWith(ss, s.sideEffectId).value);
    if ValidSideEffectId(s.sideEffectId) { SameEntry(ss, s, FirstWith(ss, s.sideEffectId).value); }
  }

  lemma SameEntry(ss: seq<SideEffect>, s: SideEffect, t: SideEffect)
    requires DistinctIds(ss) && s in ss && t in ss && s.sideEffectId == t.sideEffectId
    ensures s == t
  {
    var i: nat :| i < |ss| && ss[i] == s;
    var j: nat :| j < |ss| && ss[j] == t;
    assert Ids(ss)[i] == Ids(ss)[j];
  }

  lemma {:induction false} AtMostOne(ss: seq<SideEffect>, s: SideEffect)
    requires DistinctIds(ss)
    ensures multiset(ss)[s] == if s in ss then 1 else 0
  {
    if ss != [] {
      var n := |ss| - 1;
      assert ss == ss[..n] + [ss[n]];
      assert forall i :: 0 <= i < n ==> Ids(ss[..n])[i] == Ids(ss)[i];
      AtMostOne(ss[..n], s);
      forall j | 0 <= j < n ensures ss[..n][j] != ss[n] { assert Ids(ss)[j] != Ids(ss)[n]; }
    }
  }

  /** Lists with distinct identities are permutations of each other exactly when they have the same entries. */
  lemma SameEntriesSamePermutation(ss: seq<SideEffect>, ts: seq<SideEffect>)
    requires DistinctIds(ss) && DistinctIds(ts)
    ensures multiset(ss) == multiset(ts) <==> forall s :: s in ss <==> s in ts
  {
    forall s ensures multiset(ss)[s] == (if s in ss then 1 else 0) && multiset(ts)[s] == if s in ts then 1 else 0 {
      AtMostOne(ss, s);
      AtMostOne(ts, s);
    }
    if multiset(ss) == multiset(ts) {
      forall s ensures s in ss <==> s in ts { assert multiset(ss)[s] == multiset(ts)[s]; }
    }
  }

  lemma AuthoritativeIdsAreDistinct(p: Platform, source: Contract)
    requires IsAuthoritative(p, source)
    ensures DistinctIds(source.content.negativeSideEffects)
    ensures forall s :: s in source.content.negativeSideEffects ==> ValidSideEffectId(s.sideEffectId)
  {
    var ss := source.content.negativeSideEffects;
    forall i, j | 0 <= i < j < |ss| ensures Ids(ss)[i] != Ids(ss)[j] { assert ss[i] in ss; }
  }

  lemma IdsHold(ss: seq<SideEffect>, id: string)
    ensures id in Ids(ss) <==> LastWith(ss, id).Some?
  {
    if id in Ids(ss) {
      var i: nat :| i < |ss| && Ids(ss)[i] == id;
      assert ss[i] in ss;
    }
    if LastWith(ss, id).Some? {
      var i: nat :| i < |ss| && ss[i] == LastWith(ss, id).value;
      assert Ids(ss)[i] == id;
    }
  }

  lemma ReferencesClean(p: Platform, doc: RepairContract, source: Contract)
    requires IsAuthoritative(p, source)
    ensures (forall x: Rejection :: x.UNKNOWN_REJECTED_REF? || x.UNBOUNDED_MUST_CHANGE? ==> !DueFrom(p, doc, source, x)) <==>
            && (forall r :: r in doc.rejectedAcceptanceRefs ==> r in Ids(source.content.negativeSideEffects))
            && (forall m :: m in doc.mustChange ==>
                  exists s :: s in source.content.negativeSideEffects && s.sideEffectId in doc.rejectedAcceptanceRefs && ScopeName(s.spec.scope) == m.target)
  {
    var ss, refs := source.content.negativeSideEffects, doc.rejectedAcceptanceRefs;
    forall r ensures r in Ids(ss) <==> LastWith(ss, r).Some? { IdsHold(ss, r); }
    forall t ensures InScope(ss, refs, t) <==> exists s :: s in ss && s.sideEffectId in refs && ScopeName(s.spec.scope) == t {
      ScopeOfSource(p, source, refs, t);
    }
    NoReferenceDue(p, doc, source);
  }

  lemma NoReferenceDue(p: Platform, doc: RepairContract, source: Contract)
    ensures var ss, refs := source.content.negativeSideEffects, doc.rejectedAcceptanceRefs;
            (forall x: Rejection :: x.UNKNOWN_REJECTED_REF? || x.UNBOUNDED_MUST_CHANGE? ==> !DueFrom(p, doc, source, x)) <==>
            (forall r :: r in refs ==> LastWith(ss, r).Some?) && (forall m :: m in doc.mustChange ==> InScope(ss, refs, m.target))
  {
    var ss, refs := source.content.negativeSideEffects, doc.rejectedAcceptanceRefs;
    if forall x: Rejection :: x.UNKNOWN_REJECTED_REF? || x.UNBOUNDED_MUST_CHANGE? ==> !DueFrom(p, doc, source, x) {
      forall r | r in refs ensures LastWith(ss, r).Some? { assert !DueFrom(p, doc, source, UNKNOWN_REJECTED_REF(r)); }
      forall m | m in doc.mustChange ensures InScope(ss, refs, m.target) {
        var i: nat :| i < |doc.mustChange| && doc.mustChange[i] == m;
        assert !DueFrom(p, doc, source, UNBOUNDED_MUST_CHANGE(i));
      }
    }
  }

  lemma ScopeOfSource(p: Platform, source: Contract, refs: seq<string>, t: string)
    requires IsAuthoritative(p, source)
    ensures InScope(source.content.negativeSideEffects, refs, t) <==>
            exists s :: s in source.content.negativeSideEffects && s.sideEffectId in refs && ScopeName(s.spec.scope) == t
  {
    var ss := source.content.negativeSideEffects;
    AuthoritativeIdsAreDistinct(p, source);
    if InScope(ss, refs, t) {
      var ref :| ref in refs && LastWith(ss, ref).Some? && ScopeName(LastWith(ss, ref).value.spec.scope) == t;
      assert LastWith(ss, ref).value.sideEffectId in refs;
    }
    if exists s :: s in ss && s.sideEffectId in refs && ScopeName(s.spec.scope) == t {
      var s :| s in ss && s.sideEffectId in refs && ScopeName(s.spec.scope) == t;
      OnlyEntry(ss, s);
    }
  }

  /** Nothing wrong with the carry exactly when the carried list is a permutation of the source's. */
  lemma CarryClean(p: Platform, doc: RepairContract, source: Contract)
    requires IsAuthoritative(p, source) && forall c :: c in doc.negativeSideEffects ==> ValidSideEffectId(c.sideEffectId)
    ensures (forall x :: AboutCarry(x) ==> !DueFrom(p, doc, source, x)) <==>
            multiset(doc.negativeSideEffects) == multiset(source.content.negativeSideEffects)
  {
    if forall x :: AboutCarry(x) ==> !DueFrom(p, doc, source, x) { QuietCarryIsPermutation(p, doc, source); }
    if multiset(doc.negativeSideEffects) == multiset(source.content.negativeSideEffects) { PermutationIsQuiet(p, doc, source); }
  }

  lemma QuietCarryIsPermutation(p: Platform, doc: RepairContract, source: Contract)
    requires IsAuthoritative(p, source) && forall c :: c in doc.negativeSideEffects ==> ValidSideEffectId(c.sideEffectId)
    requires forall x :: AboutCarry(x) ==> !DueFrom(p, doc, source, x)
    ensures multiset(doc.negativeSideEffects) == multiset(source.content.negativeSideEffects)
  {
    var ss, cs := source.content.negativeSideEffects, doc.negativeSideEffects;
    AuthoritativeIdsAreDistinct(p, source);
    forall i: nat ensures !Repeats(Ids(cs), i) {
      if i < |cs| {
        assert cs[i] in cs;
        assert !DueFrom(p, doc, source, DUPLICATE_CARRIED_SIDE_EFFECT(i));
      }
    }
    NoRepeats(Ids(cs));
    forall s | s in ss ensures s in cs { CarriedExactly(p, doc, source, s); }
    forall c | c in cs ensures c in ss {
      var i: nat :| i < |cs| && cs[i] == c;
      assert !DueFrom(p, doc, source, SIDE_EFFECT_NOT_FROM_SOURCE(i));
      var s := LastWith(ss, c.sideEffectId).value;
      assert s in cs;
      SameEntry(cs, c, s);
    }
    SameEntriesSamePermutation(cs, ss);
  }

  lemma CarriedExactly(p: Platform, doc: RepairContract, source: Contract, s: SideEffect)
    requires s in source.content.negativeSideEffects
    requires forall x :: AboutCarry(x) ==> !DueFrom(p, doc, source, x)
    ensures s in doc.negativeSideEffects
  {
    var ss := source.content.negativeSideEffects;
    var k: nat :| k < |ss| && ss[k] == s;
    assert !DueFrom(p, doc, source, SIDE_EFFECT_NOT_CARRIED(k)) && !DueFrom(p, doc, source, SIDE_EFFECT_CARRY_MISMATCH(k));
  }

  lemma PermutationIsQuiet(p: Platform, doc: RepairContract, source: Contract)
    requires IsAuthoritative(p, source)
    requires multiset(doc.negativeSideEffects) == multiset(source.content.negativeSideEffects)
    ensures forall x :: AboutCarry(x) ==> !DueFrom(p, doc, source, x)
  {
    var ss, cs := source.content.negativeSideEffects, doc.negativeSideEffects;
    AuthoritativeIdsAreDistinct(p, source);
    forall s ensures s in cs <==> s in ss { assert multiset(cs)[s] == multiset(ss)[s]; }
    PermutedIdsAreDistinct(cs, ss);
    NoRepeats(Ids(cs));
    forall k: nat | k < |ss| ensures FirstWith(cs, ss[k].sideEffectId) == Some(ss[k]) {
      assert ss[k] in ss;
      OnlyEntry(cs, ss[k]);
    }
    forall i: nat | i < |cs| ensures LastWith(ss, cs[i].sideEffectId).Some? { assert cs[i] in ss; }
    QuietWhenFound(p, doc, source);
  }

  lemma QuietWhenFound(p: Platform, doc: RepairContract, source: Contract)
    requires var ss, cs := source.content.negativeSideEffects, doc.negativeSideEffects;
             && (forall i: nat :: !Repeats(Ids(cs), i))
             && (forall k: nat :: k < |ss| ==> FirstWith(cs, ss[k].sideEffectId) == Some(ss[k]))
             && (forall i: nat :: i < |cs| ==> LastWith(ss, cs[i].sideEffectId).Some?)
    ensures forall x :: AboutCarry(x) ==> !DueFrom(p, doc, source, x)
  {}

  /** Distinct identities survive a permutation. */
  lemma PermutedIdsAreDistinct(cs: seq<SideEffect>, ss: seq<SideEffect>)
    requires DistinctIds(ss) && multiset(cs) == multiset(ss)
    ensures DistinctIds(cs)
  {
    forall i, j | 0 <= i < j < |cs| ensures Ids(cs)[i] != Ids(cs)[j] {
      assert cs[i] in multiset(ss) && cs[j] in multiset(ss);
      if cs[i].sideEffectId == cs[j].sideEffectId {
        SameEntry(ss, cs[i], cs[j]);
        AtMostOne(ss, cs[i]);
        Twice(cs, i, j);
      }
    }
  }

  lemma TestsCleanAt(p: Platform, doc: RepairContract, source: Contract, k: nat)
    requires k < |source.content.negativeSideEffects| && ValidSideEffectId(source.content.negativeSideEffects[k].sideEffectId)
    ensures (!DueFrom(p, doc, source, SIDE_EFFECT_TEST_MISSING(k)) && !DueFrom(p, doc, source, DUPLICATE_SIDE_EFFECT_TEST(k))
             && !DueFrom(p, doc, source, SIDE_EFFECT_TEST_MISMATCH(k)))
            <==> OneTest(doc.acceptanceTests, source.content.negativeSideEffects[k])
  {}

  lemma TestsClean(p: Platform, doc: RepairContract, source: Contract)
    requires IsAuthoritative(p, source)
    ensures (forall x :: AboutTests(x) ==> !DueFrom(p, doc, source, x)) <==>
            forall s :: s in source.content.negativeSideEffects ==> OneTest(doc.acceptanceTests, s)
  {
    var ss := source.content.negativeSideEffects;
    AuthoritativeIdsAreDistinct(p, source);
    if forall x :: AboutTests(x) ==> !DueFrom(p, doc, source, x) {
      forall s | s in ss ensures OneTest(doc.acceptanceTests, s) {
        var k: nat :| k < |ss| && ss[k] == s;
        TestsCleanAt(p, doc, source, k);
      }
    } else {
      var x :| AboutTests(x) && DueFrom(p, doc, source, x);
      assert ss[x.k] in ss;
      TestsCleanAt(p, doc, source, x.k);
    }
  }

  lemma FrozenClean(p: Platform, doc: RepairContract, source: Contract)
    ensures var k := source.content;
            (forall x: Rejection :: x.FROZEN_REQUIREMENT_MISMATCH? ==> !DueFrom(p, doc, source, x)) <==>
            doc.frozenSemantics == Frozen(k.sourceObjects, k.concepts, k.distinctConcepts,
                                          Keep(k.negativeSideEffects, doc.rejectedAcceptanceRefs, false),
                                          k.factsEstablished, k.unresolvedSemantics)
  {
    if forall x: Rejection :: x.FROZEN_REQUIREMENT_MISMATCH? ==> !DueFrom(p, doc, source, x) {
      forall f ensures FrozenAgrees(doc, source.content, f) { assert !DueFrom(p, doc, source, FROZEN_REQUIREMENT_MISMATCH(f)); }
      assert FrozenAgrees(doc, source.content, F_SourceObjects) && FrozenAgrees(doc, source.content, F_Concepts)
             && FrozenAgrees(doc, source.content, F_DistinctConcepts) && FrozenAgrees(doc, source.content, F_NegativeSideEffects)
             && FrozenAgrees(doc, source.content, F_FactsEstablished) && FrozenAgrees(doc, source.content, F_UnresolvedSemantics);
    }
  }

  lemma SourceClean(p: Platform, doc: RepairContract, source: Contract)
    ensures (forall x :: AboutSource(x) ==> !DueFrom(p, doc, source, x)) <==>
            && IsAuthoritative(p, source) && doc.contractKey == source.content.contractKey
            && doc.sourceSemanticDigest == source.semanticDigest
  {
    if forall x :: AboutSource(x) ==> !DueFrom(p, doc, source, x) {
      assert !DueFrom(p, doc, source, SOURCE_NOT_AUTHORITATIVE) && !DueFrom(p, doc, source, CONTRACT_KEY_MISMATCH)
             && !DueFrom(p, doc, source, SOURCE_DIGEST_INVALID) && !DueFrom(p, doc, source, SOURCE_DIGEST_MISMATCH);
    }
  }

  lemma FromSourceClean(p: Platform, doc: RepairContract, source: Contract)
    requires forall c :: c in doc.negativeSideEffects ==> ValidSideEffectId(c.sideEffectId)
    ensures (forall x :: !DueFrom(p, doc, source, x)) <==> Bound(p, doc, source)
  {
    SourceClean(p, doc, source);
    FrozenClean(p, doc, source);
    if IsAuthoritative(p, source) {
      ReferencesClean(p, doc, source);
      CarryClean(p, doc, source);
      TestsClean(p, doc, source);
    }
  }

  /** Nothing is rejected exactly when the contract is acceptable, pairwise and without scans. */
  lemma NothingDueIffAcceptable(p: Platform, doc: RepairContract, source: Option<Contract>)
    requires RepairSchemaValid(p, doc)
    ensures (forall x :: !RejectionDue(p, doc, source, x)) <==> Acceptable(p, doc, source)
  {
    AloneClean(doc);
    if source.Some? { FromSourceClean(p, doc, source.value); }
    if forall x :: !RejectionDue(p, doc, source, x) {
      forall x ensures !DueAlone(doc, x) { assert !RejectionDue(p, doc, source, x); }
      if source.Some? {
        forall x ensures !DueFrom(p, doc, source.value, x) { assert !RejectionDue(p, doc, source, x); }
      }
    }
  }

  /** The validator: the schema first, then the rules. */
  method ValidateAcceptanceContract(p: Platform, doc: RepairContract, source: Option<Contract>) returns (valid: bool, errors: seq<Rejection>)
    ensures valid <==> RepairSchemaValid(p, doc) && Acceptable(p, doc, source)
    ensures RepairSchemaValid(p, doc) ==> forall x :: x in errors <==> RejectionDue(p, doc, source, x)
  {
    if !RepairSchemaValid(p, doc) { return false, []; }
    errors := ApplyAcceptanceRules(p, doc, source);
    NothingDueIffAcceptable(p, doc, source);
    valid := errors == [];
    if !valid { assert errors[0] in errors; }
  }

  /** The frozen side effects and the rejected ones give back exactly the source's list. */
  lemma {:induction false} FrozenAndRejectedAreAll(ss: seq<SideEffect>, refs: seq<string>)
    ensures multiset(Keep(ss, refs, false)) + multiset(Keep(ss, refs, true)) == multiset(ss)
  {
    if ss != [] {
      FrozenAndRejectedAreAll(ss[1..], refs);
      assert ss == [ss[0]] + ss[1..];
    }
  }
}
