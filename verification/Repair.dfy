/**
 Building a repair contract: the builder checks its input, carries every side effect, generates the
 missing tests, freezes the rest, and asks the validator.  Builder and validator are written
 separately; the lemmas say exactly when they agree.
 */
module Repair {
  import opened Options
  import opened Contracts
  import opened SemanticRules
  import opened Acceptance

  datatype RepairInput = RepairInput(
    semanticContract: Contract, rejectedAcceptanceRefs: seq<string>, objective: string, violation: string,
    requiredBehavior: string, mustChange: seq<Change>, mustNotChange: seq<Preserve>, acceptanceTests: seq<Test>,
    verification: seq<Check>, findingRefs: Option<seq<string>>, createdAt: string, repairId: string)

  datatype BuildError =
    | SourceNotAuthoritative | BadReferences | BadText | OutsideScope | BadUserTest | ValidationFailed(errors: seq<Rejection>)

  // ---------------------------------------------------------------------------
  // The builder's own checks
  // ---------------------------------------------------------------------------

  predicate ReferencesOk(ss: seq<SideEffect>, refs: seq<string>) {
    refs != [] && Distinct(refs) && forall r :: r in refs ==> ValidSideEffectId(r) && LastWith(ss, r).Some?
  }

  predicate TextsOk(input: RepairInput) {
    && input.objective != "" && input.violation != "" && input.requiredBehavior != ""
    && (forall m :: m in input.mustChange ==> m.target != "" && m.change != "")
    && (forall m :: m in input.mustNotChange ==> m.target != "" && m.reason != "")
    && (forall v :: v in input.verification ==> v.method_ != "" && v.expectation != "")
    && (forall t :: t in input.acceptanceTests ==> t.name != "" && t.expectation != "")
    && (input.findingRefs.Some? ==> forall f :: f in input.findingRefs.value ==> ValidFindingId(f))
  }

  /** A user test names a side effect by its identity and pins it, or does not mention one at all. */
  predicate UserTestOk(ss: seq<SideEffect>, t: Test) {
    match t.negativeSideEffectId
    case None => t.negativeSideEffectRef.None? && t.negativeSideEffectScope.None?
    case Some(id) => ValidSideEffectId(id) && LastWith(ss, id).Some? && Pins(t, LastWith(ss, id).value)
  }

  predicate OwnChecks(p: Platform, input: RepairInput) {
    var ss := input.semanticContract.content.negativeSideEffects;
    && IsAuthoritative(p, input.semanticContract) && ReferencesOk(ss, input.rejectedAcceptanceRefs) && TextsOk(input)
    && (forall m :: m in input.mustChange ==> InScope(ss, input.rejectedAcceptanceRefs, m.target))
    && (forall t :: t in input.acceptanceTests ==> UserTestOk(ss, t))
  }

  // ---------------------------------------------------------------------------
  // The document
  // ---------------------------------------------------------------------------

  function GuardName(s: SideEffect): string
    requires s.spec.expectedCount >= 0
  {
    "side-effect guard: " + ScopeName(s.spec.scope) + " stays " + Digits(s.spec.expectedCount) + " before " + s.spec.gate
    + " (" + s.sideEffectId + ")"
  }

  function GuardTest(s: SideEffect): Test
    requires s.spec.expectedCount >= 0
  {
    Test(GuardName(s), None, s.spec.requirement, Some(s.sideEffectId), Some(s.spec.gate + "::" + ScopeName(s.spec.scope)),
         Some(s.spec.scope), Some(s.spec.expectedCount))
  }

  predicate CountsNatural(ss: seq<SideEffect>) { forall s :: s in ss ==> s.spec.expectedCount >= 0 }

  /** A guard test for every side effect that no user test names, in source order. */
  function GuardTests(user: seq<Test>, ss: seq<SideEffect>): (r: seq<Test>)
    requires CountsNatural(ss)
    ensures forall t :: t in r <==> exists s :: s in ss && Naming(user, s.sideEffectId) == [] && t == GuardTest(s)
  {
    if ss == [] then [] else
      var n := |ss| - 1;
      assert ss == ss[..n] + [ss[n]];
      GuardTests(user, ss[..n]) + if Naming(user, ss[n].sideEffectId) == [] then [GuardTest(ss[n])] else []
  }

  function Document(input: RepairInput): RepairContract
    requires CountsNatural(input.semanticContract.content.negativeSideEffects)
  {
    var source := input.semanticContract;
    var k := source.content;
    RepairContract(
      input.repairId, k.contractKey, source.semanticDigest, input.rejectedAcceptanceRefs, input.objective, input.violation,
      input.requiredBehavior, input.mustChange, input.mustNotChange,
      input.acceptanceTests + GuardTests(input.acceptanceTests, k.negativeSideEffects), k.negativeSideEffects,
      Frozen(k.sourceObjects, k.concepts, k.distinctConcepts, Keep(k.negativeSideEffects, input.rejectedAcceptanceRefs, false),
             k.factsEstablished, k.unresolvedSemantics),
      input.verification, input.findingRefs, k.riskClass, input.createdAt)
  }

  // ---------------------------------------------------------------------------
  // What the validator asks beyond the builder's checks
  // ---------------------------------------------------------------------------

  /** No two user tests name one side effect, and a test that names none does not expect a negative count. */
  predicate UserTestsAgree(ts: seq<Test>) {
    && (forall i, j :: 0 <= i < j < |ts| && ts[i].negativeSideEffectId.Some? ==> ts[i].negativeSideEffectId != ts[j].negativeSideEffectId)
    && (forall t :: t in ts && t.negativeSideEffectId.None? && t.expectedSideEffectCount.Some? ==> t.expectedSideEffectCount.value >= 0)
  }

  /** A generated name has room for gate, scope and count together. */
  predicate GuardFits(s: SideEffect)
    requires s.spec.expectedCount >= 0
  {
    |s.spec.gate| + |ScopeName(s.spec.scope)| + |Digits(s.spec.expectedCount)| <= 96
  }

  /** The schema's bounds that the builder does not check itself. */
  predicate InputFits(p: Platform, input: RepairInput)
    requires CountsNatural(input.semanticContract.content.negativeSideEffects)
  {
    && p.stamps(input.repairId, input.createdAt)
    && |input.objective| <= 500 && |input.violation| <= 500 && |input.requiredBehavior| <= 500
    && input.mustChange != [] && (forall m :: m in input.mustChange ==> |m.change| <= 500)
    && (forall m :: m in input.mustNotChange ==> |m.target| <= 300 && |m.reason| <= 500)
    && (forall t :: t in input.acceptanceTests ==>
          && |t.name| <= 200 && |t.expectation| <= 500 && (t.command.Some? ==> |t.command.value| <= 500)
          && (t.negativeSideEffectRef.Some? ==> |t.negativeSideEffectRef.value| <= 300))
    && input.verification != [] && (forall v :: v in input.verification ==> |v.method_| <= 300 && |v.expectation| <= 500)
    && forall s :: s in input.semanticContract.content.negativeSideEffects && Naming(input.acceptanceTests, s.sideEffectId) == [] ==>
         GuardFits(s)
  }

  lemma ScopeNamesAreShort(s: Scope)
    ensures 1 <= |ScopeName(s)| <= 16
  {}

  /** A generated test meets the schema exactly when its name has room. */
  lemma GuardFitsIff(s: SideEffect)
    requires SideEffectShape(s) && s.spec.expectedCount >= 0
    ensures TestShape(GuardTest(s)) <==> GuardFits(s)
  {
    ScopeNamesAreShort(s.spec.scope);
    assert |GuardName(s)| == 104 + |ScopeName(s.spec.scope)| + |Digits(s.spec.expectedCount)| + |s.spec.gate|;
  }

  lemma {:induction false} NamingConcat(ts: seq<Test>, us: seq<Test>, id: string)
    ensures Naming(ts + us, id) == Naming(ts, id) + Naming(us, id)
  {
    if us == [] {
      assert ts + us == ts;
    } else {
      var init, u := us[..|us| - 1], us[|us| - 1];
      assert us == init + [u] && ts + us == (ts + init) + [u];
      NamingConcat(ts, init, id);
      NamingSnoc(ts + init, u, id);
      NamingSnoc(init, u, id);
    }
  }

  lemma NamingSnoc(ts: seq<Test>, u: Test, id: string)
    ensures Naming(ts + [u], id) == Naming(ts, id) + if u.negativeSideEffectId == Some(id) then [u] else []
  {
    assert (ts + [u])[..|ts|] == ts;
  }

  lemma LastLookup(ss: seq<SideEffect>, id: string)
    requires DistinctIds(ss) && ss != [] && CountsNatural(ss)
    ensures var n := |ss| - 1;
            DistinctIds(ss[..n]) && CountsNatural(ss[..n]) && (ss[n].sideEffectId == id ==> LastWith(ss[..n], id).None?)
  {
    var n := |ss| - 1;
    assert forall i :: 0 <= i < |ss| ==> Ids(ss)[i] == ss[i].sideEffectId;
    assert forall i :: 0 <= i < n ==> Ids(ss[..n])[i] == Ids(ss)[i];
  }

  /** What the guards name: an unnamed side effect once, and nothing else. */
  function GuardFor(user: seq<Test>, ss: seq<SideEffect>, id: string): seq<Test>
    requires CountsNatural(ss)
  {
    var s := LastWith(ss, id);
    if s.Some? && Naming(user, id) == [] then [GuardTest(s.value)] else []
  }

  lemma {:induction false} GuardsName(user: seq<Test>, ss: seq<SideEffect>, id: string)
    requires CountsNatural(ss) && DistinctIds(ss)
    ensures Naming(GuardTests(user, ss), id) == GuardFor(user, ss, id)
  {
    if ss != [] {
      var n := |ss| - 1;
      var last := ss[n];
      LastLookup(ss, id);
      GuardsName(user, ss[..n], id);
      var before := GuardTests(user, ss[..n]);
      var g := if Naming(user, last.sideEffectId) == [] then [GuardTest(last)] else [];
      assert GuardTests(user, ss) == before + g;
      NamingConcat(before, g, id);
      NamingSingle(g, id);
    }
  }

  lemma NamingSingle(g: seq<Test>, id: string)
    requires |g| <= 1
    ensures Naming(g, id) == if g != [] && g[0].negativeSideEffectId == Some(id) then g else []
  {
    if g != [] {
      assert g[..0] == [];
      assert g == [g[0]];
    }
  }

  // ---------------------------------------------------------------------------
  // Agreement of builder and validator
  // ---------------------------------------------------------------------------

  lemma SourceFacts(p: Platform, source: Contract)
    requires IsAuthoritative(p, source)
    ensures CountsNatural(source.content.negativeSideEffects) && DistinctIds(source.content.negativeSideEffects)
    ensures forall s :: s in source.content.negativeSideEffects ==> SideEffectShape(s)
  {
    AuthoritativeIdsAreDistinct(p, source);
  }

  /** The generated document meets the schema exactly when the input and the guard names fit. */
  lemma SchemaIffFits(p: Platform, input: RepairInput)
    requires OwnChecks(p, input)
    requires CountsNatural(input.semanticContract.content.negativeSideEffects)
    ensures RepairSchemaValid(p, Document(input)) <==> InputFits(p, input)
  {
    var source, doc := input.semanticContract, Document(input);
    SourceFacts(p, source);
    assert FrozenContent(doc) == source.content.(negativeSideEffects := []);
    TestsFitIff(p, input);
    SomeTest(p, input);
    TargetsAreScopes(p, input);
  }

  lemma TargetsAreScopes(p: Platform, input: RepairInput)
    requires OwnChecks(p, input)
    ensures forall m :: m in input.mustChange ==> Bounded(m.target, 300)
  {
    forall m | m in input.mustChange ensures Bounded(m.target, 300) {
      var ss := input.semanticContract.content.negativeSideEffects;
      var ref :| ref in input.rejectedAcceptanceRefs && LastWith(ss, ref).Some? && ScopeName(LastWith(ss, ref).value.spec.scope) == m.target;
      ScopeNamesAreShort(LastWith(ss, ref).value.spec.scope);
    }
  }

  /** There is always a test: the rejected side effect has one. */
  lemma SomeTest(p: Platform, input: RepairInput)
    requires OwnChecks(p, input)
    requires CountsNatural(input.semanticContract.content.negativeSideEffects)
    ensures Document(input).acceptanceTests != []
  {
    var ss := input.semanticContract.content.negativeSideEffects;
    var s := LastWith(ss, input.rejectedAcceptanceRefs[0]).value;
    if input.acceptanceTests == [] {
      assert GuardTest(s) in GuardTests(input.acceptanceTests, ss);
    }
  }

  lemma TestsFitIff(p: Platform, input: RepairInput)
    requires OwnChecks(p, input)
    requires CountsNatural(input.semanticContract.content.negativeSideEffects)
    ensures (forall t :: t in Document(input).acceptanceTests ==> TestShape(t)) <==>
            && (forall t :: t in input.acceptanceTests ==>
                  && |t.name| <= 200 && |t.expectation| <= 500 && (t.command.Some? ==> |t.command.value| <= 500)
                  && (t.negativeSideEffectRef.Some? ==> |t.negativeSideEffectRef.value| <= 300))
            && forall s :: s in input.semanticContract.content.negativeSideEffects && Naming(input.acceptanceTests, s.sideEffectId) == [] ==>
                 GuardFits(s)
  {
    var user, ss := input.acceptanceTests, input.semanticContract.content.negativeSideEffects;
    SourceFacts(p, input.semanticContract);
    GuardsFitIff(user, ss);
    forall t | t in user
      ensures TestShape(t) <==> && |t.name| <= 200 && |t.expectation| <= 500 && (t.command.Some? ==> |t.command.value| <= 500)
                                && (t.negativeSideEffectRef.Some? ==> |t.negativeSideEffectRef.value| <= 300)
    {
      assert UserTestOk(ss, t);
    }
    assert forall t :: t in Document(input).acceptanceTests <==> t in user || t in GuardTests(user, ss);
  }

  lemma GuardsFitIff(user: seq<Test>, ss: seq<SideEffect>)
    requires CountsNatural(ss) && forall s :: s in ss ==> SideEffectShape(s)
    ensures (forall t :: t in GuardTests(user, ss) ==> TestShape(t)) <==>
            forall s :: s in ss && Naming(user, s.sideEffectId) == [] ==> GuardFits(s)
  {
    forall s | s in ss ensures TestShape(GuardTest(s)) <==> GuardFits(s) { GuardFitsIff(s); }
    forall s | s in ss && Naming(user, s.sideEffectId) == [] ensures GuardTest(s) in GuardTests(user, ss) {}
  }

  /** A side effect is tested once in the document exactly when the user tests do not name it twice. */
  lemma OneTestIff(p: Platform, input: RepairInput, s: SideEffect)
    requires OwnChecks(p, input) && s in input.semanticContract.content.negativeSideEffects
    requires CountsNatural(input.semanticContract.content.negativeSideEffects)
    ensures OneTest(Document(input).acceptanceTests, s) <==> |Naming(input.acceptanceTests, s.sideEffectId)| <= 1
  {
    var user, ss := input.acceptanceTests, input.semanticContract.content.negativeSideEffects;
    SourceFacts(p, input.semanticContract);
    GuardsName(user, ss, s.sideEffectId);
    NamingConcat(user, GuardTests(user, ss), s.sideEffectId);
    OnlyEntry(ss, s);
    if Naming(user, s.sideEffectId) != [] {
      assert Naming(user, s.sideEffectId)[0] in user;
    }
  }

  lemma {:induction false} NamedTwice(ts: seq<Test>, id: string)
    ensures |Naming(ts, id)| <= 1 <==>
            forall i, j :: 0 <= i < j < |ts| && ts[i].negativeSideEffectId == Some(id) ==> ts[j].negativeSideEffectId != Some(id)
  {
    if ts != [] {
      var n := |ts| - 1;
      var init := ts[..n];
      assert ts == init + [ts[n]];
      NamedTwice(init, id);
      NamingSnoc(init, ts[n], id);
      NamedAtAll(init, id);
      assert forall i :: 0 <= i < n ==> init[i] == ts[i];
    }
  }

  lemma NamedAtAll(ts: seq<Test>, id: string)
    ensures Naming(ts, id) == [] <==> forall i :: 0 <= i < |ts| ==> ts[i].negativeSideEffectId != Some(id)
  {
    if Naming(ts, id) == [] {
      forall i | 0 <= i < |ts| ensures ts[i].negativeSideEffectId != Some(id) { assert ts[i] in ts; }
    } else {
      var t := Naming(ts, id)[0];
      assert t in Naming(ts, id);
      var i: nat :| i < |ts| && ts[i] == t;
    }
  }

  /** The rules accept the document exactly when the user tests agree. */
  lemma RulesIffTestsAgree(p: Platform, input: RepairInput)
    requires OwnChecks(p, input)
    requires CountsNatural(input.semanticContract.content.negativeSideEffects)
    ensures Acceptable(p, Document(input), Some(input.semanticContract)) <==> UserTestsAgree(input.acceptanceTests)
  {
    var user, ss := input.acceptanceTests, input.semanticContract.content.negativeSideEffects;
    SourceFacts(p, input.semanticContract);
    forall s | s in ss ensures OneTest(Document(input).acceptanceTests, s) <==> |Naming(user, s.sideEffectId)| <= 1 {
      OneTestIff(p, input, s);
    }
    forall id ensures |Naming(user, id)| <= 1 <==>
        forall i, j :: 0 <= i < j < |user| && user[i].negativeSideEffectId == Some(id) ==> user[j].negativeSideEffectId != Some(id)
    {
      NamedTwice(user, id);
    }
    ReferencesBind(p, input);
    DocumentCounts(p, input);
    NamesAgree(p, input);
  }

  lemma ReferencesBind(p: Platform, input: RepairInput)
    requires OwnChecks(p, input)
    ensures var ss := input.semanticContract.content.negativeSideEffects;
            && (forall r :: r in input.rejectedAcceptanceRefs ==> r in Ids(ss))
            && (forall m :: m in input.mustChange ==>
                  exists s :: s in ss && s.sideEffectId in input.rejectedAcceptanceRefs && ScopeName(s.spec.scope) == m.target)
  {
    var ss := input.semanticContract.content.negativeSideEffects;
    forall r | r in input.rejectedAcceptanceRefs ensures r in Ids(ss) { IdsHold(ss, r); }
    forall m | m in input.mustChange
      ensures exists s :: s in ss && s.sideEffectId in input.rejectedAcceptanceRefs && ScopeName(s.spec.scope) == m.target
    {
      ScopeOfSource(p, input.semanticContract, input.rejectedAcceptanceRefs, m.target);
    }
  }

  /** Only a test that names no side effect can bring a negative count. */
  lemma DocumentCounts(p: Platform, input: RepairInput)
    requires OwnChecks(p, input)
    requires CountsNatural(input.semanticContract.content.negativeSideEffects)
    ensures CountsOk(Document(input)) <==>
            forall t :: t in input.acceptanceTests && t.negativeSideEffectId.None? && t.expectedSideEffectCount.Some? ==>
                          t.expectedSideEffectCount.value >= 0
  {
    var user, ss := input.acceptanceTests, input.semanticContract.content.negativeSideEffects;
    forall t | t in user && t.negativeSideEffectId.Some? ensures t.expectedSideEffectCount.Some? && t.expectedSideEffectCount.value >= 0 {
      assert UserTestOk(ss, t);
    }
    forall t | t in GuardTests(user, ss) ensures t.expectedSideEffectCount.Some? && t.expectedSideEffectCount.value >= 0 {}
  }

  /** Naming each source side effect at most once is naming any side effect at most once. */
  lemma NamesAgree(p: Platform, input: RepairInput)
    requires OwnChecks(p, input)
    ensures (forall s :: s in input.semanticContract.content.negativeSideEffects ==> |Naming(input.acceptanceTests, s.sideEffectId)| <= 1)
            <==> forall i, j :: 0 <= i < j < |input.acceptanceTests| && input.acceptanceTests[i].negativeSideEffectId.Some? ==>
                   input.acceptanceTests[i].negativeSideEffectId != input.acceptanceTests[j].negativeSideEffectId
  {
    var user, ss := input.acceptanceTests, input.semanticContract.content.negativeSideEffects;
    if forall s :: s in ss ==> |Naming(user, s.sideEffectId)| <= 1 {
      forall i, j | 0 <= i < j < |user| && user[i].negativeSideEffectId.Some?
        ensures user[i].negativeSideEffectId != user[j].negativeSideEffectId
      {
        assert user[i] in user && UserTestOk(ss, user[i]);
        NamedTwice(user, user[i].negativeSideEffectId.value);
      }
    } else {
      var s :| s in ss && |Naming(user, s.sideEffectId)| > 1;
      NamedTwice(user, s.sideEffectId);
    }
  }

  // ---------------------------------------------------------------------------
  // The builder
  // ---------------------------------------------------------------------------

  /** At least one well-formed reference, no repetition, all of them known. */
  method CheckReferences(ss: seq<SideEffect>, refs: seq<string>) returns (ok: bool)
    ensures ok <==> ReferencesOk(ss, refs)
  {
    if refs == [] || exists r :: r in refs && !ValidSideEffectId(r) { return false; }
    var repeats, seen := ScanDuplicates(refs);
    NoRepeats(refs);
    if repeats != [] {
      assert repeats[0] in repeats;
      return false;
    }
    var byId := IndexById(ss);
    ok := forall r :: r in refs ==> r in byId;
  }

  method CheckUserTests(ss: seq<SideEffect>, ts: seq<Test>) returns (ok: bool)
    ensures ok <==> forall t :: t in ts ==> UserTestOk(ss, t)
  {
    var byId := IndexById(ss);
    for i := 0 to |ts|
      invariant forall t :: t in ts[..i] ==> UserTestOk(ss, t)
    {
      var t := ts[i];
      assert t in ts && ts[..i + 1] == ts[..i] + [t];
      var id := t.negativeSideEffectId;
      if id.None? && (t.negativeSideEffectRef.Some? || t.negativeSideEffectScope.Some?) { return false; }
      if id.Some? {
        assert LastWith(ss, id.value) == if id.value in byId then Some(byId[id.value]) else None;
        if !ValidSideEffectId(id.value) || id.value !in byId { return false; }
        if !Pins(t, byId[id.value]) { return false; }
      }
    }
    assert ts[..|ts|] == ts;
    ok := true;
  }

  /** A guard for every side effect that no test so far names. */
  method AddGuards(user: seq<Test>, ss: seq<SideEffect>) returns (tests: seq<Test>)
    requires CountsNatural(ss) && DistinctIds(ss)
    ensures tests == user + GuardTests(user, ss)
  {
    tests := user;
    for k := 0 to |ss|
      invariant CountsNatural(ss[..k])
      invariant tests == user + GuardTests(user, ss[..k])
    {
      NamedSoFar(user, ss, k);
      assert ss[k] in ss && ss[..k + 1][..k] == ss[..k];
      if Naming(tests, ss[k].sideEffectId) == [] { tests := tests + [GuardTest(ss[k])]; }
    }
    assert ss[..|ss|] == ss;
  }

  /** The guards added so far do not name the next side effect. */
  lemma NamedSoFar(user: seq<Test>, ss: seq<SideEffect>, k: nat)
    requires CountsNatural(ss) && DistinctIds(ss) && k < |ss|
    ensures CountsNatural(ss[..k]) && CountsNatural(ss[..k + 1])
    ensures Naming(user + GuardTests(user, ss[..k]), ss[k].sideEffectId) == Naming(user, ss[k].sideEffectId)
  {
    var id := ss[k].sideEffectId;
    var upTo := ss[..k + 1];
    assert forall i :: 0 <= i <= k ==> Ids(upTo)[i] == Ids(ss)[i];
    assert upTo[..k] == ss[..k];
    LastLookup(upTo, id);
    GuardsName(user, ss[..k], id);
    NamingConcat(user, GuardTests(user, ss[..k]), id);
  }

  /** A generated test guards this side effect: its requirement, its identity, its place, its scope and its count. */
  ghost predicate Guards(t: Test, s: SideEffect) {
    && t.expectation == s.spec.requirement && t.command.None?
    && t.negativeSideEffectId == Some(s.sideEffectId)
    && t.negativeSideEffectRef == Some(s.spec.gate + "::" + ScopeName(s.spec.scope))
    && t.negativeSideEffectScope == Some(s.spec.scope) && t.expectedSideEffectCount == Some(s.spec.expectedCount)
  }

  /** The built document, read off the input: its texts, its source, its tests, and what it freezes. */
  ghost predicate CarriesInput(input: RepairInput, doc: RepairContract) {
    var k := input.semanticContract.content;
    // the input's own words
    && doc.repairId == input.repairId && doc.createdAt == input.createdAt
    && doc.rejectedAcceptanceRefs == input.rejectedAcceptanceRefs
    && doc.objective == input.objective && doc.violation == input.violation && doc.requiredBehavior == input.requiredBehavior
    && doc.mustChange == input.mustChange && doc.mustNotChange == input.mustNotChange && doc.verification == input.verification
    && doc.findingRefs == input.findingRefs
    // the source it is bound to
    && doc.contractKey == k.contractKey && doc.sourceSemanticDigest == input.semanticContract.semanticDigest
    && doc.riskClass == k.riskClass && doc.negativeSideEffects == k.negativeSideEffects
    // the user's tests, then one guard for each side effect that none of them names
    && input.acceptanceTests <= doc.acceptanceTests
    && GuardsExactly(doc.acceptanceTests[|input.acceptanceTests|..], input.acceptanceTests, k.negativeSideEffects)
    // everything else of the source is frozen, its side effects as far as they were not rejected
    && doc.frozenSemantics.sourceObjects == k.sourceObjects && doc.frozenSemantics.concepts == k.concepts
    && doc.frozenSemantics.distinctConcepts == k.distinctConcepts && doc.frozenSemantics.factsEstablished == k.factsEstablished
    && doc.frozenSemantics.unresolvedSemantics == k.unresolvedSemantics
    && (forall s :: s in doc.frozenSemantics.negativeSideEffects <==> s in k.negativeSideEffects && s.sideEffectId !in input.rejectedAcceptanceRefs)
  }

  /** These tests guard exactly the side effects that the user's tests do not name. */
  ghost predicate GuardsExactly(guards: seq<Test>, user: seq<Test>, ss: seq<SideEffect>) {
    && (forall t :: t in guards ==> exists s :: s in ss && Guards(t, s) && !NamedBy(user, s.sideEffectId))
    && (forall s :: s in ss && !NamedBy(user, s.sideEffectId) ==> exists t :: t in guards && Guards(t, s))
  }

  ghost predicate NamedBy(ts: seq<Test>, id: string) { exists t :: t in ts && t.negativeSideEffectId == Some(id) }

  lemma DocumentCarriesInput(input: RepairInput)
    requires CountsNatural(input.semanticContract.content.negativeSideEffects)
    ensures CarriesInput(input, Document(input))
  {
    var user, ss := input.acceptanceTests, input.semanticContract.content.negativeSideEffects;
    GuardTestsGuard(user, ss);
    assert Document(input).acceptanceTests[|user|..] == GuardTests(user, ss);
  }

  lemma GuardTestsGuard(user: seq<Test>, ss: seq<SideEffect>)
    requires CountsNatural(ss)
    ensures GuardsExactly(GuardTests(user, ss), user, ss)
  {
    var guards := GuardTests(user, ss);
    forall s | s in ss ensures Naming(user, s.sideEffectId) == [] <==> !NamedBy(user, s.sideEffectId) { NamedIsNaming(user, s.sideEffectId); }
    forall s | s in ss && !NamedBy(user, s.sideEffectId) ensures exists t :: t in guards && Guards(t, s) {
      assert GuardTest(s) in guards && Guards(GuardTest(s), s);
    }
    forall t | t in guards ensures exists s :: s in ss && Guards(t, s) && !NamedBy(user, s.sideEffectId) {
      var s :| s in ss && Naming(user, s.sideEffectId) == [] && t == GuardTest(s);
      assert Guards(t, s);
    }
  }

  lemma NamedIsNaming(ts: seq<Test>, id: string)
    ensures Naming(ts, id) == [] <==> !NamedBy(ts, id)
  {
    NamedAtAll(ts, id);
  }

  /** Exactly the inputs that build. */
  ghost predicate Builds(p: Platform, input: RepairInput) {
    && OwnChecks(p, input) && CountsNatural(input.semanticContract.content.negativeSideEffects)
    && InputFits(p, input) && UserTestsAgree(input.acceptanceTests)
  }

  /**
   The builder returns exactly when its own checks hold, the texts fit the schema and the user tests
   agree; and whatever it returns is a document that the validator accepts.
   */
  method BuildRepairContract(p: Platform, input: RepairInput) returns (r: Result<RepairContract, BuildError>)
    ensures r.Ok? <==> Builds(p, input)
    ensures r.Ok? ==>
              && CountsNatural(input.semanticContract.content.negativeSideEffects) && r.value == Document(input)
              && RepairSchemaValid(p, r.value) && Acceptable(p, r.value, Some(input.semanticContract))
    ensures r.Ok? ==> CarriesInput(input, r.value)
    // every failure is an own check that fails, or a validator's complaint about schema bounds or user tests
    ensures r.Err? && !r.error.ValidationFailed? ==> !OwnChecks(p, input)
    ensures r.Err? && r.error.ValidationFailed? ==> OwnChecks(p, input)
  {
    var source := input.semanticContract;
    var ss := source.content.negativeSideEffects;
    var reason := AuthorityFailureReason(p, source);
    if reason.Some? { return Err(SourceNotAuthoritative); }
    var ok := CheckReferences(ss, input.rejectedAcceptanceRefs);
    if !ok { return Err(BadReferences); }
    if !TextsOk(input) { return Err(BadText); }
    if exists m :: m in input.mustChange && !InScope(ss, input.rejectedAcceptanceRefs, m.target) { return Err(OutsideScope); }
    ok := CheckUserTests(ss, input.acceptanceTests);
    if !ok { return Err(BadUserTest); }
    SourceFacts(p, source);
    var tests := AddGuards(input.acceptanceTests, ss);
    var doc := Document(input).(acceptanceTests := tests);
    var valid, errors := ValidateAcceptanceContract(p, doc, Some(source));
    SchemaIffFits(p, input);
    RulesIffTestsAgree(p, input);
    if !valid { return Err(ValidationFailed(errors)); }
    DocumentCarriesInput(input);
    r := Ok(doc);
  }

  // ---------------------------------------------------------------------------
  // Where builder and validator disagree
  // ---------------------------------------------------------------------------

  /** The plainest repair of one side effect. */
  function PlainRepair(source: Contract, s: SideEffect): RepairInput {
    RepairInput(source, [s.sideEffectId], "objective", "violation", "behavior", [Change(ScopeName(s.spec.scope), "change")], [], [],
                [Check("method", "expectation")], None, "2026-01-01T00:00:00.000Z", "lcim_repair_1")
  }

  /**
   For every authoritative contract with a side effect whose generated name has no room, the plainest
   repair of it passes the builder's own checks, and the validator refuses what was built.
   */
  method LongGuardIsRefused(p: Platform, source: Contract, s: SideEffect) returns (r: Result<RepairContract, BuildError>)
    requires IsAuthoritative(p, source) && s in source.content.negativeSideEffects
    requires s.spec.expectedCount >= 0 && !GuardFits(s)
    ensures OwnChecks(p, PlainRepair(source, s)) && r.Err? && r.error.ValidationFailed?
  {
    var ss := source.content.negativeSideEffects;
    SourceFacts(p, source);
    OnlyEntry(ss, s);
    ScopeNamesAreShort(s.spec.scope);
    var input := PlainRepair(source, s);
    assert s.sideEffectId in input.rejectedAcceptanceRefs;
    assert Naming(input.acceptanceTests, s.sideEffectId) == [];
    r := BuildRepairContract(p, input);
  }

  const ZEROS: string := seq(64, _ => '0')
  /** One identity and one digest for everything, and no complaint about the parts that no rule reads. */
  const PLATFORM := Platform((r: Requirement) => "se_" + ZEROS, (k: Content) => ZEROS, (k: Content) => true,
                             (title: string, at: string) => true, (id: string, at: string) => true)
  const LONG_GATE := SideEffect(Requirement(seq(88, _ => 'g'), database, "requirement", 0, None), "se_" + ZEROS)
  const LONG_GATED := Contract(Content("key", LOW_RISK, [], [], [], [LONG_GATE], [], []), "title", COMPILED, "2026-01-01T00:00:00.000Z", ZEROS, [])

  /** It happens: gate, scope and count of 97 characters together. */
  method LongGateIsRefused() returns (r: Result<RepairContract, BuildError>)
    ensures |LONG_GATE.spec.gate| + |ScopeName(LONG_GATE.spec.scope)| + |Digits(LONG_GATE.spec.expectedCount)| == 97
    ensures OwnChecks(PLATFORM, PlainRepair(LONG_GATED, LONG_GATE)) && r.Err? && r.error.ValidationFailed?
  {
    assert |ScopeName(database)| == 8 && |Digits(0)| == 1;
    assert LONG_GATE.sideEffectId[..3] == "se_" && LONG_GATE.sideEffectId[3..] == ZEROS;
    assert IsAuthoritative(PLATFORM, LONG_GATED);
    r := LongGuardIsRefused(PLATFORM, LONG_GATED, LONG_GATE);
  }
}
