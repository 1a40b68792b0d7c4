/**
 Compiling a semantic contract: derive identities and the digest, validate the result, attach the
 warnings.  The warnings are attached after validation, so they can take away what was validated.
 */
module Compiler {
  import opened Options
  import opened Contracts
  import opened SemanticRules

  datatype Input = Input(
    contractKey: string, title: string, riskClass: RiskClass, sourceObjects: seq<SourceObject>, concepts: seq<Concept>,
    distinctConcepts: seq<DistinctPair>, negativeSideEffects: seq<Requirement>, factsEstablished: seq<string>,
    unresolvedSemantics: seq<Unresolved>)

  datatype CompileError = MalformedInput | SchemaRejects | RulesReject(problems: seq<Problem>)

  /** The compiler's own input assertions. */
  predicate InputOk(input: Input) {
    && input.contractKey != "" && input.title != ""
    && (forall o :: o in input.sourceObjects ==> o.key != "")
    && (forall c :: c in input.concepts ==> c.name != "" && "" !in c.authoritativeFieldNames)
    && (forall d :: d in input.distinctConcepts ==> d.conceptA != "" && d.conceptB != "")
    && (forall s :: s in input.negativeSideEffects ==> s.gate != "" && s.requirement != "" && s.expectedCount >= 0)
  }

  function Identified(p: Platform, rs: seq<Requirement>): seq<SideEffect> {
    seq(|rs|, i requires 0 <= i < |rs| => SideEffect(rs[i], p.sideEffectId(rs[i])))
  }

  function ContentOf(p: Platform, input: Input): Content {
    Content(input.contractKey, input.riskClass, input.sourceObjects, input.concepts, input.distinctConcepts,
            Identified(p, input.negativeSideEffects), input.factsEstablished, input.unresolvedSemantics)
  }

  function Stamped(p: Platform, input: Input, compiledAt: string): Contract {
    var k := ContentOf(p, input);
    Contract(k, input.title, ComputeCompileStatus(input.unresolvedSemantics), compiledAt, p.semanticDigest(k), [])
  }

  /** The text of a notice. */
  function Render(k: Content, x: Notice): Warning
    requires NoticeDue(k, x)
  {
    match x
    case MISSING_DIGEST_MEANING(i) =>
      Warning("MISSING_DIGEST_MEANING",
              "digest concept '" + k.concepts[i].name + "' declares no digestMeaning; its distinctness cannot be verified",
              "concepts[" + Digits(i) + "].digestMeaning")
    case MISSING_IDENTITY_MEANING(i) =>
      Warning("MISSING_IDENTITY_MEANING",
              "identity concept '" + k.concepts[i].name + "' declares no identityMeaning; its binding cannot be verified",
              "concepts[" + Digits(i) + "].identityMeaning")
    case MISSING_SOURCE_OF_TRUTH(i) =>
      Warning("MISSING_SOURCE_OF_TRUTH",
              "concept '" + k.concepts[i].name + "' references no source object; authoritative origin is unverifiable",
              "concepts[" + Digits(i) + "].sourceObjectKey")
    case FORBIDDEN_ALTERNATIVE_OVERLAP(i, a, owner) =>
      Warning("FORBIDDEN_ALTERNATIVE_OVERLAP",
              "forbidden alternative '" + a + "' is claimed by both '" + owner + "' and '" + k.concepts[i].name + "'",
              "concepts[" + Digits(i) + "].forbiddenAlternatives")
  }

  /** The longest part of a notice that its message can hold. */
  predicate NoticeFits(k: Content, x: Notice)
    requires NoticeDue(k, x)
  {
    match x
    case MISSING_DIGEST_MEANING(i) => |k.concepts[i].name| <= 420 && |Digits(i)| <= 276
    case MISSING_IDENTITY_MEANING(i) => |k.concepts[i].name| <= 421 && |Digits(i)| <= 274
    case MISSING_SOURCE_OF_TRUTH(i) => |k.concepts[i].name| <= 424 && |Digits(i)| <= 274
    case FORBIDDEN_ALTERNATIVE_OVERLAP(i, a, owner) => |a| + |owner| + |k.concepts[i].name| <= 447 && |Digits(i)| <= 268
  }

  lemma FitsIffShort(k: Content, x: Notice)
    requires NoticeDue(k, x)
    ensures WarningFits(Render(k, x)) <==> NoticeFits(k, x)
  {}

  /** Every notice of the content fits the schema's bounds: lengths that a caller can read off the input. */
  ghost predicate NoticesFit(k: Content) { forall x :: NoticeDue(k, x) ==> NoticeFits(k, x) }

  /** The compiled document: the stamped one, with exactly the due notices attached. */
  ghost predicate CompiledFrom(p: Platform, input: Input, compiledAt: string, doc: Contract) {
    && doc.(compileWarnings := []) == Stamped(p, input, compiledAt)
    && (forall w :: w in doc.compileWarnings <==> exists x :: NoticeDue(doc.content, x) && w == Render(doc.content, x))
  }

  method RenderAll(k: Content, notices: seq<Notice>) returns (ws: seq<Warning>)
    requires forall x :: x in notices ==> NoticeDue(k, x)
    ensures forall w :: w in ws <==> exists x :: x in notices && w == Render(k, x)
  {
    ws := [];
    for n := 0 to |notices|
      invariant forall w :: w in ws <==> exists x :: x in notices[..n] && w == Render(k, x)
    {
      assert notices[..n + 1] == notices[..n] + [notices[n]];
      assert notices[n] in notices;
      ws := ws + [Render(k, notices[n])];
    }
    assert notices[..|notices|] == notices;
  }

  /** What a derived document cannot get wrong: its status, its counts, its identities, its digest. */
  lemma DerivedPartsAreRight(p: Platform, input: Input, compiledAt: string, x: Problem)
    requires InputOk(input) && Due(p, Stamped(p, input, compiledAt), x)
    ensures !x.STATUS_MISMATCH? && !x.DIGEST_MISMATCH? && !x.INVALID_SIDE_EFFECT_COUNT? && !x.SIDE_EFFECT_ID_MISMATCH?
  {
    assert forall i :: 0 <= i < |input.negativeSideEffects| ==> input.negativeSideEffects[i].expectedCount >= 0;
  }

  // ---------------------------------------------------------------------------
  // The result, read off the input
  // ---------------------------------------------------------------------------

  /** Something the compiler's own assertions refuse. */
  ghost predicate Malformed(input: Input) {
    || input.contractKey == "" || input.title == ""
    || (exists o :: o in input.sourceObjects && o.key == "")
    || (exists c :: c in input.concepts && (c.name == "" || "" in c.authoritativeFieldNames))
    || (exists d :: d in input.distinctConcepts && (d.conceptA == "" || d.conceptB == ""))
    || (exists s :: s in input.negativeSideEffects && (s.gate == "" || s.requirement == "" || s.expectedCount < 0))
  }

  /** A side effect of the document: the requirement at the same place of the input, under the identity of its content. */
  ghost predicate CarriesRequirement(p: Platform, s: SideEffect, r: Requirement) { s.spec == r && s.sideEffectId == p.sideEffectId(r) }

  /** Field by field the input's own content. */
  ghost predicate CarriesContent(p: Platform, input: Input, k: Content) {
    && k.contractKey == input.contractKey && k.riskClass == input.riskClass
    && k.sourceObjects == input.sourceObjects && k.concepts == input.concepts && k.distinctConcepts == input.distinctConcepts
    && k.factsEstablished == input.factsEstablished && k.unresolvedSemantics == input.unresolvedSemantics
    && |k.negativeSideEffects| == |input.negativeSideEffects|
    && forall i :: 0 <= i < |k.negativeSideEffects| ==> CarriesRequirement(p, k.negativeSideEffects[i], input.negativeSideEffects[i])
  }

  /** And the parts around it: title and time are given, status and digest follow from the content. */
  ghost predicate CarriesInput(p: Platform, input: Input, compiledAt: string, doc: Contract) {
    && CarriesContent(p, input, doc.content)
    && doc.title == input.title && doc.compiledAt == compiledAt && doc.semanticDigest == p.semanticDigest(doc.content)
    && (doc.compileStatus == COMPILED <==> forall u :: u in input.unresolvedSemantics ==> u.riskClass == LOW_RISK)
  }

  /** The rules on the input's own lists. */
  ghost predicate RulesAccept(p: Platform, input: Input) {
    && Distinct(Keys(input.sourceObjects)) && Distinct(Names(input.concepts)) && FieldsOwnedOnce(input.concepts)
    && (forall c :: c in input.concepts ==> ConceptOk(input.concepts, input.sourceObjects, c))
    && (forall d :: d in input.distinctConcepts ==> PairOk(input.concepts, d))
    && forall i, j :: 0 <= i < j < |input.negativeSideEffects| && ValidSideEffectId(p.sideEffectId(input.negativeSideEffects[i])) ==>
         p.sideEffectId(input.negativeSideEffects[i]) != p.sideEffectId(input.negativeSideEffects[j])
  }

  /** The schema on the input: its verdict on the parts that no rule reads, and the bounds on side effects and digest. */
  ghost predicate SchemaAccepts(p: Platform, input: Input, compiledAt: string) {
    && p.coreShapes(Content(input.contractKey, input.riskClass, input.sourceObjects, input.concepts, input.distinctConcepts, [],
                            input.factsEstablished, input.unresolvedSemantics))
    && p.envelope(input.title, compiledAt)
    && (forall s :: s in input.negativeSideEffects ==>
          1 <= |s.gate| <= 300 && 1 <= |s.requirement| <= 500 && ValidSideEffectId(p.sideEffectId(s)))
    && forall k :: CarriesContent(p, input, k) ==> DigestShape(p.semanticDigest(k))
  }

  lemma StampedCarries(p: Platform, input: Input, compiledAt: string)
    ensures CarriesInput(p, input, compiledAt, Stamped(p, input, compiledAt))
    ensures forall k :: CarriesContent(p, input, k) ==> k == ContentOf(p, input)
  {
    var doc := Stamped(p, input, compiledAt);
    forall k | CarriesContent(p, input, k) ensures k == ContentOf(p, input) {
      forall i | 0 <= i < |k.negativeSideEffects| ensures k.negativeSideEffects[i] == ContentOf(p, input).negativeSideEffects[i] {
        assert CarriesRequirement(p, k.negativeSideEffects[i], input.negativeSideEffects[i]);
      }
      assert k.negativeSideEffects == ContentOf(p, input).negativeSideEffects;
    }
  }

  /** The checks on the stamped document are checks on the input. */
  lemma ChecksAreOnInput(p: Platform, input: Input, compiledAt: string)
    ensures InputOk(input) <==> !Malformed(input)
    ensures SchemaValid(p, Stamped(p, input, compiledAt)) <==> SchemaAccepts(p, input, compiledAt)
    ensures InputOk(input) ==> (ContentOk(p, ContentOf(p, input)) <==> RulesAccept(p, input))
  {
    StampedCarries(p, input, compiledAt);
    SideEffectsCarried(p, input);
  }

  lemma SideEffectsCarried(p: Platform, input: Input)
    ensures var ss, rs := ContentOf(p, input).negativeSideEffects, input.negativeSideEffects;
            && (forall s :: s in ss ==> s.spec in rs && s.sideEffectId == p.sideEffectId(s.spec))
            && (forall r :: r in rs ==> SideEffect(r, p.sideEffectId(r)) in ss)
  {
    var ss, rs := ContentOf(p, input).negativeSideEffects, input.negativeSideEffects;
    forall r | r in rs ensures SideEffect(r, p.sideEffectId(r)) in ss {
      var i: nat :| i < |rs| && rs[i] == r;
      assert ss[i] == SideEffect(r, p.sideEffectId(r));
    }
  }

  method CompileSemanticContract(p: Platform, input: Input, compiledAt: string) returns (r: Result<Contract, CompileError>)
    // exactly when it compiles, on the input alone
    ensures r.Ok? <==> !Malformed(input) && SchemaAccepts(p, input, compiledAt) && RulesAccept(p, input)
    ensures r.Err? ==> (r.error.MalformedInput? <==> Malformed(input))
    ensures r.Err? ==> (r.error.SchemaRejects? <==> !Malformed(input) && !SchemaAccepts(p, input, compiledAt))
    // what it gives, and when that is authoritative
    ensures r.Ok? ==> CarriesInput(p, input, compiledAt, r.value)
    ensures r.Ok? ==> CompiledFrom(p, input, compiledAt, r.value) && SemanticallyValid(p, r.value)
    ensures r.Ok? ==> (IsAuthoritative(p, r.value) <==>
                       (forall u :: u in input.unresolvedSemantics ==> u.riskClass == LOW_RISK) && NoticesFit(r.value.content))
    // why it fails
    ensures r.Err? && r.error.RulesReject? ==>
              && r.error.problems != []
              && forall x :: x in r.error.problems <==> Due(p, Stamped(p, input, compiledAt), x)
  {
    ChecksAreOnInput(p, input, compiledAt);
    StampedCarries(p, input, compiledAt);
    if !InputOk(input) { return Err(MalformedInput); }
    var stamped := Stamped(p, input, compiledAt);
    if !SchemaValid(p, stamped) { return Err(SchemaRejects); }
    var errors, notices := ApplySemanticRules(p, stamped);
    NothingDueIffValid(p, stamped);
    if errors != [] {
      assert errors[0] in errors;
      return Err(RulesReject(errors));
    }
    var ws := RenderAll(stamped.content, notices);
    r := Ok(stamped.(compileWarnings := ws));
    CompiledIsAuthoritative(p, input, compiledAt, r.value);
  }

  /** A compiled document is authoritative exactly when nothing high-risk is unresolved and every warning fits. */
  lemma CompiledIsAuthoritative(p: Platform, input: Input, compiledAt: string, doc: Contract)
    requires CompiledFrom(p, input, compiledAt, doc)
    requires SchemaValid(p, Stamped(p, input, compiledAt)) && ContentOk(p, ContentOf(p, input))
    ensures IsAuthoritative(p, doc) <==>
            (forall u :: u in input.unresolvedSemantics ==> !IsHighRisk(u.riskClass)) && NoticesFit(ContentOf(p, input))
  {
    var k := ContentOf(p, input);
    assert doc.content == k;
    forall x | NoticeDue(k, x) ensures WarningFits(Render(k, x)) <==> NoticeFits(k, x) { FitsIffShort(k, x); }
    if WarningsFit(doc.compileWarnings) {
      forall x | NoticeDue(k, x) ensures NoticeFits(k, x) { assert Render(k, x) in doc.compileWarnings; }
    }
  }

  /** A digest concept with a long name and no stated meaning. */
  function LongNamed(): Input {
    Input("k", "t", LOW_RISK, [SourceObject("s", "")],
          [Concept(seq(421, _ => 'a'), DigestKind, ["f"], None, None, Some("s"), [], [], [], "")], [], [], [], [])
  }

  /** It compiles, is not high-risk, and yet is not authoritative. */
  lemma LongNameLosesAuthority(p: Platform, compiledAt: string, doc: Contract)
    requires SchemaValid(p, Stamped(p, LongNamed(), compiledAt)) && CompiledFrom(p, LongNamed(), compiledAt, doc)
    ensures InputOk(LongNamed()) && ContentOk(p, ContentOf(p, LongNamed())) && doc.compileStatus == COMPILED
    ensures !IsAuthoritative(p, doc)
  {
    var input := LongNamed();
    var k := ContentOf(p, input);
    assert Keys(k.sourceObjects)[0] == "s";
    assert k.concepts == [input.concepts[0]];
    assert InputOk(input) by { assert input.concepts[0].name[0] == 'a'; }
    assert ContentOk(p, k);
    assert NoticeDue(k, MISSING_DIGEST_MEANING(0)) && !NoticeFits(k, MISSING_DIGEST_MEANING(0));
    CompiledIsAuthoritative(p, input, compiledAt, doc);
  }
}
