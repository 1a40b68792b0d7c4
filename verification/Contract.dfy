/** Semantic contracts as values, and the two content hashes they are stamped with. */
module Contracts {
  import opened Options

  datatype RiskClass =
    | AUTHORIZATION_SECURITY_PROVIDER | MIGRATION | IDENTITY | FINANCIAL | PRODUCTION_EXECUTION
    | IRREVERSIBLE_LIFECYCLE_DATA | LOW_RISK
  datatype ConceptKind = FieldKind | Record | DigestKind | IdentityKind | Registry | Ticker | Timestamp | EnumKind | Provider | Mutation | Gate
  datatype Scope = provider_factory | network | database | lock | mutation
  datatype EvidenceKind = instrumented_counter | audit_log | transaction_count | lock_acquire_count
  datatype CompileStatus = COMPILED | CONTRACT_REVIEW_REQUIRED

  predicate IsHighRisk(r: RiskClass) { r != LOW_RISK }

  /** The parts that no rule reads are kept together in `rest`. */
  datatype SourceObject = SourceObject(key: string, rest: string)
  datatype Transition = Transition(from: string, to: string)
  datatype Concept = Concept(
    name: string, kind: ConceptKind, authoritativeFieldNames: seq<string>, digestMeaning: Option<string>,
    identityMeaning: Option<string>, sourceObjectKey: Option<string>, lifecycle: seq<string>,
    allowedTransitions: seq<Transition>, forbiddenAlternatives: seq<string>, rest: string)
  datatype DistinctPair = DistinctPair(conceptA: string, conceptB: string, alsoDistinctFrom: seq<string>, rest: string)
  datatype Requirement = Requirement(
    gate: string, scope: Scope, requirement: string, expectedCount: int, evidenceKind: Option<EvidenceKind>)
  datatype SideEffect = SideEffect(spec: Requirement, sideEffectId: string)
  datatype Unresolved = Unresolved(question: string, riskClass: RiskClass, rest: string)

  /** Everything that carries authority. */
  datatype Content = Content(
    contractKey: string, riskClass: RiskClass, sourceObjects: seq<SourceObject>, concepts: seq<Concept>,
    distinctConcepts: seq<DistinctPair>, negativeSideEffects: seq<SideEffect>, factsEstablished: seq<string>,
    unresolvedSemantics: seq<Unresolved>)

  datatype Warning = Warning(code: string, message: string, path: string)

  datatype Contract = Contract(
    content: Content, title: string, compileStatus: CompileStatus, compiledAt: string, semanticDigest: string,
    compileWarnings: seq<Warning>)

  /**
   What the model does not spell out: the two content hashes, and the schema's verdict on the parts
   that no rule reads (`coreShapes` ignores the side effects, whose shape is spelled out).
   */
  datatype Platform = Platform(
    sideEffectId: Requirement -> string, semanticDigest: Content -> string, coreShapes: Content -> bool,
    envelope: (string, string) -> bool, stamps: (string, string) -> bool)

  function ComputeCompileStatus(us: seq<Unresolved>): (s: CompileStatus)
    ensures s == COMPILED <==> forall u :: u in us ==> !IsHighRisk(u.riskClass)
  {
    if exists u :: u in us && IsHighRisk(u.riskClass) then CONTRACT_REVIEW_REQUIRED else COMPILED
  }

  predicate HexDigits(s: string) { forall i :: 0 <= i < |s| ==> '0' <= s[i] <= '9' || 'a' <= s[i] <= 'f' }

  predicate ValidSideEffectId(id: string) { |id| == 67 && id[..3] == "se_" && HexDigits(id[3..]) }

  predicate DigestShape(d: string) { |d| == 64 && HexDigits(d) }

  predicate ValidFindingId(id: string) { |id| == 45 && id[..13] == "lcim_finding_" && HexDigits(id[13..]) }

  predicate HexAt(s: string, i: nat) { i < |s| && (s[i] in "0123456789" || s[i] in "abcdef") }

  /** The shapes of identities and digests, character by character. */
  lemma ShapesAre(s: string)
    ensures ValidSideEffectId(s) <==> |s| == 67 && s[0] == 's' && s[1] == 'e' && s[2] == '_' && forall i: nat :: 3 <= i < 67 ==> HexAt(s, i)
    ensures DigestShape(s) <==> |s| == 64 && forall i: nat :: i < 64 ==> HexAt(s, i)
    ensures ValidFindingId(s) <==> |s| == 45 && s[..5] == "lcim_" && s[5..13] == "finding_" && forall i: nat :: 13 <= i < 45 ==> HexAt(s, i)
  {
    forall c: char ensures c in "0123456789" || c in "abcdef" <==> '0' <= c <= '9' || 'a' <= c <= 'f' { HexLetters(c); }
    if |s| == 67 {
      assert s[..3] == [s[0], s[1], s[2]];
      HexFrom(s, 3);
    }
    if |s| == 64 { HexFrom(s, 0); }
    if |s| == 45 {
      assert s[..13] == s[..5] + s[5..13];
      assert "lcim_finding_"[..5] == "lcim_" && "lcim_finding_"[5..] == "finding_";
      HexFrom(s, 13);
    }
  }

  lemma HexLetters(c: char)
    ensures c in "0123456789" || c in "abcdef" <==> '0' <= c <= '9' || 'a' <= c <= 'f'
  {}

  lemma HexFrom(s: string, n: nat)
    requires n <= |s|
    ensures HexDigits(s[n..]) <==> forall i: nat :: n <= i < |s| ==> HexAt(s, i)
  {
    forall c: char ensures c in "0123456789" || c in "abcdef" <==> '0' <= c <= '9' || 'a' <= c <= 'f' { HexLetters(c); }
    if HexDigits(s[n..]) {
      forall i: nat | n <= i < |s| ensures HexAt(s, i) { assert s[n..][i - n] == s[i]; }
    }
    if forall i: nat :: n <= i < |s| ==> HexAt(s, i) {
      forall i | 0 <= i < |s[n..]| ensures '0' <= s[n..][i] <= '9' || 'a' <= s[n..][i] <= 'f' { assert HexAt(s, n + i); }
    }
  }

  predicate Bounded(s: string, max: nat) { 1 <= |s| <= max }

  predicate SideEffectShape(s: SideEffect) {
    Bounded(s.spec.gate, 300) && Bounded(s.spec.requirement, 500) && ValidSideEffectId(s.sideEffectId)
  }

  /** The schema's bounds on attached warnings. */
  predicate WarningFits(w: Warning) { Bounded(w.code, 100) && Bounded(w.message, 500) && |w.path| <= 300 }

  predicate WarningsFit(ws: seq<Warning>) { forall w :: w in ws ==> WarningFits(w) }

  /** The semantic-contract schema. */
  predicate SchemaValid(p: Platform, doc: Contract) {
    && p.coreShapes(doc.content.(negativeSideEffects := [])) && p.envelope(doc.title, doc.compiledAt)
    && (forall s :: s in doc.content.negativeSideEffects ==> SideEffectShape(s))
    && DigestShape(doc.semanticDigest) && WarningsFit(doc.compileWarnings)
  }

  /** A natural number in decimal. */
  function Digits(n: nat): string {
    if n < 10 then [n as char + '0'] else Digits(n / 10) + [(n % 10) as char + '0']
  }

  /** The number that a decimal numeral stands for. */
  function Numeral(s: string): int {
    if s == "" then 0 else 10 * Numeral(s[..|s| - 1]) + (s[|s| - 1] as int - 48)
  }

  /** A numeral is made of digits, without a leading zero, and stands for its number. */
  lemma {:induction false} DigitsMean(n: nat)
    ensures var s := Digits(n);
            && s != "" && (forall i :: 0 <= i < |s| ==> '0' <= s[i] <= '9') && (s[0] == '0' ==> n == 0 && s == "0")
            && Numeral(s) == n
  {
    if n < 10 {
      assert Digits(n)[..0] == "";
    } else {
      DigitsMean(n / 10);
      var init := Digits(n / 10);
      assert Digits(n)[..|init|] == init;
    }
  }
}
