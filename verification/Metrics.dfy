/** Workflow metrics over the projections: counts that partition, and totals that stay unknown until complete. */
module Metrics {
  import opened Options
  import opened Lists
  import opened Projections
  import L = Ledger
  import Sorting

  // ---------------------------------------------------------------------------
  // Dimension counts
  // ---------------------------------------------------------------------------

  function At<T>(counts: map<T, nat>, k: T): nat { if k in counts then counts[k] else 0 }

  function Total<T>(counts: map<T, nat>, keys: seq<T>): nat {
    if keys == [] then 0 else Total(counts, keys[..|keys| - 1]) + At(counts, keys[|keys| - 1])
  }

  function Tally<T(==)>(values: seq<T>): map<T, nat> {
    if values == [] then map[] else
      var before, v := Tally(values[..|values| - 1]), values[|values| - 1];
      before[v := At(before, v) + 1]
  }

  method CountBy<T(==, !new)>(values: seq<T>) returns (counts: map<T, nat>)
    ensures counts == Tally(values)
  {
    counts := map[];
    for n := 0 to |values|
      invariant counts == Tally(values[..n])
    {
      var v := values[n];
      assert values[..n + 1][..n] == values[..n];
      counts := counts[v := At(counts, v) + 1];
    }
    assert values[..|values|] == values;
  }

  function Listed<T(==)>(keys: seq<T>): T -> bool { (x: T) => x in keys }

  /** The counts are the multiplicities, and add up to the number of lines: nothing is lost or counted twice. */
  lemma {:induction false} TallyConserves<T(!new)>(values: seq<T>)
    ensures forall v :: v in Tally(values) <==> v in values
    ensures forall v :: v in Tally(values) ==> Tally(values)[v] == multiset(values)[v]
    ensures Total(Tally(values), FirstSeen(values)) == |values|
  {
    TotalOfCover(values, FirstSeen(values));
    if values != [] {
      var init, v := values[..|values| - 1], values[|values| - 1];
      assert values == init + [v];
      TallyConserves(init);
    }
  }

  /** The counts of distinct keys add up to the number of values among them. */
  lemma {:induction false} TotalCounts<T(!new)>(values: seq<T>, keys: seq<T>)
    requires NoDuplicates(keys)
    ensures Total(Tally(values), keys) == |Filter(values, Listed(keys))|
  {
    if values == [] {
      TotalOfNothing(Tally(values), keys);
    } else {
      var init, v := values[..|values| - 1], values[|values| - 1];
      assert values == init + [v];
      TotalCounts(init, keys);
      TotalBump(Tally(init), Tally(values), keys, v);
      FilterSnoc(init, v, Listed(keys));
    }
  }

  /** Distinct keys that cover the values: their counts are all of them. */
  lemma TotalOfCover<T(!new)>(values: seq<T>, keys: seq<T>)
    requires NoDuplicates(keys) && forall v :: v in values ==> v in keys
    ensures Total(Tally(values), keys) == |values|
  {
    TotalCounts(values, keys);
    FilterAll(values, Listed(keys));
  }

  lemma {:induction false} TotalOfNothing<T>(counts: map<T, nat>, keys: seq<T>)
    requires counts == map[]
    ensures Total(counts, keys) == 0
  {
    if keys != [] { TotalOfNothing(counts, keys[..|keys| - 1]); }
  }

  lemma {:induction false} TotalConcat<T>(counts: map<T, nat>, keys: seq<T>, more: seq<T>)
    ensures Total(counts, keys + more) == Total(counts, keys) + Total(counts, more)
  {
    if more == [] {
      assert keys + more == keys;
    } else {
      var n := |more| - 1;
      assert (keys + more)[..|keys + more| - 1] == keys + more[..n];
      TotalConcat(counts, keys, more[..n]);
    }
  }

  lemma {:induction false} TotalBump<T>(a: map<T, nat>, b: map<T, nat>, keys: seq<T>, v: T)
    requires forall k :: k in keys ==> At(b, k) == At(a, k) + if k == v then 1 else 0
    requires NoDuplicates(keys)
    ensures Total(b, keys) == Total(a, keys) + if v in keys then 1 else 0
  {
    if keys != [] {
      var n := |keys| - 1;
      assert keys == keys[..n] + [keys[n]];
      TotalBump(a, b, keys[..n], v);
    }
  }

  // ---------------------------------------------------------------------------
  // Work-unit outcomes
  // ---------------------------------------------------------------------------

  /** The counters by name, as the object that the counting loop fills. */
  type Buckets = map<string, nat>

  function StatusName(s: WorkUnitStatus): string {
    match s
    case Accepted => "ACCEPTED"
    case Rejected => "REJECTED"
    case Reconciled => "RECONCILED"
    case Incomplete => "INCOMPLETE"
    case Unknown => "UNKNOWN"
  }

  function LowerLetter(c: char): char { if 'A' <= c <= 'Z' then (c as int + 32) as char else c }

  function Lower(t: string): string { seq(|t|, i requires 0 <= i < |t| => LowerLetter(t[i])) }

  /** The counter of a status, made from the status' own name. */
  function BucketName(s: WorkUnitStatus): string { if s == Reconciled then "reconciled" else Lower(StatusName(s)) }

  /** One more of a status: its counter is looked up by name, and made if there is none. */
  function CountStatus(counts: Buckets, s: WorkUnitStatus): Buckets { counts[BucketName(s) := At(counts, BucketName(s)) + 1] }

  function NoneYet(total: nat): Buckets {
    map["total" := total, "accepted" := 0, "rejected" := 0, "reconciled" := 0, "incomplete" := 0, "unknown" := 0]
  }

  /** How often each status occurs, under five names. */
  function BucketsOf(total: nat, statuses: seq<WorkUnitStatus>): Buckets {
    var ss := multiset(statuses);
    map["total" := total, "accepted" := ss[Accepted], "rejected" := ss[Rejected], "reconciled" := ss[Reconciled],
        "incomplete" := ss[Incomplete], "unknown" := ss[Unknown]]
  }

  lemma NamesAreLower(s: WorkUnitStatus)
    ensures BucketName(s) == match s case Accepted => "accepted" case Rejected => "rejected" case Reconciled => "reconciled"
                                     case Incomplete => "incomplete" case Unknown => "unknown"
  {}

  /** A status bumps its own counter, and makes no new one. */
  lemma CountStep(total: nat, statuses: seq<WorkUnitStatus>, s: WorkUnitStatus)
    ensures CountStatus(BucketsOf(total, statuses), s) == BucketsOf(total, statuses + [s])
  {
    NamesAreLower(s);
    assert |"total"| == 5 && |"accepted"| == |"rejected"| == 8 && |"reconciled"| == |"incomplete"| == 10 && |"unknown"| == 7;
    assert "accepted"[0] == 'a' && "rejected"[0] == 'r' && "reconciled"[0] == 'r' && "incomplete"[0] == 'i';
  }

  function StatusOfLine(l: WorkUnitLine): WorkUnitStatus { l.status }

  function OutcomesOf(lines: seq<WorkUnitLine>): Buckets { BucketsOf(|lines|, Sorting.Map(lines, StatusOfLine)) }

  method CountOutcomes(lines: seq<WorkUnitLine>) returns (counts: Buckets)
    ensures counts == OutcomesOf(lines)
  {
    counts := NoneYet(|lines|);
    for n := 0 to |lines|
      invariant counts == BucketsOf(|lines|, Sorting.Map(lines[..n], StatusOfLine))
    {
      assert Sorting.Map(lines[..n + 1], StatusOfLine) == Sorting.Map(lines[..n], StatusOfLine) + [lines[n].status];
      CountStep(|lines|, Sorting.Map(lines[..n], StatusOfLine), lines[n].status);
      counts := CountStatus(counts, lines[n].status);
    }
    assert lines[..|lines|] == lines;
  }

  const OUTCOMES: seq<string> := ["accepted", "rejected", "reconciled", "incomplete", "unknown"]

  /** Every work unit is in exactly one of the five buckets, and there is no sixth. */
  lemma BucketsPartition(lines: seq<WorkUnitLine>)
    ensures var b := OutcomesOf(lines);
            && (forall n :: n in b <==> n == "total" || n in OUTCOMES)
            && Total(b, OUTCOMES) == b["total"] == |lines|
  {
    var ss := Sorting.Map(lines, StatusOfLine);
    StatusesAddUp(ss);
    FiveAddUp(OutcomesOf(lines));
  }

  lemma {:induction false} StatusesAddUp(ss: seq<WorkUnitStatus>)
    ensures var m := multiset(ss); m[Accepted] + m[Rejected] + m[Reconciled] + m[Incomplete] + m[Unknown] == |ss|
  {
    if ss != [] {
      var n := |ss| - 1;
      assert ss == ss[..n] + [ss[n]];
      assert multiset(ss[..n] + [ss[n]]) == multiset(ss[..n]) + multiset([ss[n]]);
      StatusesAddUp(ss[..n]);
      assert ss[n].Accepted? || ss[n].Rejected? || ss[n].Reconciled? || ss[n].Incomplete? || ss[n].Unknown?;
    }
  }

  lemma TotalSnoc<T>(counts: map<T, nat>, keys: seq<T>, k: T, all: seq<T>)
    requires all == keys + [k]
    ensures Total(counts, all) == Total(counts, keys) + At(counts, k)
  {
    assert all[..|all| - 1] == keys;
  }

  lemma FiveAddUp(b: Buckets)
    ensures Total(b, OUTCOMES) == At(b, "accepted") + At(b, "rejected") + At(b, "reconciled") + At(b, "incomplete") + At(b, "unknown")
  {
    TotalSnoc(b, ["accepted", "rejected", "reconciled", "incomplete"], "unknown", OUTCOMES);
    TotalSnoc(b, ["accepted", "rejected", "reconciled"], "incomplete", ["accepted", "rejected", "reconciled", "incomplete"]);
    TotalSnoc(b, ["accepted", "rejected"], "reconciled", ["accepted", "rejected", "reconciled"]);
    TotalSnoc(b, ["accepted"], "rejected", ["accepted", "rejected"]);
    TotalSnoc(b, [], "accepted", ["accepted"]);
  }

  // ---------------------------------------------------------------------------
  // Rejections by taxonomy
  // ---------------------------------------------------------------------------

  predicate LineRejected(l: InvocationLine) { l.assessmentResult == Some(L.REJECTED) }

  function LabelOf(l: InvocationLine): Label { l.rejectionCode }

  /** The labels of the rejections, in line order. */
  function RejectedLabels(lines: seq<InvocationLine>): seq<Label> { Sorting.Map(Filter(lines, LineRejected), LabelOf) }

  const TAXONOMY: seq<Label> :=
    SEMANTIC_CODES + TRANSPORT_CODES
    + [Some(L.WRONG_BASE), Some(L.SCOPE_VIOLATION), Some(L.INCOMPLETE_LEDGER), Some(L.BUDGET_EXHAUSTED), Some(L.SECRET_DENIED_PATH),
       Some(L.SOL_ASK_INVALID), None]

  predicate InNoList(c: Label) {
    c !in SEMANTIC_CODES && c !in TRANSPORT_CODES && c != Some(L.WRONG_BASE) && c != Some(L.SCOPE_VIOLATION)
  }

  function OtherCodes(): seq<Label> { Filter(TAXONOMY, InNoList) }

  /** The counts of the listed codes. */
  datatype Family = Family(total: nat, byCode: map<Label, nat>)

  datatype Rejections = Rejections(
    total: nat, byCode: map<Label, nat>, semantic: Family, transportSchema: Family, wrongBase: Family, scopeViolations: Family,
    other: Family)

  function FamilyOf(byCode: map<Label, nat>, codes: seq<Label>): Family {
    Family(Total(byCode, codes), CodesOf(byCode, codes))
  }

  function CodesOf(byCode: map<Label, nat>, codes: seq<Label>): map<Label, nat> { map c | c in codes :: At(byCode, c) }

  function RejectionsOf(lines: seq<InvocationLine>): Rejections {
    var byCode := Tally(RejectedLabels(lines));
    Rejections(|Filter(lines, LineRejected)|, byCode, FamilyOf(byCode, SEMANTIC_CODES), FamilyOf(byCode, TRANSPORT_CODES),
               FamilyOf(byCode, [Some(L.WRONG_BASE)]), FamilyOf(byCode, [Some(L.SCOPE_VIOLATION)]), FamilyOf(byCode, OtherCodes()))
  }

  /** One more code of a list. */
  function AddCode(byCode: map<Label, nat>, f: Family, c: Label): Family {
    if c in f.byCode then f else Family(f.total + At(byCode, c), f.byCode[c := At(byCode, c)])
  }

  ghost predicate FamilySoFar(byCode: map<Label, nat>, codes: seq<Label>, f: Family) {
    f.byCode == CodesOf(byCode, codes) && f.total == Total(byCode, FirstSeen(codes))
  }

  lemma FamilyStep(byCode: map<Label, nat>, codes: seq<Label>, f: Family, c: Label)
    requires FamilySoFar(byCode, codes, f)
    ensures FamilySoFar(byCode, codes + [c], AddCode(byCode, f, c))
  {
    CodesSnoc(byCode, codes, c);
    FirstSeenSnoc(codes, c);
    if c !in codes { TotalSnoc(byCode, FirstSeen(codes), c, FirstSeen(codes) + [c]); }
  }

  lemma CodesSnoc(byCode: map<Label, nat>, codes: seq<Label>, c: Label)
    ensures CodesOf(byCode, codes + [c]) == CodesOf(byCode, codes)[c := At(byCode, c)]
    ensures c in codes ==> CodesOf(byCode, codes + [c]) == CodesOf(byCode, codes)
  {
    assert forall k :: k in codes + [c] <==> k in codes || k == c;
  }

  /** The counts of the listed codes, each code once. */
  method CountFamily(byCode: map<Label, nat>, codes: seq<Label>) returns (f: Family)
    ensures FamilySoFar(byCode, codes, f)
  {
    f := Family(0, map[]);
    for n := 0 to |codes|
      invariant FamilySoFar(byCode, codes[..n], f)
    {
      assert codes[..n + 1] == codes[..n] + [codes[n]];
      FamilyStep(byCode, codes[..n], f, codes[n]);
      f := AddCode(byCode, f, codes[n]);
    }
    assert codes[..|codes|] == codes;
  }

  method CountRejections(lines: seq<InvocationLine>) returns (r: Rejections)
    ensures r == RejectionsOf(lines)
  {
    ListsAreDistinct();
    var byCode := CountBy(RejectedLabels(lines));
    var semantic := CountFamily(byCode, SEMANTIC_CODES);
    var transport := CountFamily(byCode, TRANSPORT_CODES);
    var base := CountFamily(byCode, [Some(L.WRONG_BASE)]);
    var scope := CountFamily(byCode, [Some(L.SCOPE_VIOLATION)]);
    var other := CountFamily(byCode, OtherCodes());
    FirstSeenIsAll(SEMANTIC_CODES);
    FirstSeenIsAll(TRANSPORT_CODES);
    FirstSeenIsAll([Some(L.WRONG_BASE)]);
    FirstSeenIsAll([Some(L.SCOPE_VIOLATION)]);
    FirstSeenIsAll(OtherCodes());
    r := Rejections(|Filter(lines, LineRejected)|, byCode, semantic, transport, base, scope, other);
  }

  function Rank(c: Label): nat {
    match c
    case None => 11
    case Some(code) =>
      match code
      case SEMANTIC_CONFLATION => 0
      case UNRESOLVED_SEMANTICS => 1
      case UNSUPPORTED_CLAIM => 2
      case TRANSPORT_MALFORMED => 3
      case SCHEMA_MISMATCH => 4
      case WRONG_BASE => 5
      case SCOPE_VIOLATION => 6
      case INCOMPLETE_LEDGER => 7
      case BUDGET_EXHAUSTED => 8
      case SECRET_DENIED_PATH => 9
      case SOL_ASK_INVALID => 10
  }

  /** The taxonomy lists every code of the ledger's schema and the unknown one, once. */
  lemma TaxonomyIsComplete()
    ensures NoDuplicates(TAXONOMY) && forall c: Label :: c in TAXONOMY
  {
    assert |TAXONOMY| == 12;
    forall c: Label ensures Rank(c) < |TAXONOMY| && TAXONOMY[Rank(c)] == c {}
    forall i | 0 <= i < |TAXONOMY| ensures Rank(TAXONOMY[i]) == i {}
    forall c: Label ensures c in TAXONOMY { assert TAXONOMY[Rank(c)] == c; }
    forall i, j | 0 <= i < j < |TAXONOMY| ensures TAXONOMY[i] != TAXONOMY[j] { assert Rank(TAXONOMY[i]) == i && Rank(TAXONOMY[j]) == j; }
  }

  /** The five lists in a row. */
  function AllLists(): seq<Label> { SEMANTIC_CODES + TRANSPORT_CODES + [Some(L.WRONG_BASE)] + [Some(L.SCOPE_VIOLATION)] + OtherCodes() }

  lemma ListsAreDistinct()
    ensures NoDuplicates(SEMANTIC_CODES) && NoDuplicates(TRANSPORT_CODES) && NoDuplicates(OtherCodes())
  {
    TaxonomyIsComplete();
    FilterNoDuplicates(TAXONOMY, InNoList);
  }

  /** No code is in two lists or twice in one, and every code is in one. */
  lemma ListsPartitionTheCodes()
    ensures NoDuplicates(AllLists()) && forall c: Label :: c in AllLists()
  {
    ListsAreDistinct();
    TaxonomyIsComplete();
    var named, other := SEMANTIC_CODES + TRANSPORT_CODES + [Some(L.WRONG_BASE)] + [Some(L.SCOPE_VIOLATION)], OtherCodes();
    assert |named| == 7 && forall i :: 0 <= i < 7 ==> Rank(named[i]) == i && !InNoList(named[i]);
    forall i, j | 0 <= i < j < |AllLists()| ensures AllLists()[i] != AllLists()[j] {
      if j < 7 { assert Rank(named[i]) == i && Rank(named[j]) == j; } else if i < 7 { assert other[j - 7] in other; }
    }
    forall c: Label ensures c in AllLists() {
      if InNoList(c) { assert c in other; } else { NamedIsListed(c); }
    }
  }

  lemma NamedIsListed(c: Label)
    requires !InNoList(c)
    ensures c in SEMANTIC_CODES + TRANSPORT_CODES + [Some(L.WRONG_BASE)] + [Some(L.SCOPE_VIOLATION)]
  {}

  /** The families partition the rejections, because their lists partition the codes. */
  lemma RejectionsPartition(lines: seq<InvocationLine>)
    ensures var r := RejectionsOf(lines);
            r.semantic.total + r.transportSchema.total + r.wrongBase.total + r.scopeViolations.total + r.other.total == r.total
  {
    var labels := RejectedLabels(lines);
    var byCode := Tally(labels);
    ListsPartitionTheCodes();
    TotalOfCover(labels, AllLists());
    var a, b, c, d := SEMANTIC_CODES, TRANSPORT_CODES, [Some(L.WRONG_BASE)], [Some(L.SCOPE_VIOLATION)];
    TotalConcat(byCode, a + b + c + d, OtherCodes());
    TotalConcat(byCode, a + b + c, d);
    TotalConcat(byCode, a + b, c);
    TotalConcat(byCode, a, b);
  }

  function WithLabel(codes: seq<Label>): InvocationLine -> bool { (l: InvocationLine) => LineRejected(l) && l.rejectionCode in codes }

  /** A family counts the rejected lines whose code its list names. */
  lemma FamilyCountsLines(lines: seq<InvocationLine>, codes: seq<Label>)
    requires NoDuplicates(codes)
    ensures FamilyOf(RejectionsOf(lines).byCode, codes).total == |Filter(lines, WithLabel(codes))|
  {
    TotalCounts(RejectedLabels(lines), codes);
    LabelledLines(lines, codes);
  }

  lemma {:induction false} LabelledLines(lines: seq<InvocationLine>, codes: seq<Label>)
    ensures |Filter(RejectedLabels(lines), Listed(codes))| == |Filter(lines, WithLabel(codes))|
  {
    if lines != [] {
      var init, l := lines[..|lines| - 1], lines[|lines| - 1];
      assert lines == init + [l];
      LabelledLines(init, codes);
      FilterSnoc(init, l, LineRejected);
      FilterSnoc(init, l, WithLabel(codes));
      if LineRejected(l) {
        Sorting.MapSnoc(Filter(init, LineRejected), l, LabelOf);
        FilterSnoc(RejectedLabels(init), l.rejectionCode, Listed(codes));
      }
    }
  }

  // ---------------------------------------------------------------------------
  // Usage and waste
  // ---------------------------------------------------------------------------

  function SumTokens(lines: seq<UsageLine>): nat {
    if lines == [] then 0 else
      SumTokens(lines[..|lines| - 1]) + if lines[|lines| - 1].usage.Some? then lines[|lines| - 1].usage.value.totalTokens else 0
  }

  predicate UsageKnown(l: UsageLine) { l.usage.Some? }
  predicate IsWaste(l: UsageLine) { l.rejectedWaste }
  predicate AcceptedCall(l: UsageLine) { l.nonAcceptedCategory.None? }
  predicate OtherNonAccepted(l: UsageLine) { l.nonAcceptedCategory.Some? && l.nonAcceptedCategory.value != REJECTED_CALL }

  /** A total is a number only when every line has its usage; the known part is always reported. */
  datatype TokenMetric = TokenMetric(value: Option<nat>, knownSubtotal: nat, knownCalls: nat, totalCalls: nat)

  method CompleteTokens(lines: seq<UsageLine>) returns (m: TokenMetric)
    ensures m.totalCalls == |lines| && m.knownCalls == |Filter(lines, UsageKnown)| && m.knownSubtotal == SumTokens(lines)
    ensures m.value.Some? <==> forall l :: l in lines ==> UsageKnown(l)
    ensures m.value.Some? ==> m.value.value == SumTokens(lines)
  {
    var known, subtotal := 0, 0;
    for n := 0 to |lines|
      invariant known == |Filter(lines[..n], UsageKnown)| <= n && subtotal == SumTokens(lines[..n])
      invariant known == n <==> forall l :: l in lines[..n] ==> UsageKnown(l)
    {
      assert lines[..n + 1] == lines[..n] + [lines[n]];
      FilterSnoc(lines[..n], lines[n], UsageKnown);
      assert lines[..n + 1][..n] == lines[..n];
      if lines[n].usage.Some? {
        known, subtotal := known + 1, subtotal + lines[n].usage.value.totalTokens;
      }
    }
    assert lines[..|lines|] == lines;
    m := TokenMetric(if known == |lines| then Some(subtotal) else None, subtotal, known, |lines|);
  }

  /** Waste is exactly an explicit rejection. */
  predicate WasteIsRejection(l: UsageLine) { l.rejectedWaste <==> l.nonAcceptedCategory == Some(REJECTED_CALL) }

  lemma UsageRecordsAreSound(st: State)
    ensures WasteIsRejection(UsageRecord(st))
    ensures UsageRecord(st).rejectedWaste <==> st.assessmentResult == Some(L.REJECTED)
    ensures UsageRecord(st).nonAcceptedCategory.None? <==> st.assessmentResult == Some(L.ACCEPTED)
  {}

  /** The usage lines split into accepted calls, rejected waste and the rest. */
  lemma {:induction false} CallsPartition(lines: seq<UsageLine>)
    requires forall l :: l in lines ==> WasteIsRejection(l)
    ensures |Filter(lines, AcceptedCall)| + |Filter(lines, IsWaste)| + |Filter(lines, OtherNonAccepted)| == |lines|
  {
    if lines != [] {
      var before, l := lines[..|lines| - 1], lines[|lines| - 1];
      assert lines == before + [l] && WasteIsRejection(l);
      CallsPartition(before);
      PartSnoc(before, l, AcceptedCall);
      PartSnoc(before, l, IsWaste);
      PartSnoc(before, l, OtherNonAccepted);
    }
  }

  /** And so do their tokens. */
  lemma {:induction false} TokensPartition(lines: seq<UsageLine>)
    requires forall l :: l in lines ==> WasteIsRejection(l)
    ensures SumTokens(Filter(lines, AcceptedCall)) + SumTokens(Filter(lines, IsWaste)) + SumTokens(Filter(lines, OtherNonAccepted)) == SumTokens(lines)
  {
    if lines != [] {
      var before, l := lines[..|lines| - 1], lines[|lines| - 1];
      assert lines == before + [l] && WasteIsRejection(l);
      TokensPartition(before);
      PartSnoc(before, l, AcceptedCall);
      PartSnoc(before, l, IsWaste);
      PartSnoc(before, l, OtherNonAccepted);
    }
  }

  /** The categories that a call can have when it was neither accepted nor rejected. */
  const OTHER_CATEGORIES: seq<Option<Category>> := [Some(ORPHANED_CALL), Some(FAILED_UNASSESSED), Some(UNASSESSED)]

  function CategoryOf(l: UsageLine): Option<Category> { l.nonAcceptedCategory }

  function ByCategory(lines: seq<UsageLine>): map<Option<Category>, nat> {
    Tally(Sorting.Map(Filter(lines, OtherNonAccepted), CategoryOf))
  }

  /** Three categories are all there are: their counts add up to the calls that are neither accepted nor waste. */
  lemma CategoriesAddUp(lines: seq<UsageLine>)
    ensures Total(ByCategory(lines), OTHER_CATEGORIES) == |Filter(lines, OtherNonAccepted)|
    ensures forall c :: c in ByCategory(lines) ==> c in OTHER_CATEGORIES
  {
    var others := Filter(lines, OtherNonAccepted);
    var cs := Sorting.Map(others, CategoryOf);
    forall c | c in cs ensures c in OTHER_CATEGORIES {
      var i: nat :| i < |cs| && cs[i] == c;
      var l := others[i];
      assert l in others && OtherNonAccepted(l);
      assert Sorting.Map(others, CategoryOf)[i] == CategoryOf(l);
      assert OTHER_CATEGORIES[0] == Some(ORPHANED_CALL) && OTHER_CATEGORIES[1] == Some(FAILED_UNASSESSED) && OTHER_CATEGORIES[2] == Some(UNASSESSED);
      assert c.value.ORPHANED_CALL? || c.value.FAILED_UNASSESSED? || c.value.UNASSESSED?;
    }
    TotalOfCover(cs, OTHER_CATEGORIES);
    TallyConserves(cs);
  }

  function Tokens(l: UsageLine): nat { if l.usage.Some? then l.usage.value.totalTokens else 0 }

  lemma PartSnoc(lines: seq<UsageLine>, l: UsageLine, p: UsageLine -> bool)
    ensures |Filter(lines + [l], p)| == |Filter(lines, p)| + if p(l) then 1 else 0
    ensures SumTokens(Filter(lines + [l], p)) == SumTokens(Filter(lines, p)) + if p(l) then Tokens(l) else 0
  {
    FilterSnoc(lines, l, p);
    TokensSnoc(Filter(lines, p), l);
  }

  lemma TokensSnoc(lines: seq<UsageLine>, l: UsageLine)
    ensures SumTokens(lines + [l]) == SumTokens(lines) + Tokens(l)
  {
    assert (lines + [l])[..|lines|] == lines;
  }

  // ---------------------------------------------------------------------------
  // The metrics that reconciliation compares
  // ---------------------------------------------------------------------------

  datatype MetricSet = MetricSet(workUnits: Buckets, rejections: Rejections)

  function MetricsOf(invocations: seq<InvocationLine>, workUnits: seq<WorkUnitLine>): MetricSet {
    MetricSet(OutcomesOf(workUnits), RejectionsOf(invocations))
  }

  method ComputeMetrics(invocations: seq<InvocationLine>, workUnits: seq<WorkUnitLine>) returns (m: MetricSet)
    ensures m == MetricsOf(invocations, workUnits)
  {
    var outcomes := CountOutcomes(workUnits);
    var rejections := CountRejections(invocations);
    m := MetricSet(outcomes, rejections);
  }
}
