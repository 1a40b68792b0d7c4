/**
 Timestamps: parsing to an exact UTC instant with a fraction of any length, and the order of
 (instant, identity) that every audit projection is sorted by.
 */
module Time {
  import opened Options
  import opened Texts
  import opened Calendar
  import Sorting

  type Digit = d: int | 0 <= d < 10

  /** Whole seconds since the epoch, and the authored fraction without trailing zeros. */
  datatype Instant = Instant(seconds: int, fraction: seq<Digit>)

  // ---------------------------------------------------------------------------
  // Fractions
  // ---------------------------------------------------------------------------

  /** The value of the digits after the point. */
  ghost function Value(f: seq<Digit>): real {
    if f == [] then 0.0 else (f[0] as real + Value(f[1..])) / 10.0
  }

  function NormalizeFraction(f: seq<Digit>): seq<Digit> {
    if f == [] || f[|f| - 1] != 0 then f else NormalizeFraction(f[..|f| - 1])
  }

  function PadEnd(f: seq<Digit>, len: nat): seq<Digit> {
    if |f| >= len then f else f + seq(len - |f|, _ => 0)
  }

  /** Lexical order of two strings of one length. */
  function Lexical(a: seq<Digit>, b: seq<Digit>): int
    requires |a| == |b|
  {
    if a == [] then 0 else if a[0] < b[0] then -1 else if a[0] > b[0] then 1 else Lexical(a[1..], b[1..])
  }

  function CompareFraction(a: seq<Digit>, b: seq<Digit>): int {
    var len := if |a| > |b| then |a| else |b|;
    Lexical(PadEnd(a, len), PadEnd(b, len))
  }

  function Sign(x: real): int { if x < 0.0 then -1 else if x > 0.0 then 1 else 0 }

  lemma {:induction false} ValueBounds(f: seq<Digit>)
    ensures 0.0 <= Value(f) < 1.0
  {
    if f != [] { ValueBounds(f[1..]); }
  }

  lemma {:induction false} ValueOfZeros(f: seq<Digit>, n: nat)
    ensures Value(f + seq(n, _ => 0)) == Value(f)
  {
    var g := f + seq(n, _ => 0);
    if f != [] {
      ValueOfZeros(f[1..], n);
      assert g[1..] == f[1..] + seq(n, _ => 0);
    } else if n > 0 {
      ValueOfZeros([], n - 1);
      assert g[1..] == [] + seq(n - 1, _ => 0);
    }
  }

  lemma {:induction false} LexicalIsNumeric(a: seq<Digit>, b: seq<Digit>)
    requires |a| == |b|
    ensures Lexical(a, b) == Sign(Value(a) - Value(b))
  {
    if a != [] {
      LexicalIsNumeric(a[1..], b[1..]);
      ValueBounds(a[1..]);
      ValueBounds(b[1..]);
    }
  }

  /** The comparison of fractions is the comparison of their exact values, whatever their lengths. */
  lemma CompareFractionIsExact(a: seq<Digit>, b: seq<Digit>)
    ensures CompareFraction(a, b) == Sign(Value(a) - Value(b))
  {
    var len := if |a| > |b| then |a| else |b|;
    ValueOfZeros(a, len - |a|);
    ValueOfZeros(b, len - |b|);
    assert a + [] == a && b + [] == b;
    LexicalIsNumeric(PadEnd(a, len), PadEnd(b, len));
  }

  lemma {:induction false} NormalizedValue(f: seq<Digit>)
    ensures Value(NormalizeFraction(f)) == Value(f)
  {
    if f != [] && f[|f| - 1] == 0 {
      NormalizedValue(f[..|f| - 1]);
      ValueOfZeros(f[..|f| - 1], 1);
      assert f == f[..|f| - 1] + seq(1, _ => 0);
    }
  }

  lemma {:induction false} NormalizedEnds(f: seq<Digit>)
    ensures var n := NormalizeFraction(f); n != [] ==> n[|n| - 1] != 0
  {
    if f != [] && f[|f| - 1] == 0 { NormalizedEnds(f[..|f| - 1]); }
  }

  lemma {:induction false} LexicalEqual(a: seq<Digit>, b: seq<Digit>)
    requires |a| == |b| && Lexical(a, b) == 0
    ensures a == b
  {
    if a != [] {
      LexicalEqual(a[1..], b[1..]);
      assert a == [a[0]] + a[1..] && b == [b[0]] + b[1..];
    }
  }

  /** A normalized fraction is the only one of its value. */
  lemma NormalizedIsUnique(a: seq<Digit>, b: seq<Digit>)
    requires Value(a) == Value(b)
    ensures NormalizeFraction(a) == NormalizeFraction(b)
  {
    var m, n := NormalizeFraction(a), NormalizeFraction(b);
    NormalizedValue(a);
    NormalizedValue(b);
    NormalizedEnds(a);
    NormalizedEnds(b);
    CompareFractionIsExact(m, n);
    var len := if |m| > |n| then |m| else |n|;
    var p, q := PadEnd(m, len), PadEnd(n, len);
    LexicalEqual(p, q);
    assert len > 0 ==> p[len - 1] == q[len - 1];
    assert m == p[..|m|] && n == q[..|n|];
  }

  // ---------------------------------------------------------------------------
  // Parsing
  // ---------------------------------------------------------------------------

  predicate IsDigit(c: char) { '0' <= c <= '9' }

  function DigitOf(c: char): Digit
    requires IsDigit(c)
  {
    c as int - '0' as int
  }

  function CharOf(d: Digit): (c: char)
    ensures IsDigit(c) && DigitOf(c) == d
  {
    (d + '0' as int) as char
  }

  /** A local time with an offset, as authored. */
  datatype Authored = Authored(
    year: nat, month: nat, day: nat, hour: nat, minute: nat, second: nat, fraction: Option<seq<Digit>>, zone: Zone)
  datatype Zone = Z | Offset(negative: bool, hours: nat, minutes: nat)
  {
    function Seconds(): int {
      match this case Z => 0 case Offset(negative, h, m) => (h * 3600 + m * 60) * if negative then -1 else 1
    }
  }

  function TwoDigits(s: string, i: nat): Option<nat> {
    if i + 2 <= |s| && IsDigit(s[i]) && IsDigit(s[i + 1]) then Some(DigitOf(s[i]) * 10 + DigitOf(s[i + 1])) else None
  }

  predicate CharAt(s: string, i: nat, c: char) { i < |s| && s[i] == c }

  /** The longest run of digits. */
  function DigitRun(s: string): (r: (seq<Digit>, string))
    ensures |r.0| + |r.1| == |s|
  {
    if s == [] || !IsDigit(s[0]) then ([], s)
    else var (ds, rest) := DigitRun(s[1..]); ([DigitOf(s[0])] + ds, rest)
  }

  function MatchZone(s: string): Option<Zone> {
    if s == "Z" then Some(Z)
    else if |s| == 6 && (s[0] == '+' || s[0] == '-') && s[3] == ':' && TwoDigits(s, 1).Some? && TwoDigits(s, 4).Some? then
      Some(Offset(s[0] == '-', TwoDigits(s, 1).value, TwoDigits(s, 4).value))
    else None
  }

  /** The fraction and the zone. */
  function MatchTail(s: string): Option<(Option<seq<Digit>>, Zone)> {
    if CharAt(s, 0, '.') then
      var (ds, rest) := DigitRun(s[1..]);
      if ds == [] || MatchZone(rest).None? then None else Some((Some(ds), MatchZone(rest).value))
    else if MatchZone(s).Some? then Some((None, MatchZone(s).value))
    else None
  }

  /** The accepted pattern: a four-digit year, two digits for the rest, then fraction and zone. */
  function Match(s: string): Option<Authored> {
    if TwoDigits(s, 0).Some? && TwoDigits(s, 2).Some? && CharAt(s, 4, '-') && TwoDigits(s, 5).Some? && CharAt(s, 7, '-')
       && TwoDigits(s, 8).Some? && CharAt(s, 10, 'T') && TwoDigits(s, 11).Some? && CharAt(s, 13, ':')
       && TwoDigits(s, 14).Some? && CharAt(s, 16, ':') && TwoDigits(s, 17).Some? && MatchTail(s[19..]).Some? then
      var (fraction, zone) := MatchTail(s[19..]).value;
      Some(Authored(TwoDigits(s, 0).value * 100 + TwoDigits(s, 2).value, TwoDigits(s, 5).value, TwoDigits(s, 8).value,
                    TwoDigits(s, 11).value, TwoDigits(s, 14).value, TwoDigits(s, 17).value, fraction, zone))
    else None
  }

  /** A real local time: a calendar date, a time of day without leap second, an offset below a day. */
  predicate IsReal(a: Authored) {
    && Date(a.year, a.month, a.day).Valid() && a.hour <= 23 && a.minute <= 59 && a.second <= 59
    && (a.zone.Offset? ==> a.zone.hours <= 23 && a.zone.minutes <= 59)
  }

  function ToInstant(a: Authored): Instant {
    Instant(DaysFromCivil(a.year, a.month, a.day) * 86400 + a.hour * 3600 + a.minute * 60 + a.second - a.zone.Seconds(),
            match a.fraction case None => [] case Some(f) => NormalizeFraction(f))
  }

  /** A clock that is ahead shows a later time for the same instant: the offset is taken off, or added when it is negative. */
  lemma OffsetMeans(a: Authored, h: nat, m: nat)
    ensures var utc := ToInstant(a.(zone := Z)).seconds;
            && ToInstant(a.(zone := Offset(false, h, m))).seconds == utc - 60 * (60 * h + m)
            && ToInstant(a.(zone := Offset(true, h, m))).seconds == utc + 60 * (60 * h + m)
  {}

  /** The ranges written out: the days of each month, with the leap rule for February. */
  lemma RealMeans(a: Authored)
    ensures IsReal(a) <==>
            && 1 <= a.month <= 12 && 1 <= a.day <= 31
            && (a.month == 4 || a.month == 6 || a.month == 9 || a.month == 11 ==> a.day <= 30)
            && (a.month == 2 ==> a.day <= 29 && (a.day == 29 ==> a.year % 400 == 0 || (a.year % 4 == 0 && a.year % 100 != 0)))
            && a.hour < 24 && a.minute < 60 && a.second < 60
            && match a.zone case Z => true case Offset(_, h, m) => h < 24 && m < 60
  {}

  function ParseTimestamp(s: string): Option<Instant> {
    match Match(s) case None => None case Some(a) => if IsReal(a) then Some(ToInstant(a)) else None
  }

  // ---------------------------------------------------------------------------
  // The text form, and what parsing accepts
  // ---------------------------------------------------------------------------

  function Two(n: nat): string
    requires n < 100
  {
    [CharOf(n / 10), CharOf(n % 10)]
  }

  function Chars(f: seq<Digit>): string { seq(|f|, i requires 0 <= i < |f| => CharOf(f[i])) }

  function RenderZone(z: Zone): string
    requires z.Offset? ==> z.hours < 100 && z.minutes < 100
  {
    match z case Z => "Z" case Offset(negative, h, m) => [if negative then '-' else '+'] + Two(h) + [':'] + Two(m)
  }

  predicate Writable(a: Authored) {
    && a.year < 10000 && a.month < 100 && a.day < 100 && a.hour < 100 && a.minute < 100 && a.second < 100
    && a.fraction != Some([]) && (a.zone.Offset? ==> a.zone.hours < 100 && a.zone.minutes < 100)
  }

  function RenderTail(a: Authored): string
    requires Writable(a)
  {
    (match a.fraction case None => "" case Some(f) => ['.'] + Chars(f)) + RenderZone(a.zone)
  }

  function Render(a: Authored): string
    requires Writable(a)
  {
    Two(a.year / 100) + Two(a.year % 100) + ['-'] + Two(a.month) + ['-'] + Two(a.day) + ['T']
    + Two(a.hour) + [':'] + Two(a.minute) + [':'] + Two(a.second) + RenderTail(a)
  }

  lemma TwoRoundTrip(n: nat, before: string, after: string)
    requires n < 100
    ensures TwoDigits(before + Two(n) + after, |before|) == Some(n)
  {
    var s := before + Two(n) + after;
    assert s[|before|] == CharOf(n / 10) && s[|before| + 1] == CharOf(n % 10);
  }

  lemma {:induction false} RunOfChars(f: seq<Digit>, rest: string)
    requires rest == "" || !IsDigit(rest[0])
    ensures DigitRun(Chars(f) + rest) == (f, rest)
  {
    if f == [] {
      assert Chars(f) + rest == rest;
    } else {
      var s := Chars(f) + rest;
      RunOfChars(f[1..], rest);
      assert s[1..] == Chars(f[1..]) + rest;
      assert s[0] == CharOf(f[0]) && [f[0]] + f[1..] == f;
    }
  }

  lemma ZoneRoundTrip(z: Zone)
    requires z.Offset? ==> z.hours < 100 && z.minutes < 100
    ensures MatchZone(RenderZone(z)) == Some(z)
    ensures var r := RenderZone(z); r != "" && !IsDigit(r[0]) && r[0] != '.'
  {
    if z.Offset? {
      var r := RenderZone(z);
      var sign := [if z.negative then '-' else '+'];
      assert r == sign + Two(z.hours) + ([':'] + Two(z.minutes));
      TwoRoundTrip(z.hours, sign, [':'] + Two(z.minutes));
      assert r == (sign + Two(z.hours) + [':']) + Two(z.minutes) + "";
      TwoRoundTrip(z.minutes, sign + Two(z.hours) + [':'], "");
    }
  }

  lemma TailRoundTrip(a: Authored)
    requires Writable(a)
    ensures MatchTail(RenderTail(a)) == Some((a.fraction, a.zone))
  {
    var t := RenderTail(a);
    ZoneRoundTrip(a.zone);
    match a.fraction
    case None => assert t == RenderZone(a.zone);
    case Some(f) =>
      RunOfChars(f, RenderZone(a.zone));
      assert t[1..] == Chars(f) + RenderZone(a.zone);
  }

  /** The text of a time is matched as that time. */
  lemma RenderThenMatch(a: Authored)
    requires Writable(a)
    ensures Match(Render(a)) == Some(a)
  {
    var s := Render(a);
    PartsOfRender(a);
    SeparatorsOfRender(a);
    TailRoundTrip(a);
  }

  function Head(a: Authored): string
    requires Writable(a)
  {
    [CharOf(a.year / 100 / 10), CharOf(a.year / 100 % 10), CharOf(a.year % 100 / 10), CharOf(a.year % 100 % 10), '-',
     CharOf(a.month / 10), CharOf(a.month % 10), '-', CharOf(a.day / 10), CharOf(a.day % 10), 'T',
     CharOf(a.hour / 10), CharOf(a.hour % 10), ':', CharOf(a.minute / 10), CharOf(a.minute % 10), ':',
     CharOf(a.second / 10), CharOf(a.second % 10)]
  }

  lemma RenderIsHeadAndTail(a: Authored)
    requires Writable(a)
    ensures Render(a) == Head(a) + RenderTail(a)
  {}

  lemma HeadPart(a: Authored, tail: string, i: nat, n: nat)
    requires Writable(a) && i <= 17 && n < 100 && Head(a)[i] == CharOf(n / 10) && Head(a)[i + 1] == CharOf(n % 10)
    ensures TwoDigits(Head(a) + tail, i) == Some(n)
  {
    var s := Head(a) + tail;
    assert s[i] == Head(a)[i] && s[i + 1] == Head(a)[i + 1];
  }

  /** Where the numbers stand in a rendered time. */
  lemma PartsOfRender(a: Authored)
    requires Writable(a)
    ensures var s := Render(a);
            && TwoDigits(s, 0) == Some(a.year / 100) && TwoDigits(s, 2) == Some(a.year % 100) && TwoDigits(s, 5) == Some(a.month)
            && TwoDigits(s, 8) == Some(a.day) && TwoDigits(s, 11) == Some(a.hour) && TwoDigits(s, 14) == Some(a.minute)
            && TwoDigits(s, 17) == Some(a.second)
  {
    var tail := RenderTail(a);
    RenderIsHeadAndTail(a);
    HeadPart(a, tail, 0, a.year / 100);
    HeadPart(a, tail, 2, a.year % 100);
    HeadPart(a, tail, 5, a.month);
    HeadPart(a, tail, 8, a.day);
    HeadPart(a, tail, 11, a.hour);
    HeadPart(a, tail, 14, a.minute);
    HeadPart(a, tail, 17, a.second);
  }

  lemma SeparatorsOfRender(a: Authored)
    requires Writable(a)
    ensures var s := Render(a);
            && CharAt(s, 4, '-') && CharAt(s, 7, '-') && CharAt(s, 10, 'T') && CharAt(s, 13, ':') && CharAt(s, 16, ':')
            && s[19..] == RenderTail(a)
  {
    RenderIsHeadAndTail(a);
  }

  lemma TwoDigitsShape(s: string, i: nat)
    requires TwoDigits(s, i).Some?
    ensures TwoDigits(s, i).value < 100 && i + 2 <= |s| && Two(TwoDigits(s, i).value) == s[i..i + 2]
  {}

  lemma CharsCons(c: char, ds: seq<Digit>)
    requires IsDigit(c)
    ensures Chars([DigitOf(c)] + ds) == [c] + Chars(ds)
  {}

  lemma {:induction false} RunShape(s: string)
    ensures s == Chars(DigitRun(s).0) + DigitRun(s).1
  {
    if s != [] && IsDigit(s[0]) {
      var (ds, after) := DigitRun(s[1..]);
      RunShape(s[1..]);
      CharsCons(s[0], ds);
      assert DigitRun(s) == ([DigitOf(s[0])] + ds, after);
      assert s == [s[0]] + (Chars(ds) + after);
    } else {
      assert Chars([]) == "";
    }
  }

  lemma ZoneShape(s: string)
    requires MatchZone(s).Some?
    ensures var z := MatchZone(s).value; (z.Offset? ==> z.hours < 100 && z.minutes < 100) && RenderZone(z) == s
  {
    if s != "Z" {
      TwoDigitsShape(s, 1);
      TwoDigitsShape(s, 4);
      assert s == [s[0]] + s[1..3] + [s[3]] + s[4..6];
    }
  }

  /** Only the text of a time is matched. */
  lemma MatchThenRender(s: string)
    requires Match(s).Some?
    ensures Writable(Match(s).value) && Render(Match(s).value) == s
  {
    FieldsShape(s);
    TailShape(s[19..]);
    Pieces(s);
  }

  lemma FieldsShape(s: string)
    requires Match(s).Some?
    ensures var a := Match(s).value;
            && a.year < 10000 && a.month < 100 && a.day < 100 && a.hour < 100 && a.minute < 100 && a.second < 100
            && Two(a.year / 100) == s[0..2] && Two(a.year % 100) == s[2..4] && Two(a.month) == s[5..7] && Two(a.day) == s[8..10]
            && Two(a.hour) == s[11..13] && Two(a.minute) == s[14..16] && Two(a.second) == s[17..19]
  {
    YearShape(s);
    TwoDigitsShape(s, 5);
    TwoDigitsShape(s, 8);
    TwoDigitsShape(s, 11);
    TwoDigitsShape(s, 14);
    TwoDigitsShape(s, 17);
  }

  lemma YearShape(s: string)
    requires TwoDigits(s, 0).Some? && TwoDigits(s, 2).Some?
    ensures var year := TwoDigits(s, 0).value * 100 + TwoDigits(s, 2).value;
            year < 10000 && Two(year / 100) == s[0..2] && Two(year % 100) == s[2..4]
  {
    TwoDigitsShape(s, 0);
    TwoDigitsShape(s, 2);
    var year := TwoDigits(s, 0).value * 100 + TwoDigits(s, 2).value;
    assert year / 100 == TwoDigits(s, 0).value && year % 100 == TwoDigits(s, 2).value;
  }

  lemma Pieces(s: string)
    requires CharAt(s, 4, '-') && CharAt(s, 7, '-') && CharAt(s, 10, 'T') && CharAt(s, 13, ':') && CharAt(s, 16, ':') && |s| >= 19
    ensures s == s[0..2] + s[2..4] + ['-'] + s[5..7] + ['-'] + s[8..10] + ['T'] + s[11..13] + [':'] + s[14..16] + [':'] + s[17..19] + s[19..]
  {}

  lemma TailShape(s: string)
    requires MatchTail(s).Some?
    ensures var (fraction, zone) := MatchTail(s).value;
            && fraction != Some([]) && (zone.Offset? ==> zone.hours < 100 && zone.minutes < 100)
            && (match fraction case None => "" case Some(f) => ['.'] + Chars(f)) + RenderZone(zone) == s
  {
    if CharAt(s, 0, '.') {
      RunShape(s[1..]);
      var (ds, rest) := DigitRun(s[1..]);
      ZoneShape(rest);
      assert s == ['.'] + s[1..];
    } else {
      ZoneShape(s);
    }
  }

  /** Parsing accepts exactly the texts of real local times, and gives their instant. */
  lemma ParseAcceptsRealTimes(s: string)
    ensures ParseTimestamp(s).Some? <==> exists a: Authored :: Writable(a) && IsReal(a) && Render(a) == s
    ensures forall a: Authored :: Writable(a) && IsReal(a) && Render(a) == s ==> ParseTimestamp(s) == Some(ToInstant(a))
  {
    forall a: Authored | Writable(a) && Render(a) == s ensures Match(s) == Some(a) { RenderThenMatch(a); }
    if Match(s).Some? { MatchThenRender(s); }
  }

  // ---------------------------------------------------------------------------
  // The order of instants and identities
  // ---------------------------------------------------------------------------

  /** The exact value of an instant, in seconds. */
  ghost function Exact(i: Instant): real { i.seconds as real + Value(i.fraction) }

  datatype Moment = Moment(instant: Instant, id: string)

  function CompareIds(a: string, b: string): int {
    if a == b then 0 else if StringLe(a, b) then -1 else 1
  }

  function CompareMoments(a: Moment, b: Moment): int {
    if a.instant.seconds != b.instant.seconds then if a.instant.seconds < b.instant.seconds then -1 else 1
    else
      var fraction := CompareFraction(a.instant.fraction, b.instant.fraction);
      if fraction != 0 then fraction else CompareIds(a.id, b.id)
  }

  function CompareTimestampThenId(aTime: string, aId: string, bTime: string, bId: string): Option<int> {
    match (ParseTimestamp(aTime), ParseTimestamp(bTime))
    case (Some(a), Some(b)) => Some(CompareMoments(Moment(a, aId), Moment(b, bId)))
    case _ => None
  }

  /** The comparison is the exact order of rational instants, with the identity to break ties. */
  lemma CompareIsExact(a: Moment, b: Moment)
    ensures CompareMoments(a, b) < 0 <==>
            Exact(a.instant) < Exact(b.instant) || (Exact(a.instant) == Exact(b.instant) && CompareIds(a.id, b.id) < 0)
    ensures CompareMoments(a, b) == 0 <==> Exact(a.instant) == Exact(b.instant) && a.id == b.id
  {
    CompareFractionIsExact(a.instant.fraction, b.instant.fraction);
    ValueBounds(a.instant.fraction);
    ValueBounds(b.instant.fraction);
    StringLeTotal(a.id, b.id);
  }

  predicate MomentLe(a: Moment, b: Moment) { CompareMoments(a, b) <= 0 }

  lemma MomentLeIs(a: Moment, b: Moment)
    ensures MomentLe(a, b) <==>
            Exact(a.instant) < Exact(b.instant) || (Exact(a.instant) == Exact(b.instant) && StringLe(a.id, b.id))
  {
    CompareIsExact(a, b);
    StringLeTotal(a.id, b.id);
  }

  lemma MomentLeTransitive(a: Moment, b: Moment, c: Moment)
    requires MomentLe(a, b) && MomentLe(b, c)
    ensures MomentLe(a, c)
  {
    MomentLeIs(a, b);
    MomentLeIs(b, c);
    MomentLeIs(a, c);
    if StringLe(a.id, b.id) && StringLe(b.id, c.id) { TextLeTransitive(Codes(a.id), Codes(b.id), Codes(c.id)); }
  }

  /** A total order; moments with different identities are never equal. */
  lemma MomentsAreOrdered()
    ensures Sorting.Ordering(MomentLe)
    ensures forall a, b :: MomentLe(a, b) && MomentLe(b, a) ==> a.id == b.id && Exact(a.instant) == Exact(b.instant)
  {
    forall a: Moment, b: Moment
      ensures MomentLe(a, b) || MomentLe(b, a)
      ensures MomentLe(a, b) && MomentLe(b, a) ==> a.id == b.id && Exact(a.instant) == Exact(b.instant)
    {
      MomentLeIs(a, b);
      MomentLeIs(b, a);
      StringLeTotal(a.id, b.id);
    }
    forall a: Moment, b: Moment, c: Moment | MomentLe(a, b) && MomentLe(b, c) ensures MomentLe(a, c) {
      MomentLeTransitive(a, b, c);
    }
  }

  /** Authored times are ordered by their exact instants across offsets and fractions of any length. */
  lemma AuthoredOrder(a: Authored, aId: string, b: Authored, bId: string)
    requires Writable(a) && IsReal(a) && Writable(b) && IsReal(b)
    ensures var c := CompareTimestampThenId(Render(a), aId, Render(b), bId);
            && c.Some?
            && (c.value < 0 <==> ExactTime(a) < ExactTime(b) || (ExactTime(a) == ExactTime(b) && CompareIds(aId, bId) < 0))
            && (c.value == 0 <==> ExactTime(a) == ExactTime(b) && aId == bId)
  {
    ParsesBack(a);
    ParsesBack(b);
    var x, y := ToInstant(a), ToInstant(b);
    assert Exact(x) == ExactTime(a) by { ExactOfAuthored(a); }
    assert Exact(y) == ExactTime(b) by { ExactOfAuthored(b); }
    CompareIsExact(Moment(x, aId), Moment(y, bId));
  }

  lemma ParsesBack(a: Authored)
    requires Writable(a) && IsReal(a)
    ensures ParseTimestamp(Render(a)) == Some(ToInstant(a))
  {
    ParseAcceptsRealTimes(Render(a));
  }

  /** Calendar day, time of day and fraction, less the offset. */
  ghost function ExactTime(a: Authored): real {
    (Date(a.year, a.month, a.day).Days() * 86400 + a.hour * 3600 + a.minute * 60 + a.second - a.zone.Seconds()) as real
    + match a.fraction case None => 0.0 case Some(f) => Value(f)
  }

  lemma ExactOfAuthored(a: Authored)
    ensures Exact(ToInstant(a)) == ExactTime(a)
  {
    if a.fraction.Some? { NormalizedValue(a.fraction.value); }
  }
}
