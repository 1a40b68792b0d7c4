/**
 String literals of canonical JSON: the escapes of JSON.stringify, and a decoder for the string
 grammar of section 7 of RFC 8259.
 */
module JsonStrings {
  import opened Options
  import opened Texts

  const QUOTE: CodeUnit := 0x22
  const BACKSLASH: CodeUnit := 0x5C

  predicate IsLead(c: CodeUnit) { 0xD800 <= c <= 0xDBFF }
  predicate IsTrail(c: CodeUnit) { 0xDC00 <= c <= 0xDFFF }

  /** A lower-case hexadecimal digit. */
  function HexDigit(d: nat): CodeUnit
    requires d < 16
  {
    if d < 10 then 0x30 + d else 0x61 + d - 10
  }

  function HexValue(c: CodeUnit): Option<nat> {
    if 0x30 <= c <= 0x39 then Some(c - 0x30)
    else if 0x61 <= c <= 0x66 then Some(c - 0x61 + 10)
    else if 0x41 <= c <= 0x46 then Some(c - 0x41 + 10)
    else None
  }

  function Hex4(c: CodeUnit): Text {
    [HexDigit(c / 4096), HexDigit(c / 256 % 16), HexDigit(c / 16 % 16), HexDigit(c % 16)]
  }

  /** The short escape of a unit, if it has one: b, t, n, f, r, the quote and the backslash. */
  function ShortEscape(c: CodeUnit): Option<CodeUnit> {
    if c == 0x08 then Some(0x62) else if c == 0x09 then Some(0x74) else if c == 0x0A then Some(0x6E)
    else if c == 0x0C then Some(0x66) else if c == 0x0D then Some(0x72)
    else if c == QUOTE then Some(QUOTE) else if c == BACKSLASH then Some(BACKSLASH) else None
  }

  /** One unit that is not half of a surrogate pair. */
  function EscapeUnit(c: CodeUnit): Text {
    if ShortEscape(c).Some? then [BACKSLASH, ShortEscape(c).value]
    else if c < 0x20 || IsLead(c) || IsTrail(c) then [BACKSLASH, 0x75] + Hex4(c)
    else [c]
  }

  /** A surrogate pair is copied; a lone surrogate is escaped. */
  function Escape(s: Text): Text {
    if s == [] then []
    else if |s| > 1 && IsLead(s[0]) && IsTrail(s[1]) then s[..2] + Escape(s[2..])
    else EscapeUnit(s[0]) + Escape(s[1..])
  }

  function Quoted(s: Text): Text { [QUOTE] + Escape(s) + [QUOTE] }

  // ---------------------------------------------------------------------------
  // The decoder
  // ---------------------------------------------------------------------------

  /** What a letter after a backslash stands for; the grammar also allows the slash. */
  function Unescape(c: CodeUnit): Option<CodeUnit> {
    if c == 0x62 then Some(0x08) else if c == 0x74 then Some(0x09) else if c == 0x6E then Some(0x0A)
    else if c == 0x66 then Some(0x0C) else if c == 0x72 then Some(0x0D)
    else if c == QUOTE || c == BACKSLASH || c == 0x2F then Some(c) else None
  }

  function FourHex(s: Text): Option<CodeUnit>
    requires |s| >= 4
  {
    var a, b, c, d := HexValue(s[0]), HexValue(s[1]), HexValue(s[2]), HexValue(s[3]);
    if a.Some? && b.Some? && c.Some? && d.Some? && a.value * 4096 + b.value * 256 + c.value * 16 + d.value < 0x1_0000
    then Some(a.value * 4096 + b.value * 256 + c.value * 16 + d.value) else None
  }

  /** One unescaped unit or one escape: the unit it stands for, and the rest. */
  function DecodeUnit(s: Text): (r: Option<(CodeUnit, Text)>)
    requires s != []
    ensures r.Some? ==> |r.value.1| < |s|
  {
    if s[0] < 0x20 || s[0] == QUOTE then None
    else if s[0] != BACKSLASH then Some((s[0], s[1..]))
    else if |s| >= 2 && Unescape(s[1]).Some? then Some((Unescape(s[1]).value, s[2..]))
    else if |s| >= 6 && s[1] == 0x75 && FourHex(s[2..]).Some? then Some((FourHex(s[2..]).value, s[6..]))
    else None
  }

  /** The characters up to the closing quote, and what follows it. */
  function DecodeChars(s: Text): (r: Option<(Text, Text)>)
    ensures r.Some? ==> |r.value.1| < |s|
  {
    if s == [] then None
    else if s[0] == QUOTE then Some(([], s[1..]))
    else match DecodeUnit(s)
         case None => None
         case Some((c, rest)) =>
           match DecodeChars(rest)
           case None => None
           case Some((cs, after)) => Some(([c] + cs, after))
  }

  lemma DigitRoundTrip(d: nat)
    requires d < 16
    ensures HexValue(HexDigit(d)) == Some(d)
  {}

  lemma Base16(c: nat)
    ensures c / 4096 * 4096 + c / 256 % 16 * 256 + c / 16 % 16 * 16 + c % 16 == c
  {
    var x := c / 16;
    var y := x / 16;
    assert x == 16 * y + x % 16 && y == c / 256 && y / 16 == c / 4096;
  }

  lemma HexRoundTrip(c: CodeUnit, rest: Text)
    ensures FourHex(Hex4(c) + rest) == Some(c)
  {
    var h := Hex4(c) + rest;
    assert h[0] == HexDigit(c / 4096) && h[1] == HexDigit(c / 256 % 16) && h[2] == HexDigit(c / 16 % 16) && h[3] == HexDigit(c % 16);
    DigitRoundTrip(c / 4096);
    DigitRoundTrip(c / 256 % 16);
    DigitRoundTrip(c / 16 % 16);
    DigitRoundTrip(c % 16);
    Base16(c);
  }

  lemma UnitRoundTrip(c: CodeUnit, rest: Text)
    ensures DecodeUnit(EscapeUnit(c) + rest) == Some((c, rest))
  {
    if ShortEscape(c).None? && (c < 0x20 || IsLead(c) || IsTrail(c)) {
      var e := EscapeUnit(c) + rest;
      assert e[2..] == Hex4(c) + rest;
      HexRoundTrip(c, rest);
    }
  }

  /** Decoding past the escape of one unit. */
  lemma PastUnit(c: CodeUnit, tail: Text)
    ensures DecodeChars(EscapeUnit(c) + tail)
            == match DecodeChars(tail) case None => None case Some((cs, after)) => Some(([c] + cs, after))
  {
    UnitRoundTrip(c, tail);
    assert (EscapeUnit(c) + tail)[0] == EscapeUnit(c)[0];
  }

  lemma CopiedUnit(c: CodeUnit, s: Text)
    requires c >= 0x20 && c != QUOTE && c != BACKSLASH
    ensures DecodeChars([c] + s) == match DecodeChars(s) case None => None case Some((cs, after)) => Some(([c] + cs, after))
  {
    assert ([c] + s)[1..] == s;
  }

  /** Two literals of one text agree up to how their parts are bracketed. */
  lemma Regroup(a: Text, b: Text, rest: Text)
    ensures a + b + [QUOTE] + rest == a + (b + [QUOTE] + rest)
  {}

  lemma PairRoundTrip(lead: CodeUnit, trail: CodeUnit, cs: Text, tail: Text, rest: Text)
    requires IsLead(lead) && IsTrail(trail) && DecodeChars(tail) == Some((cs, rest))
    ensures DecodeChars([lead, trail] + tail) == Some(([lead, trail] + cs, rest))
  {
    CopiedUnit(trail, tail);
    CopiedUnit(lead, [trail] + tail);
    assert [lead, trail] + tail == [lead] + ([trail] + tail);
    assert [lead] + ([trail] + cs) == [lead, trail] + cs;
  }

  /** Every string, lone surrogates included, comes back from its literal. */
  lemma {:induction false} EscapeRoundTrip(s: Text, rest: Text)
    ensures DecodeChars(Escape(s) + [QUOTE] + rest) == Some((s, rest))
  {
    if s == [] {
      assert Escape(s) + [QUOTE] + rest == [QUOTE] + rest;
    } else {
      var n := if |s| > 1 && IsLead(s[0]) && IsTrail(s[1]) then 2 else 1;
      var first, more := s[..n], s[n..];
      var e := if n == 2 then first else EscapeUnit(s[0]);
      assert Escape(s) == e + Escape(more);
      EscapeRoundTrip(more, rest);
      var tail := Escape(more) + [QUOTE] + rest;
      Regroup(e, Escape(more), rest);
      if n == 2 {
        assert first == [s[0], s[1]];
        PairRoundTrip(s[0], s[1], more, tail, rest);
      } else {
        assert first == [s[0]];
        PastUnit(s[0], tail);
      }
      assert first + more == s;
    }
  }

  lemma QuotedRoundTrip(s: Text, rest: Text)
    ensures (Quoted(s) + rest)[0] == QUOTE && DecodeChars((Quoted(s) + rest)[1..]) == Some((s, rest))
  {
    EscapeRoundTrip(s, rest);
    assert (Quoted(s) + rest)[1..] == Escape(s) + [QUOTE] + rest;
  }

  /** No shorter literal stands for a unit: a letter where there is one, four digits only where nothing else will do. */
  lemma EscapeIsShortest(c: CodeUnit, t: Text)
    requires !IsLead(c) && !IsTrail(c) && t != [] && DecodeUnit(t) == Some((c, []))
    ensures |EscapeUnit(c)| <= |t|
    ensures |t| == 1 ==> EscapeUnit(c) == t
  {
    if t[0] != BACKSLASH { assert t == [t[0]] + t[1..]; }
  }

  /** The digits of an escape are lower-case, the higher ones first. */
  lemma EscapeDigits(c: CodeUnit)
    ensures |Hex4(c)| == 4 && forall d :: d in Hex4(c) ==> 0x30 <= d <= 0x39 || 0x61 <= d <= 0x66
    ensures Hex4(0x1F) == [0x30, 0x30, 0x31, 0x66] && Hex4(0xD83D) == [0x64, 0x38, 0x33, 0x64]
  {}

  lemma UnitIsClean(c: CodeUnit)
    ensures forall e :: e in EscapeUnit(c) ==> e >= 0x20 && !IsLead(e) && !IsTrail(e)
  {
    if ShortEscape(c).None? && (c < 0x20 || IsLead(c) || IsTrail(c)) {
      forall e | e in EscapeUnit(c) ensures 0x20 <= e < 0x80 { assert e in [BACKSLASH, 0x75] || e in Hex4(c); }
    }
  }

  /**
   The escapes of section 7: nothing in the body of a literal is a control character, and every
   surrogate in it is half of a pair.
   */
  lemma {:induction false} EscapedIsClean(s: Text)
    ensures forall c :: c in Escape(s) ==> c >= 0x20
    ensures Paired(Escape(s))
  {
    if s != [] {
      if |s| > 1 && IsLead(s[0]) && IsTrail(s[1]) {
        EscapedIsClean(s[2..]);
        assert (s[..2] + Escape(s[2..]))[2..] == Escape(s[2..]);
      } else {
        EscapedIsClean(s[1..]);
        UnitIsClean(s[0]);
        PlainPrefix(EscapeUnit(s[0]), Escape(s[1..]));
      }
    }
  }

  /** Surrogates come in pairs only. */
  predicate Paired(s: Text) {
    if s == [] then true
    else if IsLead(s[0]) then |s| > 1 && IsTrail(s[1]) && Paired(s[2..])
    else !IsTrail(s[0]) && Paired(s[1..])
  }

  /** A lead is followed by a trail, and a trail follows a lead. */
  ghost predicate HalvesMeet(s: Text, i: nat)
    requires i < |s|
  {
    && (0xD800 <= s[i] < 0xDC00 ==> i + 1 < |s| && 0xDC00 <= s[i + 1] < 0xE000)
    && (0xDC00 <= s[i] < 0xE000 ==> i > 0 && 0xD800 <= s[i - 1] < 0xDC00)
  }

  lemma {:induction false} PairedMeans(s: Text)
    ensures Paired(s) <==> forall i: nat :: i < |s| ==> HalvesMeet(s, i)
  {
    if s != [] {
      var n := if IsLead(s[0]) && |s| > 1 && IsTrail(s[1]) then 2 else 1;
      PairedMeans(s[n..]);
      if forall i: nat :: i < |s| ==> HalvesMeet(s, i) {
        assert HalvesMeet(s, 0);
        forall i: nat | i < |s[n..]| ensures HalvesMeet(s[n..], i) { assert HalvesMeet(s, n + i); }
      }
      if Paired(s) {
        forall i: nat | i < |s| ensures HalvesMeet(s, i) {
          if i >= n { assert HalvesMeet(s[n..], i - n); }
        }
      }
    }
  }

  /** After a backslash the grammar allows eight letters and four digits, and nothing else. */
  lemma DecoderRefuses(s: Text)
    requires |s| >= 2 && s[0] == BACKSLASH && s[1] !in {QUOTE, BACKSLASH, 0x2F, 0x62, 0x66, 0x6E, 0x72, 0x74, 0x75}
    ensures DecodeUnit(s).None?
  {}

  lemma DigitsOfEitherCase(c: CodeUnit)
    requires 0x41 <= c <= 0x46
    ensures HexValue(c) == HexValue(c + 0x20) == Some(c - 0x41 + 10)
  {}

  lemma {:induction false} PlainPrefix(p: Text, s: Text)
    requires forall c :: c in p ==> !IsLead(c) && !IsTrail(c)
    requires Paired(s)
    ensures Paired(p + s)
  {
    if p == [] {
      assert p + s == s;
    } else {
      PlainPrefix(p[1..], s);
      assert (p + s)[1..] == p[1..] + s;
    }
  }
}
