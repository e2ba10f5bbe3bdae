/**
 What the scalars of JSON text denote, said without the scanning functions: the grammar of numbers
 with the range in which they are integers, and the escapes of strings with code points in UTF-8.
 */
module JsonScalars {
  import opened DbFormat
  import opened JsonText
  import opened JsonNumber

  // ---- The grammar of numbers -----------------------------------------------------------------

  /** All the digits from `p` on, at least one. */
  predicate DigitRun(t: string, p: nat, e: nat) {
    p < e <= |t| && (forall i | p <= i < e :: '0' <= t[i] <= '9') && (e < |t| ==> !('0' <= t[e] <= '9'))
  }

  /** A minus sign or none, then a zero, or digits that do not begin with one. */
  predicate IntPart(t: string, b: nat, e: nat) {
    b < |t| && var p := if t[b] == '-' then b + 1 else b;
    p < |t| && if t[p] == '0' then e == p + 1 else DigitRun(t, p, e)
  }

  predicate FracPart(t: string, p: nat, e: nat, has: bool) {
    if has then p < |t| && t[p] == '.' && DigitRun(t, p + 1, e) else e == p && !(p < |t| && t[p] == '.')
  }

  predicate ExpPart(t: string, p: nat, e: nat, has: bool) {
    if has then
      p < |t| && t[p] in {'e', 'E'} &&
      (DigitRun(t, p + 1, e) || (p + 1 < |t| && t[p + 1] in {'+', '-'} && DigitRun(t, p + 2, e)))
    else e == p && !(p < |t| && t[p] in {'e', 'E'})
  }

  /** A number from `b` to before `e`; `broken` if it has a fraction or an exponent. */
  ghost predicate NumberText(t: string, b: nat, e: nat, broken: bool) {
    exists i: nat, f: nat, hf, hx ::
      IntPart(t, b, i) && FracPart(t, i, f, hf) && ExpPart(t, f, e, hx) && broken == (hf || hx)
  }

  lemma {:induction false} RunEnds(t: string, p: nat, e: nat)
    requires DigitRun(t, p, e)
    ensures DigitsEnd(t, p) == DigitsEnd(t, p + 1) == e && IsDigit(t[p])
  {
    DigitsEndAt(t, p, e);
    DigitsEndAt(t, p + 1, e);
  }

  lemma {:induction false} EndIsRun(t: string, p: nat)
    requires p < |t| && IsDigit(t[p])
    ensures DigitRun(t, p, DigitsEnd(t, p + 1))
  {
  }

  lemma {:induction false} ExponentIff(t: string, p: nat, e: nat, f: bool, r: bool)
    requires p <= |t|
    ensures Exponent(t, p, f) == Some((e, r)) <==> exists h :: ExpPart(t, p, e, h) && r == (f || h)
  {
    if h :| ExpPart(t, p, e, h) && r == (f || h) {
      if h {
        var q := if p + 1 < |t| && t[p + 1] in {'+', '-'} then p + 2 else p + 1;
        RunEnds(t, q, e);
      }
    }
    if Exponent(t, p, f) == Some((e, r)) {
      if p < |t| && (t[p] == 'e' || t[p] == 'E') {
        var q := if p + 1 < |t| && (t[p + 1] == '-' || t[p + 1] == '+') then p + 2 else p + 1;
        EndIsRun(t, q);
        assert ExpPart(t, p, e, true);
      } else {
        assert ExpPart(t, p, e, false);
      }
    }
  }

  lemma {:induction false} FractionReads(t: string, p: nat, f: nat, e: nat, hf: bool, hx: bool)
    requires p <= |t| && FracPart(t, p, f, hf) && ExpPart(t, f, e, hx)
    ensures Fraction(t, p) == Some((e, hf || hx))
  {
    if hf {
      RunEnds(t, p + 1, f);
      ExponentIff(t, f, e, true, true);
    } else {
      ExponentIff(t, p, e, false, hx);
    }
  }

  lemma {:induction false} FractionIs(t: string, p: nat) returns (f: nat, hf: bool, hx: bool)
    requires p <= |t| && Fraction(t, p).Some?
    ensures var (e, r) := Fraction(t, p).value;
            FracPart(t, p, f, hf) && ExpPart(t, f, e, hx) && r == (hf || hx)
  {
    var (e, r) := Fraction(t, p).value;
    hf := p < |t| && t[p] == '.';
    f := p;
    if hf {
      f := DigitsEnd(t, p + 2);
      EndIsRun(t, p + 1);
    }
    ExponentIff(t, f, e, hf, r);
    hx :| ExpPart(t, f, e, hx) && r == (hf || hx);
  }

  lemma {:induction false} NumberReads(t: string, b: nat, i: nat, f: nat, e: nat, hf: bool, hx: bool)
    requires IntPart(t, b, i) && FracPart(t, i, f, hf) && ExpPart(t, f, e, hx)
    ensures NumberEnd(t, b) == Some((e, hf || hx))
  {
    var p := if t[b] == '-' then b + 1 else b;
    FractionReads(t, i, f, e, hf, hx);
    if t[p] != '0' {
      RunEnds(t, p, i);
    }
  }

  lemma {:induction false} NumberIs(t: string, b: nat) returns (i: nat, f: nat, hf: bool, hx: bool)
    requires b < |t| && NumberEnd(t, b).Some?
    ensures var (e, r) := NumberEnd(t, b).value;
            IntPart(t, b, i) && FracPart(t, i, f, hf) && ExpPart(t, f, e, hx) && r == (hf || hx)
  {
    var p := if t[b] == '-' then b + 1 else b;
    i := if t[p] == '0' then p + 1 else DigitsEnd(t, p + 1);
    if t[p] != '0' {
      EndIsRun(t, p);
    }
    f, hf, hx := FractionIs(t, i);
  }

  /** Where a number ends, and that there is one: the scan agrees with the grammar. */
  lemma {:induction false} NumberEndIff(t: string, b: nat, e: nat, broken: bool)
    requires b < |t|
    ensures NumberEnd(t, b) == Some((e, broken)) <==> NumberText(t, b, e, broken)
  {
    if NumberText(t, b, e, broken) {
      var i: nat, f: nat, hf, hx :|
        IntPart(t, b, i) && FracPart(t, i, f, hf) && ExpPart(t, f, e, hx) && broken == (hf || hx);
      NumberReads(t, b, i, f, e, hf, hx);
    }
    if NumberEnd(t, b) == Some((e, broken)) {
      var i, f, hf, hx := NumberIs(t, b);
      assert IntPart(t, b, i) && FracPart(t, i, f, hf) && ExpPart(t, f, e, hx);
    }
  }

  // ---- When a number is an integer ------------------------------------------------------------

  /** The number that an integer's text denotes. */
  function Meaning(s: string): int
    requires IntegerText(s)
  {
    if s[0] == '-' then 0 - Amount(s[1..]) else Amount(s)
  }

  /** What an unsigned number that is too large becomes. */
  function Wrapped(v: int): int { if v <= MAX_INT64 then v else v - 0x1_0000_0000_0000_0000 }

  predicate IntegerText(s: string) { s != "" && Numeral(if s[0] == '-' then s[1..] else s) }

  lemma {:induction false} UpperFront() returns (s: string)
    ensures s == "1844674407" && AllDigits(s) && Amount(s) == 1844674407
  {
    s := PushDigit("", '1'); s := PushDigit(s, '8'); s := PushDigit(s, '4'); s := PushDigit(s, '4');
    s := PushDigit(s, '6'); s := PushDigit(s, '7'); s := PushDigit(s, '4'); s := PushDigit(s, '4');
    s := PushDigit(s, '0'); s := PushDigit(s, '7');
  }

  lemma {:induction false} UpperValue()
    ensures AllDigits("18446744073709551615") && Amount("18446744073709551615") == MAX_UINT64
  {
    var s := UpperFront();
    s := PushDigit(s, '3'); s := PushDigit(s, '7'); s := PushDigit(s, '0'); s := PushDigit(s, '9');
    s := PushDigit(s, '5'); s := PushDigit(s, '5'); s := PushDigit(s, '1'); s := PushDigit(s, '6');
    s := PushDigit(s, '1'); s := PushDigit(s, '5');
    assert s == "18446744073709551615";
  }

  /** A numeral of more than `k` digits is at least the power of ten. */
  lemma {:induction false} LongIsLarge(s: string, k: nat)
    requires Numeral(s) && |s| > k && k >= 1
    ensures Amount(s) >= Pow10(k)
  {
    ValueFront(s);
    Pow10Grows(k, |s| - 1);
    Multiple(Digit(s[0]), Pow10(|s| - 1));
  }

  lemma {:induction false} Multiple(d: nat, p: nat)
    requires d >= 1
    ensures d * p >= p
  {
  }

  lemma {:induction false} Pow10Grows(k: nat, n: nat)
    requires k <= n
    ensures Pow10(k) <= Pow10(n)
  {
    if k < n {
      Pow10Grows(k, n - 1);
    }
  }

  lemma {:induction false} Powers()
    ensures Pow10(18) == 1_000_000_000_000_000_000 && Pow10(19) == 10 * Pow10(18) && Pow10(20) == 100 * Pow10(18)
  {
    assert Pow10(6) == 1_000_000;
    assert Pow10(12) == 1_000_000_000_000;
  }

  lemma {:induction false} PlainIntegerIff(s: string)
    requires Numeral(s) && |s| <= 20
    ensures Amount(s) <= MAX_UINT64 ==> IntegerOf(s, RangeSide(s)) == Integer(Wrapped(Amount(s)))
    ensures Amount(s) > MAX_UINT64 ==> IntegerOf(s, RangeSide(s)) == Double(s)
  {
    if |s| == 20 {
      UpperValue();
      CompareIsOrder(s, "18446744073709551615");
    } else {
      ValueBound(s);
      Powers();
      Pow10Grows(|s|, 19);
    }
  }

  lemma {:induction false} MinusIntegerIff(s: string)
    requires Numeral(s) && |s| <= 19
    ensures Amount(s) <= -MIN_INT64 ==> IntegerOf("-" + s, RangeSide("-" + s)) == Integer(0 - Amount(s))
    ensures Amount(s) > -MIN_INT64 ==> IntegerOf("-" + s, RangeSide("-" + s)) == Double("-" + s)
  {
    if Amount(s) <= -MIN_INT64 {
      MinusSide(s);
      NegativeValue(s, RangeSide("-" + s));
    } else {
      if |s| < 19 {
        ValueBound(s);
        Powers();
        Pow10Grows(|s|, 18);
      }
      TwentyCharacters(s);
    }
  }

  lemma {:induction false} LongIntegers(s: string)
    requires IntegerText(s) && |s| > 20
    ensures Meaning(s) < MIN_INT64 || Meaning(s) > MAX_UINT64
  {
    Powers();
    if s[0] == '-' {
      LongIsLarge(s[1..], 19);
    } else {
      LongIsLarge(s, 20);
    }
  }

  lemma {:induction false} ShortIntegers(s: string)
    requires IntegerText(s) && |s| <= 20 && (s[0] != '-' ==> IsDigit(s[0])) && forall i | 0 < i < |s| :: IsDigit(s[i])
    ensures IntegerOf(s, RangeSide(s)) ==
            if MIN_INT64 <= Meaning(s) <= MAX_UINT64 then Integer(Wrapped(Meaning(s))) else Double(s)
  {
    if s[0] == '-' {
      assert s == "-" + s[1..];
      MinusIntegerIff(s[1..]);
    } else {
      PlainIntegerIff(s);
    }
  }

  lemma {:induction false} IntPartIsText(t: string, b: nat, e: nat)
    requires IntPart(t, b, e)
    ensures b < e <= |t| && IntegerText(t[b..e])
  {
    var s := t[b..e];
    assert s[0] == t[b];
    var n := if s[0] == '-' then s[1..] else s;
    var p := if t[b] == '-' then b + 1 else b;
    assert n == t[p..e] && forall i | 0 <= i < |n| :: n[i] == t[p + i];
  }

  /**
   A number without fraction and exponent is an integer exactly if it lies between the smallest
   signed and the largest unsigned 64-bit number; every other number is a double.
   */
  lemma {:induction false} NumberMeans(t: string, b: nat, e: nat, broken: bool)
    requires b < |t| && NumberText(t, b, e, broken)
    ensures b < e <= |t| && (!broken ==> IntegerText(t[b..e]))
    ensures var s := t[b..e];
            ParseNumber(t, b, RangeSide) ==
            Some((if !broken && MIN_INT64 <= Meaning(s) <= MAX_UINT64 then Integer(Wrapped(Meaning(s))) else Double(s),
                  e - 1))
  {
    NumberEndIff(t, b, e, broken);
    if !broken {
      var i, f, hf, hx := NumberIs(t, b);
      assert i == f == e;
      IntPartIsText(t, b, e);
      var s := t[b..e];
      NumberEndDigits(t, b);
      if |s| > 20 {
        LongIntegers(s);
      } else {
        ShortIntegers(s);
      }
    }
  }

  /** Whatever is no number is refused. */
  lemma {:induction false} NoNumber(t: string, b: nat)
    requires b < |t| && forall e, broken :: !NumberText(t, b, e, broken)
    ensures ParseNumber(t, b, RangeSide).None?
  {
    if NumberEnd(t, b).Some? {
      NumberEndIff(t, b, NumberEnd(t, b).value.0, NumberEnd(t, b).value.1);
    }
  }

  // ---- Escapes of strings ---------------------------------------------------------------------

  /** The code point that a sequence of UTF-8 bytes encodes in the shortest form. */
  function Decoded(s: string): (r: Option<nat>) {
    var n := |s|;
    if n == 1 && s[0] as nat < 0x80 then Some(s[0] as nat)
    else if n == 2 && 0xC2 <= s[0] as nat < 0xE0 && Follows(s[1]) then Some((s[0] as nat - 0xC0) * 0x40 + Low(s[1]))
    else if n == 3 && 0xE0 <= s[0] as nat < 0xF0 && Follows(s[1]) && Follows(s[2]) then
      Least(((s[0] as nat - 0xE0) * 0x40 + Low(s[1])) * 0x40 + Low(s[2]), 0x800)
    else if n == 4 && 0xF0 <= s[0] as nat < 0xF5 && Follows(s[1]) && Follows(s[2]) && Follows(s[3]) then
      Least((((s[0] as nat - 0xF0) * 0x40 + Low(s[1])) * 0x40 + Low(s[2])) * 0x40 + Low(s[3]), 0x1_0000)
    else None
  }

  /** A continuation byte, and its six bits. */
  predicate Follows(c: char) { 0x80 <= c as nat < 0xC0 }

  function Low(c: char): nat { c as nat % 0x40 }

  function Least(u: nat, bound: nat): Option<nat> { if bound <= u < 0x11_0000 then Some(u) else None }

  lemma {:induction false} ThreeBytes(a: nat, b: nat, c: nat)
    requires a < 16 && b < 64 && c < 64
    ensures Decoded([(0xE0 + a) as char, (0x80 + b) as char, (0x80 + c) as char]) == Least((a * 64 + b) * 64 + c, 0x800)
  {
  }

  lemma {:induction false} FourBytes(a: nat, b: nat, c: nat, d: nat)
    requires a < 5 && b < 64 && c < 64 && d < 64
    ensures Decoded([(0xF0 + a) as char, (0x80 + b) as char, (0x80 + c) as char, (0x80 + d) as char]) ==
            Least(((a * 64 + b) * 64 + c) * 64 + d, 0x1_0000)
  {
  }

  lemma {:induction false} SixBits(u: nat)
    ensures (u / 4096 * 64 + u / 64 % 64) * 64 + u % 64 == u
    ensures u / 262144 * 64 + u / 4096 % 64 == u / 4096
  {
    assert u / 4096 == u / 64 / 64;
    assert u / 262144 == u / 4096 / 64;
  }

  /** Every code point is encoded as UTF-8 that decodes to it. */
  lemma {:induction false} Utf8Decodes(u: nat)
    requires u < 0x11_0000
    ensures Decoded(Utf8(u)) == Some(u)
  {
    SixBits(u);
    if u > 0xFFFF {
      FourBytes(u / 262144, u / 4096 % 64, u / 64 % 64, u % 64);
    } else if u > 0x7FF {
      ThreeBytes(u / 4096, u / 64 % 64, u % 64);
    }
  }

  const HEX: map<char, nat> :=
    map['0' := 0, '1' := 1, '2' := 2, '3' := 3, '4' := 4, '5' := 5, '6' := 6, '7' := 7, '8' := 8, '9' := 9,
        'A' := 10, 'B' := 11, 'C' := 12, 'D' := 13, 'E' := 14, 'F' := 15,
        'a' := 10, 'b' := 11, 'c' := 12, 'd' := 13, 'e' := 14, 'f' := 15]

  /** The digits and their values. */
  lemma {:induction false} HexDigitIs(c: char)
    ensures HexDigit(c) == if c in HEX then Some(HEX[c]) else None
  {
  }

  predicate FourHex(t: string, b: nat) { b + 4 <= |t| && forall i | b <= i < b + 4 :: HexDigit(t[i]).Some? }

  function HexValue(t: string, b: nat): int
    requires FourHex(t, b)
  {
    HexDigit(t[b]).value * 0x1000 + HexDigit(t[b + 1]).value * 0x100 + HexDigit(t[b + 2]).value * 0x10
    + HexDigit(t[b + 3]).value
  }

  lemma {:induction false} ParseHexIs(t: string, b: nat)
    ensures if FourHex(t, b) then ParseHex(t, b).Some? && ParseHex(t, b).value == (HexValue(t, b), b + 3)
            else ParseHex(t, b).None?
  {
    if b + 4 <= |t| {
      assert FourHex(t, b) <==> HexDigit(t[b]).Some? && HexDigit(t[b + 1]).Some? && HexDigit(t[b + 2]).Some?
                                && HexDigit(t[b + 3]).Some?;
    }
  }

  /** The high half of a pair of surrogates, which stands for a code point above 0xFFFF (UTF-16). */
  predicate IsHigh(u: int) { 0xD800 <= u <= 0xDBFF }

  predicate IsLow(u: int) { 0xDC00 <= u <= 0xDFFF }

  lemma {:induction false} SingleParses(t: string, b: nat, h: nat)
    requires ParseHex(t, b) == Some((h, b + 3)) && !IsHigh(h)
    ensures ParseUnicode(t, b).Some? && Decoded(ParseUnicode(t, b).value.0) == Some(h)
            && ParseUnicode(t, b).value.1 == b + 3
  {
    Utf8Decodes(h);
  }

  lemma {:induction false} PairParses(t: string, b: nat, h: nat, l: nat, u: nat)
    requires ParseHex(t, b) == Some((h, b + 3)) && ParseHex(t, b + 6) == Some((l, b + 9)) && IsHigh(h) && IsLow(l)
    requires t[b + 4] == '\\' && t[b + 5] == 'u' && u == 0x1_0000 + (h - 0xD800) * 0x400 + (l - 0xDC00)
    ensures ParseUnicode(t, b).Some? && Decoded(ParseUnicode(t, b).value.0) == Some(u)
            && ParseUnicode(t, b).value.1 == b + 9
  {
    Utf8Decodes(u);
  }

  lemma {:induction false} LoneIsRefused(t: string, b: nat, h: nat)
    requires ParseHex(t, b) == Some((h, b + 3)) && IsHigh(h)
    requires b + 6 <= |t| && t[b + 4] == '\\' && t[b + 5] == 'u' ==>
               ParseHex(t, b + 6).None? || !IsLow(ParseHex(t, b + 6).value.0)
    ensures ParseUnicode(t, b).None?
  {
  }

  lemma {:induction false} UnescapeU(t: string, x: nat)
    requires x < |t| && t[x] == 'u'
    ensures Unescape(t, x) == ParseUnicode(t, x + 1) && (ParseHex(t, x + 1).None? ==> Unescape(t, x).None?)
  {
  }

  /** A code point of four digits that is no high surrogate: UTF-8 that decodes to it. */
  lemma {:induction false} SingleMeans(t: string, x: nat, h: nat)
    requires x < |t| && t[x] == 'u' && FourHex(t, x + 1) && h == HexValue(t, x + 1) && !IsHigh(h)
    ensures Unescape(t, x).Some? && Decoded(Unescape(t, x).value.0) == Some(h) && Unescape(t, x).value.1 == x + 4
  {
    ParseHexIs(t, x + 1);
    SingleParses(t, x + 1, h);
    UnescapeU(t, x);
  }

  /** A high surrogate and a low one: UTF-8 that decodes to the code point they stand for together. */
  lemma {:induction false} PairMeans(t: string, x: nat, h: nat, l: nat)
    requires x + 7 <= |t| && t[x] == 'u' && FourHex(t, x + 1) && h == HexValue(t, x + 1) && IsHigh(h)
    requires t[x + 5] == '\\' && t[x + 6] == 'u' && FourHex(t, x + 7) && l == HexValue(t, x + 7) && IsLow(l)
    ensures var u := 0x1_0000 + (h - 0xD800) * 0x400 + (l - 0xDC00);
            Unescape(t, x).Some? && u >= 0 && Decoded(Unescape(t, x).value.0) == Some(u)
              && Unescape(t, x).value.1 == x + 10
  {
    var u := 0x1_0000 + (h - 0xD800) * 0x400 + (l - 0xDC00);
    assert ParseHex(t, x + 1) == Some((h, x + 4)) by { ParseHexIs(t, x + 1); }
    assert ParseHex(t, x + 7) == Some((l, x + 10)) by { ParseHexIs(t, x + 7); }
    PairParses(t, x + 1, h, l, u);
    UnescapeU(t, x);
  }

  /** Fewer digits, and a high surrogate without a low one, are refused. */
  lemma {:induction false} OthersRefused(t: string, x: nat)
    requires x < |t| && t[x] == 'u'
    requires FourHex(t, x + 1) ==>
               IsHigh(HexValue(t, x + 1)) &&
               !(x + 7 <= |t| && t[x + 5] == '\\' && t[x + 6] == 'u' && FourHex(t, x + 7) && IsLow(HexValue(t, x + 7)))
    ensures Unescape(t, x).None?
  {
    UnescapeU(t, x);
    ParseHexIs(t, x + 1);
    ParseHexIs(t, x + 7);
    if FourHex(t, x + 1) {
      LoneIsRefused(t, x + 1, HexValue(t, x + 1));
    }
  }

  /** The other escapes, and what each stands for. */
  const SIMPLE: map<char, char> :=
    map['"' := '"', '\\' := '\\', '/' := '/', 'b' := 8 as char, 'f' := 12 as char,
        'n' := 10 as char, 'r' := 13 as char, 't' := 9 as char]

  lemma {:induction false} SimpleEscapes(t: string, x: nat)
    requires x < |t| && t[x] != 'u'
    ensures Unescape(t, x) == if t[x] in SIMPLE then Some(([SIMPLE[t[x]]], x)) else None
  {
  }
}
