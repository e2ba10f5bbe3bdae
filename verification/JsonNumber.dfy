/** Numbers of JSON: the grammar, the decision between 64-bit integer and double, decimal output. */
module JsonNumber {
  import opened DbFormat
  import opened JsonText

  const MIN_INT64: int := -0x8000_0000_0000_0000
  const MAX_UINT64: int := 0xFFFF_FFFF_FFFF_FFFF
  const MAX_INT64: int := 0x7FFF_FFFF_FFFF_FFFF

  predicate IsDigit(c: char) { '0' <= c <= '9' }

  function Digit(c: char): (r: nat)
    requires IsDigit(c)
    ensures r < 10
  {
    c as nat - '0' as nat
  }

  function DigitsEnd(t: string, p: nat): (r: nat)
    requires p <= |t|
    ensures p <= r <= |t| && (forall i | p <= i < r :: IsDigit(t[i])) && (r < |t| ==> !IsDigit(t[r]))
    decreases |t| - p
  {
    if p < |t| && IsDigit(t[p]) then DigitsEnd(t, p + 1) else p
  }

  /** Where the number that starts at `b` ends, and whether it has a fraction or an exponent. */
  function NumberEnd(t: string, b: nat): (r: Option<(nat, bool)>)
    requires b < |t|
    ensures r.Some? ==> b < r.value.0 <= |t|
  {
    var p := if t[b] == '-' then b + 1 else b;
    if p == |t| then None
    else if t[p] == '0' then Fraction(t, p + 1)
    else if '1' <= t[p] <= '9' then Fraction(t, DigitsEnd(t, p + 1))
    else None
  }

  function Fraction(t: string, p: nat): (r: Option<(nat, bool)>)
    requires p <= |t|
    ensures r.Some? ==> p <= r.value.0 <= |t|
  {
    if p == |t| then Some((p, false))
    else if t[p] != '.' then Exponent(t, p, false)
    else if p + 1 == |t| || !IsDigit(t[p + 1]) then None
    else Exponent(t, DigitsEnd(t, p + 2), true)
  }

  function Exponent(t: string, p: nat, fraction: bool): (r: Option<(nat, bool)>)
    requires p <= |t|
    ensures r.Some? ==> p <= r.value.0 <= |t|
  {
    if p == |t| || (t[p] != 'e' && t[p] != 'E') then Some((p, fraction))
    else
      var q := if p + 1 < |t| && (t[p + 1] == '-' || t[p + 1] == '+') then p + 2 else p + 1;
      if q >= |t| || !IsDigit(t[q]) then None else Some((DigitsEnd(t, q + 1), true))
  }

  /** The value of a string of decimal digits. */
  function Amount(s: string): (r: nat)
    requires forall i | 0 <= i < |s| :: IsDigit(s[i])
  {
    if s == "" then 0 else 10 * Amount(s[..|s| - 1]) + Digit(s[|s| - 1])
  }

  /** A 64-bit word read as a signed number. */
  function Signed(v: nat): (r: int)
    ensures MIN_INT64 <= r <= MAX_INT64
  {
    var w := v % 0x1_0000_0000_0000_0000;
    if w <= MAX_INT64 then w else w - 0x1_0000_0000_0000_0000
  }

  // ---- Decimal output -------------------------------------------------------------------------

  function Decimal(n: nat): (r: string)
    ensures |r| > 0 && forall i | 0 <= i < |r| :: IsDigit(r[i])
  {
    var d := ('0' as int + n % 10) as char;
    if n < 10 then [d] else Decimal(n / 10) + [d]
  }

  function Written(i: int): string { if i < 0 then "-" + Decimal(-i) else Decimal(i) }

  /** memcmp of two texts of one length: the sign of the first difference. */
  function Compare(a: string, b: string): int
    requires |a| == |b|
  {
    if a == "" then 0 else if a[0] < b[0] then -1 else if a[0] > b[0] then 1 else Compare(a[1..], b[1..])
  }

  datatype Number = Integer(i: int) | Double(text: string)

  /** Which side of the range of 64-bit integers the characters are on. */
  function RangeSide(s: string): int {
    if |s| != 20 then -1
    else Compare(s, if s[0] != '-' then "18446744073709551615" else "-9223372036854775808")
  }

  /** Parser::parse_number after the scan: the value of the characters `s`, on side `m` of the range. */
  function IntegerOf(s: string, m: int): (r: Number)
    requires |s| > 0 && (s[0] != '-' ==> IsDigit(s[0])) && forall i | 0 < i < |s| :: IsDigit(s[i])
    ensures r.Integer? ==> MIN_INT64 <= r.i <= MAX_INT64
  {
    if m > 0 then Double(s)
    else if m == 0 then Integer(if s[0] != '-' then Signed(MAX_UINT64) else MIN_INT64)
    else if s[0] != '-' then Integer(Signed(Amount(s)))
    else Integer(Signed(0x1_0000_0000_0000_0000 - Amount(s[1..]) % 0x1_0000_0000_0000_0000))
  }

  lemma {:induction false} NumberEndDigits(t: string, b: nat)
    requires b < |t| && NumberEnd(t, b).Some? && !NumberEnd(t, b).value.1
    ensures var s := t[b..NumberEnd(t, b).value.0];
            |s| > 0 && (s[0] != '-' ==> IsDigit(s[0])) && forall i | 0 < i < |s| :: IsDigit(s[i])
  {
  }

  /** A number at `b`: the position is that of its last character. */
  function ParseNumber(t: string, b: nat, side: string -> int): (r: Option<(Number, nat)>)
    requires b < |t|
    ensures r.Some? ==> b <= r.value.1 < |t| && (r.value.0.Integer? ==> MIN_INT64 <= r.value.0.i <= MAX_INT64)
  {
    var e := NumberEnd(t, b);
    if e.None? then None
    else
      var s := t[b..e.value.0];
      if e.value.1 || |s| > 20 then Some((Double(s), e.value.0 - 1))
      else
        NumberEndDigits(t, b);
        Some((IntegerOf(s, side(s)), e.value.0 - 1))
  }

  lemma {:induction false} DecimalValue(n: nat)
    ensures Amount(Decimal(n)) == n
    ensures n > 0 ==> Decimal(n)[0] != '0'
    ensures n == 0 ==> Decimal(n) == "0"
  {
    if n >= 10 {
      DecimalValue(n / 10);
      var s := Decimal(n);
      assert s[..|s| - 1] == Decimal(n / 10);
    }
  }

  function Pow10(k: nat): nat { if k == 0 then 1 else 10 * Pow10(k - 1) }

  lemma {:induction false} DecimalLength(n: nat, k: nat)
    requires n < Pow10(k) && k > 0
    ensures |Decimal(n)| <= k
  {
    if n >= 10 {
      DecimalLength(n / 10, k - 1);
    }
  }

  lemma {:induction false} ValueBound(s: string)
    requires forall i | 0 <= i < |s| :: IsDigit(s[i])
    ensures Amount(s) < Pow10(|s|)
  {
    if s != "" {
      ValueBound(s[..|s| - 1]);
    }
  }

  lemma {:induction false} FrontStep(d: nat, p: nat, v: nat, x: nat)
    ensures 10 * (d * p + v) + x == d * (10 * p) + (10 * v + x)
  {
    assert d * (10 * p) == 10 * (d * p);
  }

  /** The most significant digit first. */
  lemma {:induction false} ValueFront(s: string)
    requires s != "" && forall i | 0 <= i < |s| :: IsDigit(s[i])
    ensures Amount(s) == Digit(s[0]) * Pow10(|s| - 1) + Amount(s[1..])
  {
    if |s| == 1 {
      assert s[..0] == "" && s[1..] == "";
    } else {
      var r, q := s[..|s| - 1], s[1..];
      ValueFront(r);
      assert r[1..] == q[..|q| - 1] && q[|q| - 1] == s[|s| - 1] && r[0] == s[0];
      assert Amount(s) == 10 * Amount(r) + Digit(s[|s| - 1]);
      assert Amount(q) == 10 * Amount(r[1..]) + Digit(s[|s| - 1]);
      FrontStep(Digit(s[0]), Pow10(|r| - 1), Amount(r[1..]), Digit(s[|s| - 1]));
    }
  }

  /** Between texts of one length the order of bytes is the order of numbers. */
  lemma {:induction false} CompareIsOrder(a: string, b: string)
    requires |a| == |b| && (forall i | 0 <= i < |a| :: IsDigit(a[i])) && forall i | 0 <= i < |b| :: IsDigit(b[i])
    ensures Compare(a, b) < 0 <==> Amount(a) < Amount(b)
    ensures Compare(a, b) == 0 <==> Amount(a) == Amount(b)
  {
    if a != "" {
      ValueFront(a);
      ValueFront(b);
      ValueBound(a[1..]);
      ValueBound(b[1..]);
      CompareIsOrder(a[1..], b[1..]);
      FrontDecides(Digit(a[0]), Digit(b[0]), Pow10(|a| - 1), Amount(a[1..]), Amount(b[1..]));
    }
  }

  lemma {:induction false} FrontDecides(x: nat, y: nat, p: nat, v: nat, w: nat)
    requires v < p && w < p
    ensures x < y ==> x * p + v < y * p + w
    ensures x > y ==> x * p + v > y * p + w
  {
    if x < y {
      assert (x + 1) * p <= y * p;
    } else if x > y {
      assert (y + 1) * p <= x * p;
    }
  }

  // ---- Reading back ---------------------------------------------------------------------------

  /** What follows at `p` cannot belong to a number. */
  predicate NumberStops(t: string, p: nat) {
    p == |t| || (p < |t| && !IsDigit(t[p]) && t[p] != '.' && t[p] != 'e' && t[p] != 'E')
  }

  predicate AllDigits(s: string) { forall i | 0 <= i < |s| :: IsDigit(s[i]) }

  /** An integer's digits: no leading zero. */
  predicate Numeral(s: string) { s != "" && AllDigits(s) && (s[0] == '0' ==> |s| == 1) }

  lemma {:induction false} DecimalIsNumeral(n: nat)
    ensures Numeral(Decimal(n))
  {
    DecimalValue(n);
  }

  lemma {:induction false} DigitsEndAt(t: string, p: nat, e: nat)
    requires p <= e <= |t| && (forall i | p <= i < e :: IsDigit(t[i])) && (e < |t| ==> !IsDigit(t[e]))
    ensures DigitsEnd(t, p) == e
  {
  }

  lemma {:induction false} NumeralEnds(t: string, p: nat, s: string)
    requires Numeral(s) && Stands(t, p, s) && NumberStops(t, p + |s|)
    ensures p < |t| && IsDigit(t[p])
    ensures t[p] == '0' ==> Fraction(t, p + 1) == Some((p + |s|, false))
    ensures t[p] != '0' ==> Fraction(t, DigitsEnd(t, p + 1)) == Some((p + |s|, false))
  {
    forall i | p <= i < p + |s| ensures IsDigit(t[i]) {
      StandsAt(t, p, s, i - p);
    }
    StandsAt(t, p, s, 0);
    DigitsEndAt(t, p + 1, p + |s|);
  }

  lemma {:induction false} NumeralEndsThere(t: string, b: nat, p: nat, e: nat)
    requires b <= p < |t| && p == (if t[b] == '-' then b + 1 else b) && IsDigit(t[p])
    requires t[p] == '0' ==> Fraction(t, p + 1) == Some((e, false))
    requires t[p] != '0' ==> Fraction(t, DigitsEnd(t, p + 1)) == Some((e, false))
    ensures NumberEnd(t, b) == Some((e, false))
  {
  }

  lemma {:induction false} MinusEnds(t: string, b: nat, s: string)
    requires Numeral(s) && Stands(t, b, "-" + s) && NumberStops(t, b + 1 + |s|)
    ensures b < |t| && NumberEnd(t, b) == Some((b + 1 + |s|, false))
  {
    StandsConcat(t, b, "-", s);
    StandsAt(t, b, "-", 0);
    NumeralEnds(t, b + 1, s);
    NumeralEndsThere(t, b, b + 1, b + 1 + |s|);
  }

  lemma {:induction false} PlainEnds(t: string, b: nat, s: string)
    requires Numeral(s) && Stands(t, b, s) && NumberStops(t, b + |s|)
    ensures b < |t| && NumberEnd(t, b) == Some((b + |s|, false))
  {
    NumeralEnds(t, b, s);
    NumeralEndsThere(t, b, b, b + |s|);
  }

  lemma {:induction false} PushDigit(s: string, c: char) returns (r: string)
    requires AllDigits(s) && IsDigit(c)
    ensures r == s + [c] && AllDigits(r) && Amount(r) == 10 * Amount(s) + Digit(c)
  {
    r := s + [c];
    assert r[..|r| - 1] == s;
  }

  lemma {:induction false} LimitFront() returns (s: string)
    ensures s == "9223372036" && AllDigits(s) && Amount(s) == 9223372036
  {
    s := PushDigit("", '9'); s := PushDigit(s, '2'); s := PushDigit(s, '2'); s := PushDigit(s, '3'); s := PushDigit(s, '3');
    s := PushDigit(s, '7'); s := PushDigit(s, '2'); s := PushDigit(s, '0'); s := PushDigit(s, '3'); s := PushDigit(s, '6');
  }

  lemma {:induction false} LimitValue()
    ensures AllDigits("9223372036854775808") && Amount("9223372036854775808") == -MIN_INT64
  {
    var s := LimitFront();
    s := PushDigit(s, '8'); s := PushDigit(s, '5'); s := PushDigit(s, '4'); s := PushDigit(s, '7'); s := PushDigit(s, '7');
    s := PushDigit(s, '5'); s := PushDigit(s, '8'); s := PushDigit(s, '0'); s := PushDigit(s, '8');
    assert s == "9223372036854775808";
  }

  /** memcmp with the text of MIN_INT64 tells whether a negative number is in range. */
  lemma {:induction false} TwentyCharacters(s: string)
    requires |s| == 19 && AllDigits(s)
    ensures Compare("-" + s, "-9223372036854775808") == 0 <==> Amount(s) == -MIN_INT64
    ensures Compare("-" + s, "-9223372036854775808") < 0 <==> Amount(s) < -MIN_INT64
  {
    var limit := "9223372036854775808";
    LimitValue();
    CompareIsOrder(s, limit);
    assert ("-" + s)[1..] == s;
    assert "-9223372036854775808"[1..] == limit;
  }

  lemma {:induction false} SignedNegative(v: nat)
    requires v <= -MIN_INT64
    ensures Signed(0x1_0000_0000_0000_0000 - v % 0x1_0000_0000_0000_0000) == 0 - v
  {
    assert v % 0x1_0000_0000_0000_0000 == v;
  }

  lemma {:induction false} NegativeValue(s: string, m: int)
    requires |s| > 0 && AllDigits(s) && Amount(s) <= -MIN_INT64
    requires m < 0 || (m == 0 && Amount(s) == -MIN_INT64)
    ensures IntegerOf("-" + s, m) == Integer(0 - Amount(s))
  {
    assert ("-" + s)[1..] == s;
    SignedNegative(Amount(s));
  }

  lemma {:induction false} MinusSide(s: string)
    requires 0 < |s| <= 19 && AllDigits(s) && Amount(s) <= -MIN_INT64
    ensures RangeSide("-" + s) < 0 || (RangeSide("-" + s) == 0 && Amount(s) == -MIN_INT64)
  {
    if |s| == 19 {
      TwentyCharacters(s);
    }
  }

  lemma {:induction false} PositiveValue(s: string, m: int)
    requires |s| > 0 && AllDigits(s) && Amount(s) <= MAX_INT64 && m < 0
    ensures IntegerOf(s, m) == Integer(Amount(s))
  {
    assert Amount(s) % 0x1_0000_0000_0000_0000 == Amount(s);
  }

  lemma {:induction false} NumberAt(t: string, b: nat, w: string, side: string -> int, n: Number)
    requires 0 < |w| <= 20 && Stands(t, b, w) && b < |t| && NumberEnd(t, b) == Some((b + |w|, false))
    requires (w[0] != '-' ==> IsDigit(w[0])) && (forall i | 0 < i < |w| :: IsDigit(w[i])) && IntegerOf(w, side(w)) == n
    ensures ParseNumber(t, b, side) == Some((n, b + |w| - 1))
  {
    assert t[b..b + |w|] == w;
  }

  lemma {:induction false} MinusAt(t: string, b: nat, s: string, side: string -> int)
    requires AllDigits(s) && |s| <= 19 && Stands(t, b, "-" + s)
    requires b < |t| && NumberEnd(t, b) == Some((b + 1 + |s|, false))
    ensures ParseNumber(t, b, side) == Some((IntegerOf("-" + s, side("-" + s)), b + |s|))
  {
    assert t[b..b + 1 + |s|] == "-" + s;
  }

  lemma {:induction false} MinusEndsAndValue(t: string, b: nat, s: string, side: string -> int)
    requires Numeral(s) && |s| <= 19 && Amount(s) <= -MIN_INT64
    requires side("-" + s) < 0 || (side("-" + s) == 0 && Amount(s) == -MIN_INT64)
    requires Stands(t, b, "-" + s) && NumberStops(t, b + 1 + |s|)
    ensures b < |t| && NumberEnd(t, b) == Some((b + 1 + |s|, false))
    ensures IntegerOf("-" + s, side("-" + s)) == Integer(0 - Amount(s))
  {
    MinusEnds(t, b, s);
    NegativeValue(s, side("-" + s));
  }

  lemma {:induction false} NegativeReads(t: string, b: nat, s: string, side: string -> int)
    requires Numeral(s) && |s| <= 19 && Amount(s) <= -MIN_INT64
    requires side("-" + s) < 0 || (side("-" + s) == 0 && Amount(s) == -MIN_INT64)
    requires Stands(t, b, "-" + s) && NumberStops(t, b + 1 + |s|)
    ensures b < |t| && ParseNumber(t, b, side) == Some((Integer(0 - Amount(s)), b + |s|))
  {
    MinusEndsAndValue(t, b, s, side);
    MinusAt(t, b, s, side);
  }

  lemma {:induction false} PlainReads(t: string, b: nat, s: string, side: string -> int)
    requires Numeral(s) && |s| <= 19 && Amount(s) <= MAX_INT64 && side(s) < 0
    requires Stands(t, b, s) && NumberStops(t, b + |s|)
    ensures b < |t| && ParseNumber(t, b, side) == Some((Integer(Amount(s)), b + |s| - 1))
  {
    PlainEnds(t, b, s);
    PositiveValue(s, side(s));
    NumberAt(t, b, s, side, Integer(Amount(s)));
  }

  lemma {:induction false} Int64Length(n: nat)
    requires n <= -MIN_INT64
    ensures |Decimal(n)| <= 19
  {
    assert Pow10(10) == 10_000_000_000;
    assert Pow10(15) == 1_000_000_000_000_000;
    assert Pow10(19) == 10_000_000_000_000_000_000;
    DecimalLength(n, 19);
  }

  lemma {:induction false} WrittenForm(i: int) returns (s: string)
    requires MIN_INT64 <= i <= MAX_INT64
    ensures Numeral(s) && |s| <= 19 && Amount(s) == (if i < 0 then -i else i)
    ensures Written(i) == if i < 0 then "-" + s else s
  {
    var n := if i < 0 then -i else i;
    s := Decimal(n);
    Int64Length(n);
    DecimalValue(n);
    DecimalIsNumeral(n);
  }

  /** The texts of the limits put the numeral on side `m`. */
  predicate OnSide(i: int, m: int) { m < 0 || (m == 0 && i == MIN_INT64) }

  lemma {:induction false} SideOf(s: string, i: int, w: string)
    requires MIN_INT64 <= i <= MAX_INT64 && Numeral(s) && |s| <= 19 && Amount(s) == (if i < 0 then -i else i)
    requires w == (if i < 0 then "-" + s else s)
    ensures OnSide(i, RangeSide(w))
  {
    if i < 0 {
      MinusSide(s);
    }
  }

  lemma {:induction false} SignedReads(t: string, b: nat, i: int, s: string, w: string, side: string -> int)
    requires MIN_INT64 <= i <= MAX_INT64 && Numeral(s) && |s| <= 19 && Amount(s) == (if i < 0 then -i else i)
    requires w == (if i < 0 then "-" + s else s) && OnSide(i, side(w)) && Stands(t, b, w) && NumberStops(t, b + |w|)
    ensures b < |t| && ParseNumber(t, b, side) == Some((Integer(i), b + |w| - 1))
  {
    if i < 0 {
      NegativeReads(t, b, s, side);
    } else {
      PlainReads(t, b, s, side);
    }
  }

  /** A printed 64-bit integer is read back, the smallest one included. */
  lemma {:induction false} IntegerReads(t: string, b: nat, i: int, w: string)
    requires MIN_INT64 <= i <= MAX_INT64 && w == Written(i) && Stands(t, b, w) && NumberStops(t, b + |w|)
    ensures b < |t| && ParseNumber(t, b, RangeSide) == Some((Integer(i), b + |w| - 1))
  {
    var s := WrittenForm(i);
    SideOf(s, i, w);
    SignedReads(t, b, i, s, w, RangeSide);
  }
}
