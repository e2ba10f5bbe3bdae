/** Sequences of varints and length-prefixed strings, as version edits and write batches are made of. */
module Tokens {
  import opened DbFormat
  import opened Coding

  /** Numbers are varints, strings are length-prefixed. */
  datatype Token = Num(n: nat) | Str(s: Bytes)

  function TokenBytes(t: Token): Bytes { if t.Num? then PutVarint(t.n) else PutVarint(|t.s|) + t.s }

  function Parts(ts: seq<Token>): (xs: seq<Bytes>)
    ensures |xs| == |ts|
  {
    seq(|ts|, i requires 0 <= i < |ts| => TokenBytes(ts[i]))
  }

  function TokensBytes(ts: seq<Token>): Bytes { Concat(Parts(ts)) }

  datatype Got<+T> = Got(value: T, next: nat)

  /** A level is a 32-bit number below seven, a number has 64 bits, and a key may not be empty. */
  datatype Kind = Level | Number | Slice | Key

  /** GetLevel, GetVarint64, GetLengthPrefixedSlice and GetInternalKey. */
  function GetToken(b: Bytes, p: nat, k: Kind): (r: Option<Got<Token>>)
    ensures r.Some? ==> p < r.value.next <= |b|
  {
    match (if k.Number? then GetVarint64(b, p, |b|) else GetVarint32(b, p, |b|))
    case None => None
    case Some(x) =>
      if k.Level? && x.value >= NUM_LEVELS then None
      else if k.Level? || k.Number? then Some(Got(Num(x.value), x.next))
      else if x.next + x.value > |b| || (k.Key? && x.value == 0) then None
      else Some(Got(Str(b[x.next..x.next + x.value]), x.next + x.value))
  }

  /** A function that reads one part and, if it succeeds, moves forward within the bytes. */
  type TokenReader = r: (Bytes, nat, Kind) -> Option<Got<Token>>
    | forall b, p: nat, k :: r(b, p, k).Some? ==> p < r(b, p, k).value.next <= |b|
    witness (b: Bytes, p: nat, k: Kind) => None

  /** The parts after those already read, giving up at the first that fails. */
  function GetTokens(get: TokenReader, b: Bytes, p: nat, ks: seq<Kind>, ts: seq<Token>): (r: Option<Got<seq<Token>>>)
    requires p <= |b|
    ensures r.Some? ==> p <= r.value.next <= |b|
    decreases |ks| - |ts|
  {
    if |ts| >= |ks| then Some(Got(ts, p))
    else
      match get(b, p, ks[|ts|])
      case None => None
      case Some(t) => GetTokens(get, b, t.next, ks, ts + [t.value])
  }

  predicate Fits(k: Kind, t: Token) {
    match k
    case Level => t.Num? && t.n < NUM_LEVELS
    case Number => t.Num? && t.n < WORD * WORD
    case Slice => t.Str? && |t.s| < WORD
    case Key => t.Str? && 0 < |t.s| < WORD
  }

  predicate AllFit(ks: seq<Kind>, ts: seq<Token>) { |ks| == |ts| && forall i | 0 <= i < |ks| :: Fits(ks[i], ts[i]) }

  // ---- What is written reads back ----------------------------------------------------------

  lemma {:induction false} TokenReads(b: Bytes, p: nat, k: Kind, t: Token)
    requires Fits(k, t) && At(b, p, TokenBytes(t))
    ensures GetToken(b, p, k) == Some(Got(t, p + |TokenBytes(t)|))
  {
    if k.Number? {
      Varint64Inverse(t.n, b, p, |b|);
    } else if t.Num? {
      Varint32Inverse(t.n, b, p, |b|);
    } else {
      AtConcat(b, p, PutVarint(|t.s|), t.s);
      Varint32Inverse(|t.s|, b, p, |b|);
    }
  }

  /** The reader returns any part of a fitting kind that stands where it reads. */
  ghost predicate ReadsTokens(get: TokenReader) {
    forall b, p: nat, k, t | Fits(k, t) && At(b, p, TokenBytes(t)) :: get(b, p, k) == Some(Got(t, p + |TokenBytes(t)|))
  }

  lemma {:induction false} GetTokenReads()
    ensures ReadsTokens(GetToken)
  {
    forall b, p: nat, k, t | Fits(k, t) && At(b, p, TokenBytes(t))
      ensures GetToken(b, p, k) == Some(Got(t, p + |TokenBytes(t)|))
    {
      TokenReads(b, p, k, t);
    }
  }

  /** If part `i` is read from `ps[i]` and ends at `ps[i + 1]`, all parts are read. */
  lemma {:induction false} ReadOneByOne(get: TokenReader, b: Bytes, ks: seq<Kind>, ts: seq<Token>, ps: seq<nat>, i: nat)
    requires |ks| == |ts| && |ps| == |ts| + 1 && i <= |ts| && ps[i] <= |b|
    requires forall j | 0 <= j < |ts| :: get(b, ps[j], ks[j]) == Some(Got(ts[j], ps[j + 1]))
    ensures GetTokens(get, b, ps[i], ks, ts[..i]) == Some(Got(ts, ps[|ts|]))
    decreases |ts| - i
  {
    if i < |ts| {
      assert ts[..i] + [ts[i]] == ts[..i + 1];
      ReadOneByOne(get, b, ks, ts, ps, i + 1);
    } else {
      assert ts[..i] == ts;
    }
  }

  lemma {:induction false} OneToken(get: TokenReader, b: Bytes, p: nat, k: Kind, t: Token)
    requires ReadsTokens(get) && Fits(k, t) && At(b, p, TokenBytes(t))
    ensures get(b, p, k) == Some(Got(t, p + |TokenBytes(t)|))
  {
  }

  lemma {:induction false} TokenAtPlace(get: TokenReader, b: Bytes, p: nat, ks: seq<Kind>, ts: seq<Token>, j: nat)
    requires ReadsTokens(get) && AllFit(ks, ts) && At(b, p, TokensBytes(ts)) && j < |ts|
    ensures var ps := Places(p, Parts(ts)); get(b, ps[j], ks[j]) == Some(Got(ts[j], ps[j + 1]))
  {
    PartAt(b, p, ts, j);
    OneToken(get, b, Places(p, Parts(ts))[j], ks[j], ts[j]);
  }

  lemma {:induction false} PartAt(b: Bytes, p: nat, ts: seq<Token>, j: nat)
    requires At(b, p, TokensBytes(ts)) && j < |ts|
    ensures var ps := Places(p, Parts(ts)); At(b, ps[j], TokenBytes(ts[j])) && ps[j + 1] == ps[j] + |TokenBytes(ts[j])|
  {
    assert Parts(ts)[..|ts|] == Parts(ts);
    ConcatPlaces(b, p, Parts(ts), |ts|, j);
  }

  lemma {:induction false} TokenPlaces(get: TokenReader, b: Bytes, p: nat, ks: seq<Kind>, ts: seq<Token>)
    returns (ps: seq<nat>)
    requires ReadsTokens(get) && AllFit(ks, ts) && At(b, p, TokensBytes(ts))
    ensures |ps| == |ts| + 1 && ps[0] == p && ps[|ts|] == p + |TokensBytes(ts)|
    ensures forall j | 0 <= j < |ts| :: get(b, ps[j], ks[j]) == Some(Got(ts[j], ps[j + 1]))
  {
    ps := Places(p, Parts(ts));
    PlacesEnds(p, Parts(ts));
    forall j | 0 <= j < |ts| ensures get(b, ps[j], ks[j]) == Some(Got(ts[j], ps[j + 1])) {
      TokenAtPlace(get, b, p, ks, ts, j);
    }
  }

  lemma {:induction false} TokensRead(get: TokenReader, b: Bytes, p: nat, ks: seq<Kind>, ts: seq<Token>)
    requires ReadsTokens(get) && AllFit(ks, ts) && At(b, p, TokensBytes(ts))
    ensures GetTokens(get, b, p, ks, []) == Some(Got(ts, p + |TokensBytes(ts)|))
  {
    var ps := TokenPlaces(get, b, p, ks, ts);
    ReadOneByOne(get, b, ks, ts, ps, 0);
    assert ts[..0] == [];
  }
}
