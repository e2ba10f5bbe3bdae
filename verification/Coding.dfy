/** Byte strings, varints and little-endian fixed-width integers. */
module Coding {
  import opened DbFormat

  type Byte = x: nat | x < 256

  type Bytes = seq<Byte>

  /** `s` stands at position `p` of `b`. */
  predicate At(b: Bytes, p: nat, s: Bytes) { p + |s| <= |b| && b[p..p + |s|] == s }

  lemma {:induction false} AtConcat(b: Bytes, p: nat, s: Bytes, t: Bytes)
    ensures At(b, p, s + t) <==> At(b, p, s) && At(b, p + |s|, t)
  {
    if At(b, p, s + t) {
      assert b[p..p + |s|] == b[p..p + |s + t|][..|s|];
      assert b[p + |s|..p + |s| + |t|] == b[p..p + |s + t|][|s|..];
    }
    if At(b, p, s) && At(b, p + |s|, t) {
      assert b[p..p + |s + t|] == b[p..p + |s|] + b[p + |s|..p + |s| + |t|];
    }
  }

  lemma {:induction false} FiveParts(b: Bytes, p: nat, x: Bytes, y: Bytes, z: Bytes, k: Bytes, v: Bytes)
    requires At(b, p, x + y + z + k + v)
    ensures At(b, p, x) && At(b, p + |x|, y) && At(b, p + |x| + |y|, z)
    ensures At(b, p + |x| + |y| + |z|, k) && At(b, p + |x| + |y| + |z| + |k|, v)
  {
    AtConcat(b, p, x + y + z + k, v);
    AtConcat(b, p, x + y + z, k);
    AtConcat(b, p, x + y, z);
    AtConcat(b, p, x, y);
  }

  function Concat(xs: seq<Bytes>): Bytes {
    if xs == [] then [] else Concat(xs[..|xs| - 1]) + xs[|xs| - 1]
  }

  /** Where each of the strings starts, and where the last one ends, if they are laid out from `p` on. */
  function Places(p: nat, xs: seq<Bytes>): (ps: seq<nat>)
    ensures |ps| == |xs| + 1
  {
    seq(|xs| + 1, i requires 0 <= i <= |xs| => p + |Concat(xs[..i])|)
  }

  lemma {:induction false} PlacesEnds(p: nat, xs: seq<Bytes>)
    ensures Places(p, xs)[0] == p && Places(p, xs)[|xs|] == p + |Concat(xs)|
  {
    assert xs[..0] == [] && xs[..|xs|] == xs;
  }

  lemma {:induction false} ConcatStep(xs: seq<Bytes>, i: nat)
    requires i < |xs|
    ensures Concat(xs[..i + 1]) == Concat(xs[..i]) + xs[i]
  {
    assert xs[..i + 1][..i] == xs[..i];
  }

  lemma {:induction false} ConcatAppend(xs: seq<Bytes>, ys: seq<Bytes>)
    ensures Concat(xs + ys) == Concat(xs) + Concat(ys)
    decreases |ys|
  {
    if ys == [] {
      assert xs + ys == xs;
    } else {
      var n := |ys| - 1;
      ConcatAppend(xs, ys[..n]);
      assert (xs + ys)[..|xs + ys| - 1] == xs + ys[..n] && (xs + ys)[|xs + ys| - 1] == ys[n];
    }
  }

  /** Each string stands at its place. */
  lemma {:induction false} ConcatPlaces(b: Bytes, p: nat, xs: seq<Bytes>, n: nat, j: nat)
    requires j < n <= |xs| && At(b, p, Concat(xs[..n]))
    ensures At(b, Places(p, xs)[j], xs[j]) && Places(p, xs)[j + 1] == Places(p, xs)[j] + |xs[j]|
    decreases n
  {
    ConcatStep(xs, n - 1);
    AtConcat(b, p, Concat(xs[..n - 1]), xs[n - 1]);
    if j < n - 1 {
      ConcatPlaces(b, p, xs, n - 1, j);
    }
  }

  /** Seven bits a byte, low bits first, the top bit set on every byte but the last. */
  function PutVarint(v: nat): (r: Bytes)
    ensures |r| >= 1 && (v < 128 ==> r == [v])
  {
    if v < 128 then [v] else [v % 128 + 128] + PutVarint(v / 128)
  }

  datatype Parsed = Parsed(value: nat, next: nat)

  function Wrap(x: nat, modulus: nat): (r: nat)
    requires modulus >= 1
    ensures r < modulus && (x < modulus ==> r == x)
  {
    if x < modulus then x else x % modulus
  }

  function Power128(k: nat): nat { if k == 0 then 1 else 128 * Power128(k - 1) }

  /** Reads a varint from `b[p..limit]`, giving up after `room` more bytes. The value is kept below `modulus`. */
  function GetVarint(b: Bytes, p: nat, limit: nat, room: nat, modulus: nat): (r: Option<Parsed>)
    requires limit <= |b| && modulus >= 1
    ensures r.Some? ==> p < r.value.next <= limit && r.value.value < modulus
    decreases limit - p
  {
    if room == 0 || p >= limit then None
    else if b[p] < 128 then Some(Parsed(Wrap(b[p], modulus), p + 1))
    else
      match GetVarint(b, p + 1, limit, room - 1, modulus)
      case None => None
      case Some(x) => Some(Parsed(Wrap(b[p] as nat - 128 + 128 * x.value, modulus), x.next))
  }

  /** GetVarint32Ptr: at most five bytes, the value truncated to 32 bits. */
  function GetVarint32(b: Bytes, p: nat, limit: nat): (r: Option<Parsed>)
    requires limit <= |b|
    ensures r.Some? ==> p < r.value.next <= limit && r.value.value < WORD
  {
    GetVarint(b, p, limit, 5, WORD)
  }

  /** GetVarint64Ptr: at most ten bytes, the value truncated to 64 bits. */
  function GetVarint64(b: Bytes, p: nat, limit: nat): (r: Option<Parsed>)
    requires limit <= |b|
    ensures r.Some? ==> p < r.value.next <= limit && r.value.value < WORD * WORD
  {
    GetVarint(b, p, limit, 10, WORD * WORD)
  }

  lemma {:induction false} VarintInverse(v: nat, b: Bytes, p: nat, limit: nat, room: nat, modulus: nat)
    requires v < modulus && v < Power128(room) && room >= 1
    requires At(b, p, PutVarint(v)) && p + |PutVarint(v)| <= limit <= |b|
    ensures GetVarint(b, p, limit, room, modulus) == Some(Parsed(v, p + |PutVarint(v)|))
    decreases room
  {
    if v < 128 {
      AtByte(b, p, v);
    } else {
      AtConcat(b, p, [v % 128 + 128], PutVarint(v / 128));
      AtByte(b, p, v % 128 + 128);
      VarintInverse(v / 128, b, p + 1, limit, room - 1, modulus);
      VarintStep(b, p, limit, room, modulus, v);
    }
  }

  lemma {:induction false} AtByte(b: Bytes, p: nat, c: Byte)
    requires At(b, p, [c])
    ensures b[p] == c
  {
    assert b[p] == b[p..p + 1][0];
  }

  lemma {:induction false} VarintStep(b: Bytes, p: nat, limit: nat, room: nat, modulus: nat, v: nat)
    requires v < modulus && room >= 1 && p < limit <= |b| && b[p] == v % 128 + 128
    requires var r := GetVarint(b, p + 1, limit, room - 1, modulus); r.Some? && r.value.value == v / 128
    ensures GetVarint(b, p, limit, room, modulus) ==
              Some(Parsed(v, GetVarint(b, p + 1, limit, room - 1, modulus).value.next))
  {
  }

  lemma {:induction false} Varint32Inverse(v: nat, b: Bytes, p: nat, limit: nat)
    requires v < WORD
    requires At(b, p, PutVarint(v)) && p + |PutVarint(v)| <= limit <= |b|
    ensures GetVarint32(b, p, limit) == Some(Parsed(v, p + |PutVarint(v)|))
  {
    assert Power128(5) == 128 * 128 * 128 * 128 * 128;
    VarintInverse(v, b, p, limit, 5, WORD);
  }

  lemma {:induction false} Varint64Inverse(v: nat, b: Bytes, p: nat, limit: nat)
    requires v < WORD * WORD && At(b, p, PutVarint(v)) && p + |PutVarint(v)| <= limit <= |b|
    ensures GetVarint64(b, p, limit) == Some(Parsed(v, p + |PutVarint(v)|))
  {
    assert Power128(10) == 128 * 128 * 128 * 128 * 128 * 128 * 128 * 128 * 128 * 128;
    VarintInverse(v, b, p, limit, 10, WORD * WORD);
  }

  /** `n` bytes, low byte first. */
  function PutFixed(v: nat, n: nat): (r: Bytes)
    ensures |r| == n
  {
    if n == 0 then [] else [v % 256] + PutFixed(v / 256, n - 1)
  }

  function GetFixed(b: Bytes, p: nat, n: nat): nat
    requires p + n <= |b|
    decreases |b| - p
  {
    if n == 0 then 0 else b[p] as nat + 256 * GetFixed(b, p + 1, n - 1)
  }

  function Power256(k: nat): nat { if k == 0 then 1 else 256 * Power256(k - 1) }

  lemma {:induction false} FixedInverse(v: nat, n: nat, b: Bytes, p: nat)
    requires v < Power256(n) && At(b, p, PutFixed(v, n))
    ensures GetFixed(b, p, n) == v
    decreases n
  {
    if n > 0 {
      assert b[p] == b[p..p + n][0];
      assert b[p + 1..p + n] == b[p..p + n][1..];
      FixedInverse(v / 256, n - 1, b, p + 1);
    }
  }

  function Fixed32(v: nat): Bytes { PutFixed(v, 4) }

  function DecodeFixed32(b: Bytes, p: nat): nat
    requires p + 4 <= |b|
  {
    GetFixed(b, p, 4)
  }

  lemma {:induction false} Fixed32Inverse(v: nat, b: Bytes, p: nat)
    requires v < WORD && At(b, p, Fixed32(v))
    ensures DecodeFixed32(b, p) == v
  {
    assert Power256(4) == WORD;
    FixedInverse(v, 4, b, p);
  }
}
