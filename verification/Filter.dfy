/** Bloom filters, and the filter block: one filter for the keys of all blocks that start in the same 2 KB. */
module Filter {
  import opened DbFormat

  /** The bit array of a filter, and the number of probes stored in its last byte. */
  datatype Bloom = Bloom(bits: seq<bool>, probes: nat)

  type Hash = h: UserKey -> nat | forall k :: h(k) < WORD witness (k: UserKey) => 0

  /** A 32-bit word rotated right by 17. */
  function Delta(h: nat): (r: nat)
    requires h < WORD
    ensures r < WORD
  {
    h / 0x2_0000 + (h % 0x2_0000) * 0x8000
  }

  /** Rotating by the other 15 gives the word back. */
  lemma {:induction false} DeltaRotates(h: nat)
    requires h < WORD
    ensures Delta(h) / 0x8000 + (Delta(h) % 0x8000) * 0x2_0000 == h
  {
    var hi, lo := h / 0x2_0000, h % 0x2_0000;
    assert Delta(h) == lo * 0x8000 + hi && hi < 0x8000;
  }

  /** The hash before probe `j`: double hashing, in 32-bit arithmetic. */
  function ProbeHash(h: nat, j: nat): (r: nat)
    requires h < WORD
    ensures r < WORD
  {
    if j == 0 then h else (ProbeHash(h, j - 1) + Delta(h)) % WORD
  }

  lemma {:induction false} ProbeIs(h: nat, j: nat)
    requires h < WORD
    ensures ProbeHash(h, j) == (h + j * Delta(h)) % WORD
  {
    if j > 0 {
      ProbeIs(h, j - 1);
      OneMore(h, j, Delta(h), ProbeHash(h, j - 1));
    }
  }

  lemma {:induction false} OneMore(h: nat, j: nat, d: nat, p: nat)
    requires j > 0 && p == (h + (j - 1) * d) % WORD
    ensures (p + d) % WORD == (h + j * d) % WORD
  {
    ModAdd(h + (j - 1) * d, d);
    assert (j - 1) * d + d == j * d;
  }

  lemma {:induction false} ModAdd(x: nat, d: nat)
    ensures (x % WORD + d) % WORD == (x + d) % WORD
  {
    var q := x / WORD;
    assert x + d == x % WORD + d + WORD * q;
    ModShift(x % WORD + d, q);
  }

  lemma {:induction false} ModShift(y: nat, q: nat)
    ensures (y + WORD * q) % WORD == y % WORD
  {
    if q > 0 {
      ModShift(y, q - 1);
      assert y + WORD * q == y + WORD * (q - 1) + WORD;
    }
  }

  function Position(h: nat, j: nat, bits: nat): (r: nat)
    requires h < WORD && bits > 0
    ensures r < bits
  {
    ProbeHash(h, j) % bits
  }

  predicate Probed(f: Bloom, h: nat, j: nat)
    requires h < WORD && |f.bits| > 0
  {
    f.bits[Position(h, j, |f.bits|)]
  }

  /** What a filter says of a key; an unknown number of probes counts as a match. */
  predicate Matches(hash: Hash, f: Bloom, key: UserKey) {
    |f.bits| > 0 && (f.probes > 30 || forall j | 0 <= j < f.probes :: Probed(f, hash(key), j))
  }

  /** Bits only ever go from zero to one. */
  predicate Gains(a: seq<bool>, b: seq<bool>) { |a| == |b| && forall i | 0 <= i < |a| && a[i] :: b[i] }

  lemma {:induction false} GainsKeepsProbe(f: Bloom, g: Bloom, h: nat, j: nat)
    requires h < WORD && |f.bits| > 0 && Gains(f.bits, g.bits) && Probed(f, h, j)
    ensures Probed(g, h, j)
  {
  }

  /** One of the first `k` probes of the hash is bit `i`. */
  ghost predicate ProbesAt(h: nat, k: nat, bits: nat, i: nat)
    requires h < WORD && bits > 0
  {
    exists j: nat :: j < k && Position(h, j, bits) == i
  }

  /** Some key probes the bit. */
  ghost predicate SomeProbe(hash: Hash, keys: seq<UserKey>, k: nat, bits: nat, i: nat)
    requires bits > 0
  {
    exists m :: 0 <= m < |keys| && ProbesAt(hash(keys[m]), k, bits, i)
  }

  method SetProbes(bits: seq<bool>, h: nat, k: nat) returns (r: seq<bool>)
    requires h < WORD && |bits| > 0
    ensures Gains(bits, r) && forall j | 0 <= j < k :: r[Position(h, j, |r|)]
    ensures forall i | 0 <= i < |r| && r[i] && !bits[i] :: ProbesAt(h, k, |r|, i)
  {
    r := bits;
    var x := h;
    var delta := Delta(h);
    for j := 0 to k
      invariant Gains(bits, r) && x == ProbeHash(h, j)
      invariant forall i | 0 <= i < j :: r[Position(h, i, |r|)]
      invariant forall i | 0 <= i < |r| && r[i] && !bits[i] :: ProbesAt(h, j, |r|, i)
    {
      assert Position(h, j, |r|) == x % |r|;
      r := r[x % |r| := true];
      x := (x + delta) % WORD;
    }
  }

  /** No key of the list is missed, and no bit is set that no key probes. */
  method CreateFilter(hash: Hash, bitsPerKey: nat, k: nat, keys: seq<UserKey>) returns (f: Bloom)
    requires 1 <= k <= 30
    ensures |f.bits| >= 64 && f.probes == k && forall x | x in keys :: Matches(hash, f, x)
    ensures |keys| * bitsPerKey <= |f.bits| && (|f.bits| < |keys| * bitsPerKey + 8 || |f.bits| == 64)
            && |f.bits| % 8 == 0
    ensures forall i | 0 <= i < |f.bits| && f.bits[i] :: SomeProbe(hash, keys, k, |f.bits|, i)
  {
    var bits := |keys| * bitsPerKey;
    if bits < 64 {
      bits := 64;
    }
    var bytes := (bits + 7) / 8;
    var a := seq(bytes * 8, _ => false);
    for i := 0 to |keys|
      invariant |a| == bytes * 8
      invariant forall m, j | 0 <= m < i && 0 <= j < k :: Probed(Bloom(a, k), hash(keys[m]), j)
      invariant forall b | 0 <= b < |a| && a[b] :: SomeProbe(hash, keys, k, |a|, b)
    {
      var b := SetProbes(a, hash(keys[i]), k);
      forall m, j | 0 <= m < i && 0 <= j < k ensures Probed(Bloom(b, k), hash(keys[m]), j) {
        GainsKeepsProbe(Bloom(a, k), Bloom(b, k), hash(keys[m]), j);
      }
      a := b;
    }
    f := Bloom(a, k);
  }

  method KeyMayMatch(hash: Hash, f: Bloom, key: UserKey) returns (r: bool)
    ensures r == Matches(hash, f, key)
  {
    if |f.bits| == 0 {
      return false;
    }
    if f.probes > 30 {
      return true;
    }
    var h := hash(key);
    var x, delta := h, Delta(h);
    for j := 0 to f.probes
      invariant x == ProbeHash(h, j) && forall i | 0 <= i < j :: Probed(f, h, i)
    {
      assert x % |f.bits| == Position(h, j, |f.bits|);
      if !f.bits[x % |f.bits|] {
        assert !Probed(f, h, j);
        return false;
      }
      x := (x + delta) % WORD;
    }
    return true;
  }

  // ---- The filter block -------------------------------------------------------------------

  const BASE: nat := 2048

  /** An empty filter is no bytes at all and matches nothing. */
  function EmptyFilter(): Bloom { Bloom([], 0) }

  /** Whether the filter for a block that starts at `offset` lets the key through; a missing filter does. */
  predicate MayMatch(hash: Hash, filters: seq<Bloom>, offset: nat, key: UserKey) {
    offset / BASE < |filters| ==> Matches(hash, filters[offset / BASE], key)
  }

  class FilterBlockBuilder {
    const hash: Hash
    const bitsPerKey: nat
    const probes: nat
    var filters: seq<Bloom>
    var keys: seq<UserKey>

    predicate Valid() { 1 <= probes <= 30 }

    constructor (hash: Hash, bitsPerKey: nat, probes: nat)
      requires 1 <= probes <= 30
      ensures Valid() && filters == [] && keys == [] && this.hash == hash
    {
      this.hash, this.bitsPerKey, this.probes := hash, bitsPerKey, probes;
      filters, keys := [], [];
    }

    /** The key is let through at filter number `n`: now or, if that filter is being collected, once it is made. */
    predicate Covers(n: nat, key: UserKey)
      reads this
    {
      if n < |filters| then Matches(hash, filters[n], key) else n == |filters| && key in keys
    }

    method AddKey(key: UserKey)
      requires Valid()
      modifies `keys
      ensures keys == old(keys) + [key]
      ensures forall n, k | old(Covers(n, k)) :: Covers(n, k)
    {
      keys := keys + [key];
    }

    method GenerateFilter()
      requires Valid()
      modifies this
      ensures |filters| == |old(filters)| + 1 && keys == []
      ensures forall n, k | old(Covers(n, k)) :: Covers(n, k)
    {
      if keys == [] {
        filters := filters + [EmptyFilter()];
        return;
      }
      var f := CreateFilter(hash, bitsPerKey, probes, keys);
      filters, keys := filters + [f], [];
    }

    /** From here on keys belong to a block that starts at `offset`. */
    method StartBlock(offset: nat)
      requires Valid() && offset / BASE >= |filters|
      modifies this
      ensures |filters| == offset / BASE
      ensures forall n, k | old(Covers(n, k)) :: Covers(n, k)
    {
      while offset / BASE > |filters|
        invariant offset / BASE >= |filters| && forall n, k | old(Covers(n, k)) :: Covers(n, k)
      {
        GenerateFilter();
      }
    }

    method Finish()
      requires Valid()
      modifies this
      ensures keys == [] && forall n: nat, k | old(Covers(n, k)) :: n < |filters| && Matches(hash, filters[n], k)
    {
      if keys != [] {
        GenerateFilter();
      }
    }
  }
}
