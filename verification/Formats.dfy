/**
 The byte formats said byte by byte, for numbers and lengths that take one byte: what stands where on
 disk, apart from how it is written and read.
 */
module Formats {
  import opened DbFormat
  import opened Coding
  import opened Tokens
  import BF = BlockFormat
  import WB = WriteBatch
  import VE = VersionEdit
  import Log

  predicate Short(n: nat) { n < 128 }

  predicate ShortBytes(s: Bytes) { |s| < 128 }

  lemma {:induction false} VarintOfTwo(v: nat)
    requires 128 <= v < 16384
    ensures PutVarint(v) == [v % 128 + 128, v / 128]
  {
    assert PutVarint(v / 128) == [v / 128];
  }

  lemma {:induction false} FixedOfFour(v: nat)
    requires v < WORD
    ensures PutFixed(v, 4) == [v % 256, v / 256 % 256, v / 256 / 256 % 256, v / 256 / 256 / 256 % 256]
  {
    var a, b, c := v / 256, v / 256 / 256, v / 256 / 256 / 256;
    assert PutFixed(c, 1) == [c % 256] + PutFixed(c / 256, 0);
    assert PutFixed(b, 2) == [b % 256] + PutFixed(c, 1);
    assert PutFixed(a, 3) == [a % 256] + PutFixed(b, 2);
  }

  // ---- Blocks and the log -----------------------------------------------------------------

  /** An entry of a block: shared, unshared and value length, the rest of the key, the value. */
  lemma {:induction false} EntryLayout(e: BF.Item)
    requires e.shared <= |e.key| && ShortBytes(e.key) && ShortBytes(e.value)
    ensures BF.ItemBytes(e) == [e.shared, |e.key| - e.shared, |e.value|] + e.key[e.shared..] + e.value
  {
    assert PutVarint(e.shared) + PutVarint(|e.key| - e.shared) + PutVarint(|e.value|) ==
           [e.shared, |e.key| - e.shared, |e.value|];
  }

  /** A fragment of the log: checksum of type and payload, length in two bytes, type, payload. */
  lemma {:induction false} FragmentLayout(c: Log.Checksum, f: Log.Fragment)
    requires |f.payload| < 65536
    ensures Log.Encode(c, f) == PutFixed(c.mask(c.crc([f.kind] + f.payload)), 4) +
            [|f.payload| % 256, |f.payload| / 256, f.kind] + f.payload
  {
    var n := |f.payload|;
    assert PutFixed(n / 256, 1) == [n / 256] + PutFixed(n / 256 / 256, 0);
    assert PutFixed(n, 2) == [n % 256, n / 256];
    assert PutFixed(n, 2) + [f.kind] == [n % 256, n / 256, f.kind];
  }

  // ---- Batches ----------------------------------------------------------------------------

  lemma {:induction false} ConcatOne(x: Bytes)
    ensures Concat([x]) == x
  {
    assert [x][..0] == [];
  }

  lemma {:induction false} ConcatNext(xs: seq<Bytes>, x: Bytes)
    ensures Concat(xs + [x]) == Concat(xs) + x
  {
    assert (xs + [x])[..|xs|] == xs;
  }

  lemma {:induction false} TokenNext(ts: seq<Token>, t: Token)
    ensures TokensBytes(ts + [t]) == TokensBytes(ts) + TokenBytes(t)
  {
    assert Parts(ts + [t]) == Parts(ts) + [TokenBytes(t)];
    ConcatNext(Parts(ts), TokenBytes(t));
  }

  lemma {:induction false} OneToken(t: Token)
    ensures TokensBytes([t]) == TokenBytes(t)
  {
    assert Parts([t]) == [TokenBytes(t)];
    ConcatOne(TokenBytes(t));
  }

  lemma {:induction false} TwoTokens(t: Token, u: Token)
    ensures TokensBytes([t, u]) == TokenBytes(t) + TokenBytes(u)
  {
    OneToken(t);
    TokenNext([t], u);
    assert [t] + [u] == [t, u];
  }

  /** A put: one, the key with its length, the value with its length. */
  lemma {:induction false} PutLayout(k: Bytes, v: Bytes)
    requires ShortBytes(k) && ShortBytes(v)
    ensures WB.OpBytes(WB.PutOp(k, v)) == [1, |k|] + k + [|v|] + v
  {
    TwoTokens(Str(k), Str(v));
    assert [1] + ([|k|] + k + ([|v|] + v)) == [1, |k|] + k + [|v|] + v;
  }

  /** A deletion: zero and the key with its length. */
  lemma {:induction false} DeleteLayout(k: Bytes)
    requires ShortBytes(k)
    ensures WB.OpBytes(WB.DeleteOp(k)) == [0, |k|] + k
  {
    OneToken(Str(k));
    assert [0] + ([|k|] + k) == [0, |k|] + k;
  }

  /** A batch: the sequence number in eight bytes, the count in four, low bytes first, then the operations. */
  lemma {:induction false} BatchLayout(rep: Bytes, s: nat, ops: seq<WB.BatchOp>)
    requires WB.Holds(rep, s, ops)
    ensures rep == PutFixed(s, 8) + PutFixed(|ops|, 4) + Concat(seq(|ops|, i requires 0 <= i < |ops| => WB.OpBytes(ops[i])))
  {
    assert WB.OpsParts(ops) == seq(|ops|, i requires 0 <= i < |ops| => WB.OpBytes(ops[i]));
  }

  // ---- Version edits ----------------------------------------------------------------------

  lemma {:induction false} NumberField(f: VE.Field)
    requires (f.LogNumber? || f.PrevLogNumber? || f.NextFile? || f.LastSequence?) && Short(f.n)
    ensures VE.FieldBytes(f) == [if f.LogNumber? then 2 else if f.NextFile? then 3 else if f.LastSequence? then 4 else 9, f.n]
  {
    OneToken(Num(f.n));
  }

  lemma {:induction false} ComparatorField(name: Bytes)
    requires ShortBytes(name)
    ensures VE.FieldBytes(VE.Comparator(name)) == [1, |name|] + name
  {
    OneToken(Str(name));
    assert [1] + ([|name|] + name) == [1, |name|] + name;
  }

  lemma {:induction false} PointerField(level: nat, key: Bytes)
    requires Short(level) && ShortBytes(key)
    ensures VE.FieldBytes(VE.Pointer(level, key)) == [5, level, |key|] + key
  {
    TwoTokens(Num(level), Str(key));
    assert [5] + ([level] + ([|key|] + key)) == [5, level, |key|] + key;
  }

  lemma {:induction false} DeletedField(level: nat, n: nat)
    requires Short(level) && Short(n)
    ensures VE.FieldBytes(VE.Deleted(level, n)) == [6, level, n]
  {
    TwoTokens(Num(level), Num(n));
  }

  lemma {:induction false} NewFileField(level: nat, m: VE.Meta)
    requires Short(level) && Short(m.number) && Short(m.size) && ShortBytes(m.smallest) && ShortBytes(m.largest)
    ensures VE.FieldBytes(VE.NewFile(level, m)) ==
            [7, level, m.number, m.size, |m.smallest|] + m.smallest + [|m.largest|] + m.largest
  {
    var a, b, c, d, e := Num(level), Num(m.number), Num(m.size), Str(m.smallest), Str(m.largest);
    TwoTokens(a, b);
    TokenNext([a, b], c);
    assert [a, b] + [c] == [a, b, c];
    TokenNext([a, b, c], d);
    assert [a, b, c] + [d] == [a, b, c, d];
    TokenNext([a, b, c, d], e);
    assert [a, b, c, d] + [e] == [a, b, c, d, e];
    var s, l := [|m.smallest|] + m.smallest, [|m.largest|] + m.largest;
    assert TokensBytes([a, b, c, d, e]) == [level] + [m.number] + [m.size] + s + l;
    assert [7] + ([level] + [m.number] + [m.size] + s + l) ==
           [7, level, m.number, m.size, |m.smallest|] + m.smallest + [|m.largest|] + m.largest;
  }
}
