/** The block format: prefix-compressed entries, then the offsets of the restart points, then their number. */
module BlockFormat {
  import opened DbFormat
  import opened Coding

  /** An entry, with the number of key bytes it takes over from the entry before. */
  datatype Item = Item(key: Bytes, value: Bytes, shared: nat)

  function ItemBytes(e: Item): Bytes
    requires e.shared <= |e.key|
  {
    PutVarint(e.shared) + PutVarint(|e.key| - e.shared) + PutVarint(|e.value|) + e.key[e.shared..] + e.value
  }

  /** Entry `i` takes over only bytes that it has in common with its predecessor. */
  predicate SharesRightly(items: seq<Item>, i: nat)
    requires i < |items|
  {
    && items[i].shared <= |items[i].key|
    && (i == 0 ==> items[i].shared == 0)
    && (i > 0 ==> items[i].shared <= |items[i - 1].key|
                  && items[i].key[..items[i].shared] == items[i - 1].key[..items[i].shared])
  }

  predicate RestartOk(items: seq<Item>, restarts: seq<nat>, j: nat)
    requires j < |restarts|
  {
    && restarts[j] <= |items| && (restarts[j] < |items| ==> items[restarts[j]].shared == 0)
    && (j == 0 ==> restarts[j] == 0)
    && (j > 0 ==> restarts[j - 1] < restarts[j] < |items|)
  }

  /** `restarts` are the indices of entries that share nothing, the first entry among them. */
  ghost predicate Image(items: seq<Item>, restarts: seq<nat>) {
    && (forall i | 0 <= i < |items| :: SharesRightly(items, i))
    && restarts != [] && (forall j | 0 <= j < |restarts| :: RestartOk(items, restarts, j))
  }

  predicate Shares(items: seq<Item>) { forall e | e in items :: e.shared <= |e.key| }

  function Data(items: seq<Item>): Bytes
    requires Shares(items)
  {
    if items == [] then [] else Data(items[..|items| - 1]) + ItemBytes(items[|items| - 1])
  }

  /** Where entry `i` starts. */
  function Offset(items: seq<Item>, i: nat): nat
    requires Shares(items) && i <= |items|
  {
    |Data(items[..i])|
  }

  function Fixed32s(vs: seq<nat>): (r: Bytes)
    ensures |r| == 4 * |vs|
  {
    if vs == [] then [] else Fixed32s(vs[..|vs| - 1]) + Fixed32(vs[|vs| - 1])
  }

  function Offsets(items: seq<Item>, restarts: seq<nat>): (r: seq<nat>)
    requires Shares(items) && forall j | 0 <= j < |restarts| :: restarts[j] <= |items|
    ensures |r| == |restarts|
  {
    seq(|restarts|, j requires 0 <= j < |restarts| => Offset(items, restarts[j]))
  }

  /** The finished block. */
  function BlockBytes(items: seq<Item>, restarts: seq<nat>): Bytes
    requires Shares(items) && forall j | 0 <= j < |restarts| :: restarts[j] <= |items|
  {
    Data(items) + Fixed32s(Offsets(items, restarts)) + Fixed32(|restarts|)
  }

  // ---- Where things are -------------------------------------------------------------------

  lemma {:induction false} DataPrefix(items: seq<Item>, i: nat)
    requires Shares(items) && i <= |items|
    ensures Offset(items, i) <= |Data(items)| && Data(items)[..Offset(items, i)] == Data(items[..i])
  {
    if i < |items| {
      var front := items[..|items| - 1];
      assert front[..i] == items[..i];
      DataPrefix(front, i);
    } else {
      assert items[..i] == items;
    }
  }

  /** Entry `i` occupies the bytes from its offset to the next one's. */
  lemma {:induction false} ItemAt(items: seq<Item>, i: nat)
    requires Shares(items) && i < |items|
    ensures Offset(items, i) + |ItemBytes(items[i])| == Offset(items, i + 1) <= |Data(items)|
    ensures At(Data(items), Offset(items, i), ItemBytes(items[i]))
  {
    DataPrefix(items, i + 1);
    var upto := items[..i + 1];
    assert upto[..i] == items[..i] && upto[i] == items[i];
    assert Data(upto) == Data(items[..i]) + ItemBytes(items[i]);
    var d, a, b := Data(items), Offset(items, i), Offset(items, i + 1);
    assert d[a..b] == d[..b][a..] == ItemBytes(items[i]);
  }

  function HeaderSize(e: Item): (r: nat)
    requires e.shared <= |e.key|
    ensures r >= 3
  {
    |PutVarint(e.shared)| + |PutVarint(|e.key| - e.shared)| + |PutVarint(|e.value|)|
  }

  lemma {:induction false} ItemSize(e: Item)
    requires e.shared <= |e.key|
    ensures |ItemBytes(e)| == HeaderSize(e) + (|e.key| - e.shared) + |e.value|
  {
  }

  lemma {:induction false} NextOffset(items: seq<Item>, i: nat)
    requires Shares(items) && i < |items|
    ensures Offset(items, i) + 3 <= Offset(items, i + 1)
  {
    ItemAt(items, i);
    ItemSize(items[i]);
  }

  lemma {:induction false} OffsetGrows(items: seq<Item>, i: nat, j: nat)
    requires Shares(items) && i <= j <= |items|
    ensures Offset(items, i) + 3 * (j - i) <= Offset(items, j)
    decreases j - i
  {
    if i < j {
      OffsetGrows(items, i, j - 1);
      NextOffset(items, j - 1);
    }
  }

  lemma {:induction false} Fixed32sAt(vs: seq<nat>, j: nat)
    requires j < |vs|
    ensures At(Fixed32s(vs), 4 * j, Fixed32(vs[j]))
  {
    var front := vs[..|vs| - 1];
    if j < |front| {
      Fixed32sAt(front, j);
      assert Fixed32s(vs)[4 * j..4 * j + 4] == Fixed32s(front)[4 * j..4 * j + 4];
    } else {
      assert Fixed32s(vs)[4 * j..4 * j + 4] == Fixed32(vs[j]);
    }
  }

  datatype Decoded = Decoded(shared: nat, nonShared: nat, valueLength: nat, next: nat)

  /** DecodeEntry, with its fast path for three one-byte lengths. */
  function DecodeEntry(b: Bytes, p: nat, limit: nat): (r: Option<Decoded>)
    requires limit <= |b|
  {
    if limit < p + 3 then None
    else
      var h := if b[p] < 128 && b[p + 1] < 128 && b[p + 2] < 128
               then Some(Decoded(b[p], b[p + 1], b[p + 2], p + 3)) else DecodeSlow(b, p, limit);
      if h.None? || limit < h.value.next + h.value.nonShared + h.value.valueLength then None else h
  }

  function DecodeSlow(b: Bytes, p: nat, limit: nat): Option<Decoded>
    requires limit <= |b|
  {
    match GetVarint32(b, p, limit)
    case None => None
    case Some(x) =>
      match GetVarint32(b, x.next, limit)
      case None => None
      case Some(y) =>
        match GetVarint32(b, y.next, limit)
        case None => None
        case Some(z) => Some(Decoded(x.value, y.value, z.value, z.next))
  }

  lemma {:induction false} ThreeParsed(b: Bytes, p: nat, limit: nat, x: Parsed, y: Parsed, z: Parsed)
    requires limit <= |b| && GetVarint32(b, p, limit) == Some(x)
    requires GetVarint32(b, x.next, limit) == Some(y) && GetVarint32(b, y.next, limit) == Some(z)
    ensures DecodeSlow(b, p, limit) == Some(Decoded(x.value, y.value, z.value, z.next))
  {
  }

  lemma {:induction false} ThreeVarints(b: Bytes, p: nat, limit: nat, u: nat, v: nat, w: nat, q: nat, r: nat, n: nat)
    requires u < WORD && v < WORD && w < WORD && n <= limit <= |b|
    requires At(b, p, PutVarint(u)) && q == p + |PutVarint(u)|
    requires At(b, q, PutVarint(v)) && r == q + |PutVarint(v)|
    requires At(b, r, PutVarint(w)) && n == r + |PutVarint(w)|
    ensures DecodeSlow(b, p, limit) == Some(Decoded(u, v, w, n))
  {
    Varint32Inverse(u, b, p, limit);
    Varint32Inverse(v, b, q, limit);
    Varint32Inverse(w, b, r, limit);
    ThreeParsed(b, p, limit, Parsed(u, q), Parsed(v, r), Parsed(w, n));
  }

  lemma {:induction false} SmallVarint(b: Bytes, p: nat, limit: nat)
    requires p < limit <= |b| && b[p] < 128
    ensures GetVarint32(b, p, limit) == Some(Parsed(b[p], p + 1))
  {
  }

  /** The fast path reads what the slow path would. */
  lemma {:induction false} FastIsSlow(b: Bytes, p: nat, limit: nat)
    requires p + 3 <= limit <= |b| && b[p] < 128 && b[p + 1] < 128 && b[p + 2] < 128
    ensures DecodeSlow(b, p, limit) == Some(Decoded(b[p], b[p + 1], b[p + 2], p + 3))
  {
    SmallVarint(b, p, limit);
    SmallVarint(b, p + 1, limit);
    SmallVarint(b, p + 2, limit);
  }

  lemma {:induction false} EitherPath(b: Bytes, p: nat, limit: nat, d: Decoded)
    requires p + 3 <= d.next && d.next + d.nonShared + d.valueLength <= limit <= |b|
             && DecodeSlow(b, p, limit) == Some(d)
    ensures DecodeEntry(b, p, limit) == Some(d)
  {
    if b[p] < 128 && b[p + 1] < 128 && b[p + 2] < 128 {
      FastIsSlow(b, p, limit);
    }
  }

  /** Decoding at `p` yields the lengths of `e`, followed by its key bytes and its value. */
  predicate ReadsAs(b: Bytes, p: nat, limit: nat, e: Item)
    requires limit <= |b| && e.shared <= |e.key|
  {
    var n, m := p + HeaderSize(e), |e.key| - e.shared;
    && DecodeEntry(b, p, limit) == Some(Decoded(e.shared, m, |e.value|, n))
    && At(b, n, e.key[e.shared..]) && At(b, n + m, e.value)
  }

  /** Decoding at the start of an entry gives the entry. */
  lemma {:induction false} EntryDecodes(e: Item, b: Bytes, p: nat, limit: nat)
    requires e.shared <= |e.key| < WORD && |e.value| < WORD && At(b, p, ItemBytes(e))
             && p + |ItemBytes(e)| <= limit <= |b|
    ensures ReadsAs(b, p, limit, e)
  {
    var m, n := |e.key| - e.shared, p + HeaderSize(e);
    EntryLayout(e, b, p);
    ThreeVarints(b, p, limit, e.shared, m, |e.value|, p + |PutVarint(e.shared)|, n - |PutVarint(|e.value|)|, n);
    EitherPath(b, p, limit, Decoded(e.shared, m, |e.value|, n));
  }

  lemma {:induction false} EntryLayout(e: Item, b: Bytes, p: nat)
    requires e.shared <= |e.key| && At(b, p, ItemBytes(e))
    ensures var (n, m) := (p + HeaderSize(e), |e.key| - e.shared);
            && At(b, p, PutVarint(e.shared)) && At(b, p + |PutVarint(e.shared)|, PutVarint(m))
            && At(b, n - |PutVarint(|e.value|)|, PutVarint(|e.value|))
            && At(b, n, e.key[e.shared..]) && At(b, n + m, e.value) && p + |ItemBytes(e)| == n + m + |e.value|
  {
    ItemSize(e);
    FiveParts(b, p, PutVarint(e.shared), PutVarint(|e.key| - e.shared), PutVarint(|e.value|), e.key[e.shared..],
        e.value);
  }

  // ---- Reading a finished block -----------------------------------------------------------

  /** `b` is a block with these entries and restart points, small enough for its 32-bit fields. */
  ghost predicate IsBlock(b: Bytes, items: seq<Item>, restarts: seq<nat>) {
    && Image(items, restarts) && Shares(items) && (forall j | 0 <= j < |restarts| :: restarts[j] <= |items|)
    && b == BlockBytes(items, restarts) && |b| < WORD
  }

  /** What follows in a block of bytes is unaffected by what is appended. */
  lemma {:induction false} AtPrefix(a: Bytes, c: Bytes, p: nat, s: Bytes)
    requires At(a, p, s)
    ensures At(a + c, p, s)
  {
    assert (a + c)[p..p + |s|] == a[p..p + |s|];
  }

  lemma {:induction false} AtSuffix(a: Bytes, c: Bytes, p: nat, s: Bytes)
    requires At(c, p, s)
    ensures At(a + c, |a| + p, s)
  {
    assert (a + c)[|a| + p..|a| + p + |s|] == c[p..p + |s|];
  }

  /** A key is no longer than the bytes up to its end, since each byte was written once. */
  lemma {:induction false} KeyFits(items: seq<Item>, i: nat)
    requires Shares(items) && i < |items| && forall k | 0 <= k < |items| :: SharesRightly(items, k)
    ensures |items[i].key| + |items[i].value| <= Offset(items, i + 1) <= |Data(items)|
  {
    ItemAt(items, i);
    ItemSize(items[i]);
    assert SharesRightly(items, i);
    if i > 0 {
      KeyFits(items, i - 1);
    }
  }

  lemma {:induction false} EntryInBlock(b: Bytes, items: seq<Item>, restarts: seq<nat>, i: nat)
    requires IsBlock(b, items, restarts) && i < |items|
    ensures At(b, Offset(items, i), ItemBytes(items[i])) && |Data(items)| <= |b|
  {
    var d, tail := Data(items), Fixed32s(Offsets(items, restarts)) + Fixed32(|restarts|);
    assert b == d + tail;
    ItemAt(items, i);
    AtPrefix(d, tail, Offset(items, i), ItemBytes(items[i]));
  }

  lemma {:induction false} EntryReads(b: Bytes, items: seq<Item>, i: nat)
    requires Shares(items) && i < |items| && forall k | 0 <= k < |items| :: SharesRightly(items, k)
    requires |Data(items)| <= |b| < WORD && At(b, Offset(items, i), ItemBytes(items[i]))
    ensures ReadsAs(b, Offset(items, i), |Data(items)|, items[i])
    ensures Offset(items, i) + HeaderSize(items[i]) + (|items[i].key| - items[i].shared) + |items[i].value|
            == Offset(items, i + 1) <= |Data(items)|
  {
    ItemAt(items, i);
    ItemSize(items[i]);
    KeyFits(items, i);
    EntryDecodes(items[i], b, Offset(items, i), |Data(items)|);
  }

  lemma {:induction false} BlockEntry(b: Bytes, items: seq<Item>, restarts: seq<nat>, i: nat)
    requires IsBlock(b, items, restarts) && i < |items|
    ensures |Data(items)| <= |b| && ReadsAs(b, Offset(items, i), |Data(items)|, items[i])
    ensures Offset(items, i) + HeaderSize(items[i]) + (|items[i].key| - items[i].shared) + |items[i].value|
            == Offset(items, i + 1) <= |Data(items)|
  {
    EntryInBlock(b, items, restarts, i);
    EntryReads(b, items, i);
  }

  lemma {:induction false} BlockRestart(b: Bytes, items: seq<Item>, restarts: seq<nat>, j: nat)
    requires IsBlock(b, items, restarts) && j < |restarts|
    ensures var p := |Data(items)| + 4 * j; p + 4 <= |b| && DecodeFixed32(b, p) == Offset(items, restarts[j])
  {
    DataPrefix(items, restarts[j]);
    ArrayAt(Data(items), Offsets(items, restarts), Fixed32(|restarts|), j);
  }

  lemma {:induction false} ArrayAt(d: Bytes, vs: seq<nat>, t: Bytes, j: nat)
    requires j < |vs| && vs[j] < WORD
    ensures var b := d + Fixed32s(vs) + t; var p := |d| + 4 * j; p + 4 <= |b| && DecodeFixed32(b, p) == vs[j]
  {
    var f := Fixed32s(vs);
    Fixed32sAt(vs, j);
    AtSuffix(d, f, 4 * j, Fixed32(vs[j]));
    AtPrefix(d + f, t, |d| + 4 * j, Fixed32(vs[j]));
    Fixed32Inverse(vs[j], d + f + t, |d| + 4 * j);
  }

  /** The header fields that Block's constructor reads off the end. */
  lemma {:induction false} BlockTrailer(b: Bytes, items: seq<Item>, restarts: seq<nat>)
    requires IsBlock(b, items, restarts)
    ensures |b| == |Data(items)| + 4 * |restarts| + 4 && DecodeFixed32(b, |b| - 4) == |restarts|
  {
    var d, f, t := Data(items), Fixed32s(Offsets(items, restarts)), Fixed32(|restarts|);
    AtSuffix(d + f, t, 0, t);
    Fixed32Inverse(|restarts|, b, |b| - 4);
  }
}
