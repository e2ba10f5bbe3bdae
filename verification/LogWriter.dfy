/** Writing the log: AddRecord cuts a record at block boundaries and pads the end of a block too short for a header. */
module LogWriter {
  import opened Coding
  import opened Guard
  import opened Log

  lemma {:induction false} AtGrows(a: Bytes, more: Bytes, p: nat, s: Bytes)
    requires At(a, p, s)
    ensures At(a + more, p, s)
  {
    assert (a + more)[p..p + |s|] == a[p..p + |s|];
  }

  /** Padding and one more fragment make a log of one more fragment. */
  lemma {:induction false} PaddedMore(log: Bytes, pad: Bytes, e: Bytes, fs: seq<Fragment>, starts: seq<nat>,
                                      f: Fragment)
    requires |fs| == |starts| && Padded(log, fs, starts) && |log| == End(fs, starts, |fs|)
    requires (forall i | 0 <= i < |fs| :: starts[i] <= |log|) && forall k | 0 <= k < |pad| :: pad[k] == 0
    ensures Padded(log + pad + e, fs + [f], starts + [|log| + |pad|])
  {
    assert Unfolded(0);
    var long, gs, ts := log + pad + e, fs + [f], starts + [|log| + |pad|];
    forall i | 0 <= i < |gs| ensures ZeroBetween(long, End(gs, ts, i), ts[i]) {
      assert End(gs, ts, i) == End(fs, starts, i);
      if i < |fs| {
        assert ZeroBetween(log, End(fs, starts, i), starts[i]);
      }
    }
  }

  lemma {:induction false} FragmentStays(c: Checksum, log: Bytes, more: Bytes, fs: seq<Fragment>, starts: seq<nat>,
                                         f: Fragment, p: nat, i: nat)
    requires |fs| == |starts| && i < |fs| && FragmentAt(c, log, fs, starts, i)
    ensures FragmentAt(c, log + more, fs + [f], starts + [p], i)
  {
    assert End(fs + [f], starts + [p], i) == End(fs, starts, i);
    AtGrows(log, more, starts[i], Encode(c, fs[i]));
  }

  lemma {:induction false} StartsInside(c: Checksum, log: Bytes, fs: seq<Fragment>, starts: seq<nat>)
    requires IsLog(c, log, fs, starts)
    ensures forall i | 0 <= i < |fs| :: starts[i] <= |log|
  {
    forall i | 0 <= i < |fs| ensures starts[i] <= |log| {
      assert FragmentAt(c, log, fs, starts, i);
    }
  }

  lemma {:induction false} FragmentAdded(c: Checksum, log: Bytes, pad: Bytes, fs: seq<Fragment>, starts: seq<nat>,
                                         f: Fragment)
    requires |fs| == |starts| && |log| == End(fs, starts, |fs|) && |log| + |pad| == Skip(|log|) && FULL <= f.kind <= LAST
    requires Skip(|log|) % BLOCK + HEADER + |f.payload| <= BLOCK
    ensures FragmentAt(c, log + pad + Encode(c, f), fs + [f], starts + [Skip(|log|)], |fs|)
  {
    var gs, ts, long := fs + [f], starts + [Skip(|log|)], log + pad + Encode(c, f);
    assert End(gs, ts, |fs|) == End(fs, starts, |fs|);
    assert long[|log| + |pad|..] == Encode(c, f);
  }

  lemma {:induction false} IsLogBy(c: Checksum, log: Bytes, fs: seq<Fragment>, starts: seq<nat>)
    requires |fs| == |starts| && |fs| > 0 && (forall i | 0 <= i < |fs| - 1 :: FragmentAt(c, log, fs, starts, i))
    requires FragmentAt(c, log, fs, starts, |fs| - 1) && |log| == End(fs, starts, |fs|) && Padded(log, fs, starts)
    ensures IsLog(c, log, fs, starts)
  {
    forall i | 0 <= i < |fs| ensures FragmentAt(c, log, fs, starts, i) {
      assert i == |fs| - 1 || i < |fs| - 1;
    }
  }

  lemma {:induction false} AppendFragment(c: Checksum, log: Bytes, fs: seq<Fragment>, starts: seq<nat>, pad: Bytes,
                                          f: Fragment)
    requires IsLog(c, log, fs, starts) && |log| + |pad| == Skip(|log|) && FULL <= f.kind <= LAST
    requires Skip(|log|) % BLOCK + HEADER + |f.payload| <= BLOCK && forall k | 0 <= k < |pad| :: pad[k] == 0
    ensures IsLog(c, log + pad + Encode(c, f), fs + [f], starts + [Skip(|log|)])
  {
    var more, gs, ts := pad + Encode(c, f), fs + [f], starts + [Skip(|log|)];
    var long := log + pad + Encode(c, f);
    assert long == log + more;
    forall i | 0 <= i < |fs| ensures FragmentAt(c, long, gs, ts, i) {
      FragmentStays(c, log, more, fs, starts, f, Skip(|log|), i);
    }
    FragmentAdded(c, log, pad, fs, starts, f);
    StartsInside(c, log, fs, starts);
    PaddedMore(log, pad, Encode(c, f), fs, starts, f);
    IsLogBy(c, long, gs, ts);
  }

  /** The fragments from `a` on carry the first part of a record that does not end there. */
  predicate Begun(fs: seq<Fragment>, a: nat)
    requires a <= |fs|
  {
    forall i | a <= i < |fs| :: fs[i].kind == KindOf(i == a, false)
  }

  lemma {:induction false} EndRecord(fs: seq<Fragment>, a: nat, f: Fragment, record: Bytes)
    requires a <= |fs| && Begun(fs, a) && f.kind == KindOf(|fs| == a, true) && Payloads(fs[a..]) + f.payload == record
    ensures Carries(fs + [f], a, |fs| + 1, record)
  {
    var gs := fs + [f];
    PayloadsStep(gs, a, |fs|);
    assert gs[a..|fs|] == fs[a..];
  }

  lemma {:induction false} ContinueRecord(fs: seq<Fragment>, a: nat, f: Fragment)
    requires a <= |fs|
    ensures Payloads((fs + [f])[a..]) == Payloads(fs[a..]) + f.payload
  {
    var gs := fs + [f];
    PayloadsStep(gs, a, |fs|);
    assert gs[a..|fs|] == fs[a..] && gs[a..|gs|] == gs[a..];
  }

  lemma {:induction false} HoldsMore(fs: seq<Fragment>, gs: seq<Fragment>, cuts: seq<nat>, records: seq<Bytes>,
                                     record: Bytes)
    requires Holds(fs, cuts, records) && fs <= gs && Carries(gs, |fs|, |gs|, record)
    ensures Holds(gs, cuts + [|gs|], records + [record])
  {
    var cs, rs := cuts + [|gs|], records + [record];
    forall r | 0 <= r < |rs| ensures RecordAt(gs, cs, rs, r) {
      if r < |records| {
        assert RecordAt(fs, cuts, records, r);
        assert gs[cuts[r]..cuts[r + 1]] == fs[cuts[r]..cuts[r + 1]];
      }
    }
  }

  /** Where the next header goes, in terms of the writer's block offset. */
  lemma {:induction false} NextHeader(size: nat, blockOffset: nat)
    requires blockOffset <= BLOCK && blockOffset % BLOCK == size % BLOCK
    ensures BLOCK - blockOffset < HEADER ==> Skip(size) == size + (BLOCK - blockOffset) && Skip(size) % BLOCK == 0
    ensures BLOCK - blockOffset >= HEADER ==> Skip(size) == size && size % BLOCK == blockOffset
  {
  }

  /** The padding, the offset of the header in its block, and how much of the record fits behind it. */
  method NextCut(left: nat, blockOffset: nat, ghost size: nat) returns (pad: Bytes, offset: nat, n: nat)
    requires blockOffset <= BLOCK && blockOffset % BLOCK == size % BLOCK
    ensures size + |pad| == Skip(size) && n <= left && offset + HEADER + n <= BLOCK
            && forall k | 0 <= k < |pad| :: pad[k] == 0
    ensures Skip(size) % BLOCK + HEADER + n <= BLOCK
    ensures (offset + HEADER + n) % BLOCK == (Skip(size) + HEADER + n) % BLOCK
    ensures n > 0 || left == 0 || blockOffset == BLOCK - HEADER
    ensures n < left ==> offset + HEADER + n == BLOCK
  {
    var leftover := BLOCK - blockOffset;
    NextHeader(size, blockOffset);
    pad, offset := [], blockOffset;
    if leftover < HEADER {
      pad := seq(leftover, _ => 0);
      offset := 0;
    }
    var avail := BLOCK - offset - HEADER;
    n := if left < avail then left else avail;
  }

  class Writer {
    const c: Checksum
    var dest: Bytes
    var blockOffset: nat
    ghost var fs: seq<Fragment>
    ghost var starts: seq<nat>
    ghost var cuts: seq<nat>
    ghost var records: seq<Bytes>

    ghost predicate Framed()
      reads this
    {
      c.Ok() && IsLog(c, dest, fs, starts) && blockOffset <= BLOCK && blockOffset % BLOCK == |dest| % BLOCK
    }

    ghost predicate Valid()
      reads this
    {
      Framed() && Holds(fs, cuts, records)
    }

    constructor (c: Checksum)
      requires c.Ok()
      ensures Valid() && records == [] && dest == []
    {
      this.c := c;
      dest, blockOffset, fs, starts, cuts, records := [], 0, [], [], [0], [];
    }

    /** Resuming at the end of an existing log. */
    constructor Resume(c: Checksum, dest: Bytes, ghost fs: seq<Fragment>, ghost starts: seq<nat>, ghost cuts: seq<nat>,
                       ghost records: seq<Bytes>)
      requires c.Ok() && IsLog(c, dest, fs, starts) && Holds(fs, cuts, records)
      ensures Valid() && this.dest == dest && this.records == records
    {
      this.c, this.dest, this.blockOffset := c, dest, |dest| % BLOCK;
      this.fs, this.starts, this.cuts, this.records := fs, starts, cuts, records;
    }

    /** Pads if need be and writes a fragment of as much of `left` as fits into the block. */
    method EmitNext(left: Bytes, begin: bool) returns (n: nat)
      requires Framed()
      modifies `dest, `blockOffset, `fs, `starts
      ensures Framed() && n <= |left| && old(dest) <= dest
      ensures fs == old(fs) + [Fragment(KindOf(begin, n == |left|), left[..n])]
      ensures n > 0 || left == [] || old(blockOffset) == BLOCK - HEADER
      ensures n < |left| ==> blockOffset == BLOCK
    {
      var pad, offset;
      pad, offset, n := NextCut(|left|, blockOffset, |dest|);
      var f := Fragment(KindOf(begin, n == |left|), left[..n]);
      AppendFragment(c, dest, fs, starts, pad, f);
      fs, starts := fs + [f], starts + [Skip(|dest|)];
      dest := dest + pad + Encode(c, f);
      blockOffset := offset + HEADER + n;
    }

    /** The loop of AddRecord: fragments that carry the record are added. */
    method EmitFragments(slice: Bytes)
      requires Framed()
      modifies `blockOffset, `dest, `fs, `starts
      ensures Framed() && old(dest) <= dest && old(fs) <= fs && Carries(fs, |old(fs)|, |fs|, slice)
    {
      ghost var a := |fs|;
      var left, begin := slice, true;
      assert fs[a..] == [];
      while true
        invariant Framed() && old(dest) <= dest && old(fs) <= fs && a == |old(fs)|
        invariant Begun(fs, a) && (begin <==> |fs| == a) && Payloads(fs[a..]) + left == slice
        decreases |left|, if blockOffset == BLOCK - HEADER then 1 else 0
      {
        ghost var gs := fs;
        var n := EmitNext(left, begin);
        ghost var f := fs[|gs|];
        assert left == left[..n] + left[n..];
        if n == |left| {
          EndRecord(gs, a, f, slice);
          break;
        }
        ContinueRecord(gs, a, f);
        left, begin := left[n..], false;
      }
    }

    method AddRecord(slice: Bytes)
      requires Valid()
      modifies this
      ensures Valid() && records == old(records) + [slice] && old(dest) <= dest
    {
      EmitFragments(slice);
      HoldsMore(old(fs), fs, cuts, records, slice);
      cuts, records := cuts + [|fs|], records + [slice];
    }

    /** The last fragment of record `k` ends within the first `size` bytes. */
    ghost predicate Survives(k: nat, size: nat)
      reads this
    {
      && k + 1 < |cuts| && |fs| == |starts| && cuts[k + 1] <= |fs|
      && End(fs, starts, cuts[k + 1]) <= size
    }

    lemma {:induction false} CutsRise(j: nat, k: nat)
      requires Holds(fs, cuts, records) && j <= k < |cuts|
      ensures cuts[j] <= cuts[k] <= |fs|
    {
      if k > 0 {
        assert RecordAt(fs, cuts, records, k - 1);
      }
      if j < k {
        CutsRise(j, k - 1);
      }
    }

    lemma {:induction false} LostAfter(n: nat, k: nat, size: nat)
      requires IsLog(c, dest, fs, starts) && Holds(fs, cuts, records) && n <= k < |records| && cuts[n + 1] <= |fs|
      requires End(fs, starts, cuts[n + 1]) > size
      ensures !Survives(k, size)
    {
      CutsRise(n + 1, k + 1);
      EndsGrow(c, dest, fs, starts, cuts[n + 1], cuts[k + 1]);
    }

    /** What was written reads back; of a log cut off anywhere, exactly the records that survive whole. */
    lemma {:induction false} ReadsBack(size: nat)
      requires Valid() && size <= |dest|
      ensures ReadAll(c, dest, Reader(0, 0, false, 0)).1 == records
      ensures ReadAll(c, dest[..size], Reader(0, 0, false, 0)).1 <= records
      ensures forall k | 0 <= k < |records| :: k < |ReadAll(c, dest[..size], Reader(0, 0, false, 0)).1| <==>
                Survives(k, size)
      ensures ReadAll(c, dest[..size], Reader(0, 0, false, 0)).0.reports == 0
    {
      forall k | 0 <= k < |cuts| ensures cuts[k] <= |fs| {
        CutsRise(k, k);
      }
      WholeLogReadsBack(c, dest, fs, starts, cuts, records);
      TruncatedLogReadsBack(c, dest, size, fs, starts, cuts, records);
      var n := Survivors(fs, starts, cuts, size, 0);
      forall k | n <= k < |records| ensures !Survives(k, size) { LostAfter(n, k, size); }
    }
  }
}
