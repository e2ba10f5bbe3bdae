/** Building a table: entries in order, blocks cut at will, index entries delayed until the next key is known. */
module TableBuilder {
  import opened DbFormat
  import opened Filter
  import opened Table
  import opened TwoLevel

  function First(b: seq<Entry>): IKey
    requires b != []
  {
    b[0].IK()
  }

  function Last(b: seq<Entry>): IKey
    requires b != []
  {
    b[|b| - 1].IK()
  }

  /** A separator for a block that ends with `last` where the next one begins with `first`. */
  predicate Between(b: IKey, last: IKey, first: IKey) {
    !Less(b, last) && Less(b, first) && (b == last || b.user < first.user)
  }

  predicate BoundOk(bounds: seq<IKey>, blocks: Blocks, i: nat)
    requires i < |bounds| && i < |blocks|
  {
    blocks[i] != [] &&
    if i + 1 < |blocks| then blocks[i + 1] != [] && Between(bounds[i], Last(blocks[i]), First(blocks[i + 1]))
    else !Less(bounds[i], Last(blocks[i]))
  }

  /** Entries of one block, or of an earlier and a later one, are in order. */
  lemma {:induction false} InOrder(blocks: Blocks, i: nat, p: nat, j: nat, q: nat)
    requires Sorted(Flatten(blocks)) && i < |blocks| && p < |blocks[i]| && j < |blocks| && q < |blocks[j]|
    requires i < j || (i == j && p < q)
    ensures Less(blocks[i][p].IK(), blocks[j][q].IK())
  {
    ConcatAt(blocks, i, p);
    ConcatAt(blocks, j, q);
    if i < j {
      StartGrows(blocks, i + 1, j);
    }
  }

  lemma {:induction false} BoundSeparates(bounds: seq<IKey>, blocks: Blocks, i: nat, j: nat, q: nat)
    requires Sorted(Flatten(blocks)) && |bounds| == |blocks|
             && forall k | 0 <= k < |blocks| :: BoundOk(bounds, blocks, k)
    requires i < |blocks| && j < |blocks| && q < |blocks[j]|
    ensures j <= i ==> !Less(bounds[i], blocks[j][q].IK())
    ensures i < j ==> Less(bounds[i], blocks[j][q].IK()) && blocks[i] != []
                      && (bounds[i] == Last(blocks[i]) || bounds[i].user < blocks[j][q].key)
  {
    assert BoundOk(bounds, blocks, i);
    if j <= i {
      if !(j == i && q == |blocks[i]| - 1) {
        InOrder(blocks, j, q, i, |blocks[i]| - 1);
      }
    } else if !(j == i + 1 && q == 0) {
      InOrder(blocks, i + 1, 0, j, q);
    }
  }

  lemma {:induction false} BoundsSeparate(bounds: seq<IKey>, blocks: Blocks)
    requires Sorted(Flatten(blocks)) && |bounds| == |blocks|
             && forall i | 0 <= i < |blocks| :: BoundOk(bounds, blocks, i)
    ensures Separated(bounds, blocks) && forall i | 0 <= i < |blocks| :: Tight(bounds, blocks, i)
  {
    forall b: seq<Entry> | b in blocks ensures Sorted(b) {
      var i :| 0 <= i < |blocks| && blocks[i] == b;
      forall p, q | 0 <= p < q < |b| ensures Less(b[p].IK(), b[q].IK()) {
        InOrder(blocks, i, p, i, q);
      }
    }
    forall i, q | 0 <= i < |blocks| && 0 <= q < |blocks[i]| ensures !Less(bounds[i], blocks[i][q].IK()) {
      BoundSeparates(bounds, blocks, i, i, q);
    }
    forall i, j, q | 0 <= i < j < |blocks| && 0 <= q < |blocks[j]| ensures Less(bounds[i], blocks[j][q].IK()) {
      BoundSeparates(bounds, blocks, i, j, q);
    }
    forall i | 0 <= i < |blocks| ensures Tight(bounds, blocks, i) {
      assert BoundOk(bounds, blocks, i);
      forall j, q | i < j < |blocks| && 0 <= q < |blocks[j]| && bounds[i] != Last(blocks[i])
        ensures bounds[i].user < blocks[j][q].key
      {
        BoundSeparates(bounds, blocks, i, j, q);
      }
    }
  }

  // ---- The builder --------------------------------------------------------------------------

  /** The blocks written and the one in hand, if it holds anything. */
  function Chain(blocks: Blocks, hand: seq<Entry>): Blocks { if hand == [] then blocks else blocks + [hand] }

  lemma {:induction false} ChainConcat(blocks: Blocks, hand: seq<Entry>)
    ensures Flatten(Chain(blocks, hand)) == Flatten(blocks) + hand
  {
    if hand != [] {
      assert (blocks + [hand])[..|blocks|] == blocks;
    }
  }

  predicate IndexOk(index: seq<IndexEntry>, chain: Blocks, starts: seq<nat>, i: nat)
    requires i < |index| && i < |chain| && i < |starts|
  {
    && i + 1 < |chain| && chain[i] != [] && chain[i + 1] != []
    && Between(index[i].bound, Last(chain[i]), First(chain[i + 1])) && index[i].offset == starts[i]
  }

  /** What has been written, what is in hand, and the index so far; block `i` starts at `starts[i]`. */
  datatype Progress = Progress(blocks: Blocks, hand: seq<Entry>, index: seq<IndexEntry>, pending: bool,
                               starts: seq<nat>, offset: nat)

  ghost predicate Sound(w: Progress) {
    && Sorted(Flatten(w.blocks) + w.hand)
    && (forall i | 0 <= i < |w.blocks| :: w.blocks[i] != [])
    && |w.starts| == |w.blocks| && |w.index| + (if w.pending then 1 else 0) == |w.blocks|
    && (w.pending ==> w.hand == []) && (!w.pending && w.blocks != [] ==> w.hand != [])
    && (forall i | 0 <= i < |w.index| :: IndexOk(w.index, Chain(w.blocks, w.hand), w.starts, i))
    && (forall i, j | 0 <= i < j < |w.starts| :: w.starts[i] < w.starts[j])
    && (forall i | 0 <= i < |w.starts| :: w.starts[i] < w.offset)
  }

  function LastKey(w: Progress): Option<IKey> {
    if w.hand != [] then Some(Last(w.hand))
    else if w.blocks != [] && w.blocks[|w.blocks| - 1] != [] then Some(Last(w.blocks[|w.blocks| - 1]))
    else None
  }

  /** The delayed index entry and the new key. */
  function Appended(h: Shortening, w: Progress, e: Entry): Progress {
    var i := if w.pending && w.blocks != [] && w.blocks[|w.blocks| - 1] != [] && |w.starts| == |w.blocks|
             then [IndexEntry(FindShortestSeparator(h, Last(w.blocks[|w.blocks| - 1]), e.IK()),
                 w.starts[|w.starts| - 1])]
             else [];
    w.(index := w.index + i, pending := false, hand := w.hand + [e])
  }

  function Flushed(w: Progress, size: nat): Progress {
    if w.hand == [] then w
    else w.(blocks := w.blocks + [w.hand], hand := [], pending := true, starts := w.starts + [w.offset],
            offset := w.offset + size)
  }

  lemma {:induction false} AppendSorted(all: seq<Entry>, e: Entry)
    requires Sorted(all) && (all != [] ==> Less(Last(all), e.IK()))
    ensures Sorted(all + [e])
  {
    forall i, j | 0 <= i < j < |all + [e]| ensures Less((all + [e])[i].IK(), (all + [e])[j].IK()) {
      assert i < |all| - 1 ==> Less(all[i].IK(), all[|all| - 1].IK());
    }
  }

  lemma {:induction false} LastOfConcat(blocks: Blocks)
    requires blocks != [] && blocks[|blocks| - 1] != []
    ensures Flatten(blocks) != [] && Last(Flatten(blocks)) == Last(blocks[|blocks| - 1])
  {
  }

  lemma {:induction false} AppendSound(h: Shortening, w: Progress, e: Entry)
    requires h.Ok() && Sound(w) && (LastKey(w).Some? ==> Less(LastKey(w).value, e.IK()))
    ensures Sound(Appended(h, w, e))
  {
    var r := Appended(h, w, e);
    var all := Flatten(w.blocks) + w.hand;
    if w.blocks != [] && w.hand == [] {
      LastOfConcat(w.blocks);
      assert w.pending;
      SeparatorIsTight(h, Last(w.blocks[|w.blocks| - 1]), e.IK());
    }
    AppendSorted(all, e);
    assert all + [e] == Flatten(r.blocks) + r.hand;
    forall i | 0 <= i < |r.index| ensures IndexOk(r.index, Chain(r.blocks, r.hand), r.starts, i) {
      assert i < |w.index| ==> IndexOk(w.index, Chain(w.blocks, w.hand), w.starts, i);
    }
  }

  lemma {:induction false} FlushSound(w: Progress, size: nat)
    requires Sound(w) && size >= 1
    ensures Sound(Flushed(w, size))
  {
    var r := Flushed(w, size);
    if w.hand != [] {
      ChainConcat(w.blocks, w.hand);
      assert Flatten(r.blocks) + r.hand == Flatten(w.blocks) + w.hand;
      forall i | 0 <= i < |r.index| ensures IndexOk(r.index, Chain(r.blocks, r.hand), r.starts, i) {
        assert IndexOk(w.index, Chain(w.blocks, w.hand), w.starts, i);
      }
    }
  }

  /** The index of a finished table: the last block gets a short successor of its last key. */
  function FinalIndex(h: Shortening, w: Progress): seq<IndexEntry> {
    if w.pending && w.blocks != [] && w.blocks[|w.blocks| - 1] != [] && |w.starts| == |w.blocks|
    then w.index + [IndexEntry(FindShortSuccessor(h, Last(w.blocks[|w.blocks| - 1])), w.starts[|w.starts| - 1])]
    else w.index
  }

  lemma {:induction false} FinalIndexOk(h: Shortening, w: Progress)
    requires h.Ok() && Sound(w) && w.hand == []
    ensures var index := FinalIndex(h, w);
            && |index| == |w.blocks| && Separated(Bounds(index), w.blocks)
            && (forall i | 0 <= i < |w.blocks| :: Tight(Bounds(index), w.blocks, i) && index[i].offset == w.starts[i])
  {
    var index := FinalIndex(h, w);
    if w.blocks != [] {
      SuccessorIsAbove(h, Last(w.blocks[|w.blocks| - 1]));
    }
    assert Flatten(w.blocks) + w.hand == Flatten(w.blocks);
    forall i | 0 <= i < |w.blocks| ensures BoundOk(Bounds(index), w.blocks, i) && index[i].offset == w.starts[i] {
      assert i < |w.index| ==> IndexOk(w.index, Chain(w.blocks, w.hand), w.starts, i);
    }
    BoundsSeparate(Bounds(index), w.blocks);
  }

  lemma {:induction false} AppendedAll(h: Shortening, w: Progress, e: Entry)
    ensures var r := Appended(h, w, e);
            r.blocks == w.blocks && r.hand == w.hand + [e] && Flatten(r.blocks) + r.hand == Flatten(w.blocks) + w.hand + [e]
  {
    assert Flatten(w.blocks) + (w.hand + [e]) == Flatten(w.blocks) + w.hand + [e];
  }

  class TableBuilder {
    const h: Shortening
    const hash: Hash
    const size: seq<Entry> -> nat       // the bytes a block takes up in the file
    const full: seq<Entry> -> bool      // whether the block in hand has reached the block size
    const filter: FilterBlockBuilder?
    var w: Progress

    ghost predicate Valid()
      reads this, filter
    {
      && h.Ok() && (forall b :: size(b) >= 1) && Sound(w)
      && (filter != null ==>
            filter.Valid() && filter.hash == hash && |filter.filters| == w.offset / BASE && Collected())
    }

    /** Every key is in the filter for the start of its block. */
    ghost predicate Collected()
      reads this, filter
      requires filter != null
    {
      && (forall i, e | 0 <= i < |w.blocks| && i < |w.starts| && e in w.blocks[i] ::
            filter.Covers(w.starts[i] / BASE, e.key))
      && (forall e | e in w.hand :: filter.Covers(w.offset / BASE, e.key))
    }

    ghost function All(): seq<Entry>
      reads this
    {
      Flatten(w.blocks) + w.hand
    }

    constructor (h: Shortening, hash: Hash, size: seq<Entry> -> nat, full: seq<Entry> -> bool,
                 filter: FilterBlockBuilder?)
      requires h.Ok() && forall b :: size(b) >= 1
      requires filter != null ==> filter.Valid() && filter.hash == hash && filter.filters == []
      ensures Valid() && All() == [] && this.hash == hash && this.filter == filter
    {
      this.h, this.hash, this.size, this.full, this.filter := h, hash, size, full, filter;
      w := Progress([], [], [], false, [], 0);
    }

    method Add(e: Entry)
      requires Valid() && (LastKey(w).Some? ==> Less(LastKey(w).value, e.IK()))
      modifies this, filter
      ensures Valid() && All() == old(All()) + [e]
      ensures var b := old(w).hand + [e];
              if full(b) then w.blocks == old(w).blocks + [b] && w.hand == []
              else w.blocks == old(w).blocks && w.hand == b
    {
      Append(e);
      if full(w.hand) {
        Flush();
      }
    }

    method Append(e: Entry)
      requires Valid() && (LastKey(w).Some? ==> Less(LastKey(w).value, e.IK()))
      modifies this, filter
      ensures Valid() && All() == old(All()) + [e] && w.hand == old(w).hand + [e] && w.blocks == old(w).blocks
    {
      AppendSound(h, w, e);
      AppendedAll(h, w, e);
      NoteKey(e.key);
      w := Appended(h, w, e);
    }

    /** The key goes to the filter of the block in hand. */
    method NoteKey(key: UserKey)
      requires filter != null ==> filter.Valid() && filter.hash == hash && |filter.filters| == w.offset / BASE && Collected()
      modifies filter
      ensures filter != null ==> filter.Valid() && |filter.filters| == w.offset / BASE && Collected()
                                 && filter.Covers(w.offset / BASE, key)
    {
      if filter != null {
        filter.AddKey(key);
      }
    }

    method Flush()
      requires Valid()
      modifies this, filter
      ensures Valid() && All() == old(All()) && w.hand == []
      ensures w.blocks == old(w).blocks + if old(w).hand == [] then [] else [old(w).hand]
    {
      if w.hand == [] {
        return;
      }
      FlushSound(w, size(w.hand));
      ChainConcat(w.blocks, w.hand);
      w := Flushed(w, size(w.hand));
      if filter != null {
        filter.StartBlock(w.offset);
      }
    }

    /** A finished table is well formed and holds exactly the entries added. */
    method Finish() returns (t: TableFile)
      requires Valid()
      modifies this, filter
      ensures WellFormed(t, hash) && Flatten(t.blocks) == old(All()) && (t.filters.Some? <==> filter != null)
      ensures t.blocks == old(w).blocks + if old(w).hand == [] then [] else [old(w).hand]
    {
      Flush();
      assert Flatten(w.blocks) + w.hand == Flatten(w.blocks);
      t := Close();
    }

    method Close() returns (t: TableFile)
      requires Valid() && w.hand == []
      modifies filter
      ensures WellFormed(t, hash) && t.blocks == w.blocks && (t.filters.Some? <==> filter != null)
    {
      var filters := FinishFilters();
      FinalIndexOk(h, w);
      t := TableFile(FinalIndex(h, w), w.blocks, filters);
    }

    /** Every block is covered by the filter for its start. */
    method FinishFilters() returns (filters: Option<seq<Bloom>>)
      requires Valid()
      modifies filter
      ensures filters.Some? <==> filter != null
      ensures filters.Some? ==> forall i | 0 <= i < |w.blocks| :: Covered(hash, filters.value, w.starts[i], w.blocks[i])
    {
      filters := None;
      if filter != null {
        filter.Finish();
        filters := Some(filter.filters);
      }
    }
  }
}
