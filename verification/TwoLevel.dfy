/**
 The two-level iterator: an index of (separator key, block handle) pairs over blocks of
 entries, some of which may be empty. It is one cursor over the concatenation of the blocks.
 */
module TwoLevel {
  import opened DbFormat
  import opened Iterator

  type Blocks = seq<seq<Entry>>

  /** Where block `i` starts in the concatenation. */
  function Start(blocks: Blocks, i: nat): nat
    requires i <= |blocks|
  {
    if i == 0 then 0 else Start(blocks, i - 1) + |blocks[i - 1]|
  }

  lemma {:induction false} StartOfPrefix(blocks: Blocks, n: nat, i: nat)
    requires i <= n <= |blocks|
    ensures Start(blocks[..n], i) == Start(blocks, i)
  {
    if i > 0 {
      StartOfPrefix(blocks, n, i - 1);
    }
  }

  lemma {:induction false} ConcatLength(blocks: Blocks)
    ensures |Flatten(blocks)| == Start(blocks, |blocks|)
  {
    if blocks != [] {
      ConcatLength(blocks[..|blocks| - 1]);
      StartOfPrefix(blocks, |blocks| - 1, |blocks| - 1);
    }
  }

  lemma {:induction false} StartGrows(blocks: Blocks, i: nat, j: nat)
    requires i <= j <= |blocks|
    ensures Start(blocks, i) <= Start(blocks, j)
  {
    if i < j {
      StartGrows(blocks, i, j - 1);
    }
  }

  lemma {:induction false} ConcatAt(blocks: Blocks, i: nat, p: nat)
    requires i < |blocks| && p < |blocks[i]|
    ensures Start(blocks, i) + p < |Flatten(blocks)| && Flatten(blocks)[Start(blocks, i) + p] == blocks[i][p]
  {
    var n := |blocks| - 1;
    ConcatLength(blocks);
    ConcatLength(blocks[..n]);
    StartOfPrefix(blocks, n, n);
    if i < n {
      ConcatAt(blocks[..n], i, p);
      StartOfPrefix(blocks, n, i);
    }
  }

  /** Every position of the concatenation lies in some block. */
  lemma {:induction false} Locate(blocks: Blocks, k: nat) returns (i: nat, p: nat)
    requires k < |Flatten(blocks)|
    ensures i < |blocks| && p < |blocks[i]| && k == Start(blocks, i) + p && Flatten(blocks)[k] == blocks[i][p]
  {
    var n := |blocks| - 1;
    ConcatLength(blocks);
    ConcatLength(blocks[..n]);
    StartOfPrefix(blocks, n, n);
    if k < |Flatten(blocks[..n])| {
      i, p := Locate(blocks[..n], k);
      StartOfPrefix(blocks, n, i);
    } else {
      i, p := n, k - Start(blocks, n);
    }
  }

  /** Separators lie at or after their own block and before all later blocks. */
  ghost predicate Separated(bounds: seq<IKey>, blocks: Blocks) {
    && |bounds| == |blocks| && (forall b | b in blocks :: Sorted(b))
    && (forall i, p | 0 <= i < |blocks| && 0 <= p < |blocks[i]| :: !Less(bounds[i], blocks[i][p].IK()))
    && (forall i, j, p | 0 <= i < j < |blocks| && 0 <= p < |blocks[j]| :: Less(bounds[i], blocks[j][p].IK()))
  }

  /** The first separator at or after `t`: what Seek on the index finds. */
  function SeekBound(bounds: seq<IKey>, t: IKey): (i: nat)
    ensures i <= |bounds| && (forall j | 0 <= j < i :: Less(bounds[j], t)) && (i < |bounds| ==> !Less(bounds[i], t))
  {
    if bounds == [] || !Less(bounds[0], t) then 0 else 1 + SeekBound(bounds[1..], t)
  }

  lemma {:induction false} SortedSplit(b: seq<Entry>, t: IKey, p: nat)
    requires Sorted(b) && p < |b|
    ensures Less(b[p].IK(), t) <==> p < SeekIndex(b, t)
  {
    var n := SeekIndex(b, t);
    assert n < p ==> Less(b[n].IK(), b[p].IK());
  }

  /** Seeking in the block the index names finds the place in the whole concatenation. */
  lemma {:induction false} SeekIsInBlock(bounds: seq<IKey>, blocks: Blocks, t: IKey)
    requires Separated(bounds, blocks)
    ensures SeekIndex(Flatten(blocks), t) ==
            var i := SeekBound(bounds, t);
            if i == |bounds| then |Flatten(blocks)| else Start(blocks, i) + SeekIndex(blocks[i], t)
  {
    var i, all := SeekBound(bounds, t), Flatten(blocks);
    ConcatLength(blocks);
    var q := if i == |bounds| then |all| else Start(blocks, i) + SeekIndex(blocks[i], t);
    if i < |bounds| {
      StartGrows(blocks, i + 1, |blocks|);
    }
    forall k | 0 <= k < |all| ensures Less(all[k].IK(), t) <==> k < q {
      var j, p := Locate(blocks, k);
      PlaceOf(bounds, blocks, t, j, p);
    }
    SplitIsSeek(all, t, q);
  }

  lemma {:induction false} SplitIsSeek(run: seq<Entry>, t: IKey, q: nat)
    requires q <= |run| && forall k | 0 <= k < |run| :: Less(run[k].IK(), t) <==> k < q
    ensures SeekIndex(run, t) == q
  {
    if q > 0 {
      SplitIsSeek(run[1..], t, q - 1);
    }
  }

  lemma {:induction false} PlaceOf(bounds: seq<IKey>, blocks: Blocks, t: IKey, j: nat, p: nat)
    requires Separated(bounds, blocks) && j < |blocks| && p < |blocks[j]|
    ensures var i := SeekBound(bounds, t);
            Less(blocks[j][p].IK(), t) <==>
              (i == |bounds| || Start(blocks, j) + p < Start(blocks, i) + SeekIndex(blocks[i], t))
  {
    var i := SeekBound(bounds, t);
    if j < i {
      assert Less(bounds[j], t) && !Less(bounds[j], blocks[j][p].IK());
      StartGrows(blocks, j + 1, i);
    } else if i < j {
      StartGrows(blocks, i + 1, j);
    } else {
      SortedSplit(blocks[i], t, p);
    }
  }

  class TwoLevelIterator {
    const bounds: seq<IKey>
    const handles: seq<nat>
    const open: nat -> seq<Entry>        // the block function: a handle's block, empty if it cannot be read
    var index: Option<nat>
    var data: Iter?
    var handle: nat                      // the handle that `data` was opened with

    ghost function Blocks(): Blocks { seq(|handles|, i requires 0 <= i < |handles| => open(handles[i])) }

    ghost function All(): seq<Entry> { Flatten(Blocks()) }

    ghost predicate Inv()
      reads this, data
    {
      && Separated(bounds, Blocks())
      && (data != null ==> data.Ok() && data.data == open(handle))
      && (index.Some? ==> index.value < |handles|)
      && (data != null ==> index.Some? && handle == handles[index.value])
    }

    predicate Valid()
      reads this, data
    {
      data != null && data.Valid()
    }

    /** Where the cursor stands in the concatenation. */
    ghost function Shown(): (r: Option<nat>)
      reads this, data
      requires Inv()
    {
      if Valid() then Some(Start(Blocks(), index.value) + data.pos.value) else None
    }

    /** Coming from the left: how many entries lie before the cursor. */
    ghost function Passed(): nat
      reads this, data
      requires Inv()
    {
      if index.None? then |All()|
      else Start(Blocks(), index.value) + if Valid() then data.pos.value else |Blocks()[index.value]|
    }

    /** Coming from the right: how many entries lie at or before the cursor. */
    ghost function Reached(): nat
      reads this, data
      requires Inv()
    {
      if index.None? then 0
      else Start(Blocks(), index.value) + if Valid() then data.pos.value + 1 else 0
    }

    constructor (bounds: seq<IKey>, handles: seq<nat>, open: nat -> seq<Entry>)
      requires Separated(bounds, seq(|handles|, i requires 0 <= i < |handles| => open(handles[i])))
      ensures Inv() && Shown() == None
      ensures this.bounds == bounds && this.handles == handles && this.open == open
    {
      this.bounds, this.handles, this.open := bounds, handles, open;
      index, data, handle := None, null, 0;
    }

    /** Opens the block under the index, reusing the open one when the handle is the same. */
    method InitDataBlock()
      requires Separated(bounds, Blocks()) && (data != null ==> data.Ok() && data.data == open(handle))
      requires index.Some? ==> index.value < |handles|
      modifies this`data, this`handle
      ensures Inv() && (index.Some? <==> data != null)
      ensures data != null ==> data == old(data) || fresh(data)
    {
      if index.None? {
        data := null;
      } else if data == null || handle != handles[index.value] {
        assert Blocks()[index.value] in Blocks();
        handle := handles[index.value];
        data := new Iter(open(handle));
      }
    }

    method OpenNext()
      requires Inv() && !Valid() && index.Some?
      modifies this, data
      ensures Inv() && Passed() == old(Passed()) && (data != null ==> data == old(data) || fresh(data))
      ensures index == if old(index).value + 1 < |handles| then Some(old(index).value + 1) else None
    {
      ConcatLength(Blocks());
      index := if index.value + 1 < |handles| then Some(index.value + 1) else None;
      InitDataBlock();
      if data != null {
        data.SeekToFirst();
      }
    }

    method OpenPrev()
      requires Inv() && !Valid() && index.Some?
      modifies this, data
      ensures Inv() && Reached() == old(Reached()) && (data != null ==> data == old(data) || fresh(data))
      ensures index == if old(index).value > 0 then Some(old(index).value - 1) else None
    {
      index := if index.value > 0 then Some(index.value - 1) else None;
      InitDataBlock();
      if data != null {
        data.SeekToLast();
      }
    }

    method SkipEmptyDataBlocksForward()
      requires Inv()
      modifies this, data
      ensures Inv() && Shown() == if old(Passed()) < |All()| then Some(old(Passed())) else None
    {
      while !Valid()
        invariant Inv() && Passed() == old(Passed())
        invariant data != null ==> data == old(data) || fresh(data)
        decreases if index.Some? then |handles| - index.value else 0
      {
        if index.None? {
          data := null;
          return;
        }
        OpenNext();
      }
      ConcatAt(Blocks(), index.value, data.pos.value);
    }

    method SkipEmptyDataBlocksBackward()
      requires Inv()
      modifies this, data
      ensures Inv() && Shown() == if old(Reached()) > 0 then Some(old(Reached()) - 1) else None
    {
      while !Valid()
        invariant Inv() && Reached() == old(Reached())
        invariant data != null ==> data == old(data) || fresh(data)
        decreases if index.Some? then index.value + 1 else 0
      {
        if index.None? {
          data := null;
          return;
        }
        OpenPrev();
      }
    }

    method Seek(t: IKey)
      requires Inv()
      modifies this, data
      ensures Inv() && Shown() == if SeekIndex(All(), t) < |All()| then Some(SeekIndex(All(), t)) else None
    {
      SeekInBlock(t);
      SkipEmptyDataBlocksForward();
    }

    /** To the block that the index names and the place in it, which may be its end. */
    method SeekInBlock(t: IKey)
      requires Inv()
      modifies this, data
      ensures Inv() && Passed() == SeekIndex(All(), t) && (data != null ==> data == old(data) || fresh(data))
    {
      var i := SeekBound(bounds, t);
      SeekIsInBlock(bounds, Blocks(), t);
      index := if i < |handles| then Some(i) else None;
      InitDataBlock();
      if data != null {
        data.Seek(t);
      }
    }

    method SeekToFirst()
      requires Inv()
      modifies this, data
      ensures Inv() && Shown() == if All() == [] then None else Some(0)
    {
      ConcatLength(Blocks());
      index := if handles == [] then None else Some(0);
      InitDataBlock();
      if data != null {
        data.SeekToFirst();
      }
      SkipEmptyDataBlocksForward();
    }

    method SeekToLast()
      requires Inv()
      modifies this, data
      ensures Inv() && Shown() == if All() == [] then None else Some(|All()| - 1)
    {
      ConcatLength(Blocks());
      index := if handles == [] then None else Some(|handles| - 1);
      InitDataBlock();
      if data != null {
        data.SeekToLast();
      }
      SkipEmptyDataBlocksBackward();
    }

    method Next()
      requires Inv() && Valid()
      modifies this, data
      ensures Inv() && Shown() == if old(Shown()).value + 1 < |All()| then Some(old(Shown()).value + 1) else None
    {
      data.Next();
      SkipEmptyDataBlocksForward();
    }

    method Prev()
      requires Inv() && Valid()
      modifies this, data
      ensures Inv() && Shown() == if old(Shown()).value > 0 then Some(old(Shown()).value - 1) else None
    {
      data.Prev();
      SkipEmptyDataBlocksBackward();
    }

    /** The entry under the cursor is the concatenation's entry at that position. */
    lemma {:induction false} CurrentIsShown()
      requires Inv() && Valid()
      ensures Shown().value < |All()| && data.Current() == All()[Shown().value]
    {
      ConcatAt(Blocks(), index.value, data.pos.value);
    }
  }
}
