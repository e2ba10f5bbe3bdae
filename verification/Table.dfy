/**
 Tables: blocks of entries, an index of separator keys and block offsets, and filters. A point
 lookup reads at most one block and still finds what a search of all entries would.
 */
module Table {
  import opened DbFormat
  import opened Filter
  import opened TwoLevel

  const MAX_TAG: nat := MAX_SEQUENCE * 256 + 1

  /** What user keys can be shortened to. `shorter` compares physical lengths. */
  datatype Shortening = Shortening(separator: (UserKey, UserKey) -> UserKey, successor: UserKey -> UserKey,
                                   shorter: (UserKey, UserKey) -> bool)
  {
    /** The contract of the user comparator's FindShortestSeparator and FindShortSuccessor. */
    ghost predicate Ok() {
      && (forall a, b :: a < b ==> a <= separator(a, b) < b)
      && (forall a :: separator(a, a) == a)
      && (forall a :: a <= successor(a))
    }
  }

  /** InternalKeyComparator::FindShortestSeparator. */
  function FindShortestSeparator(h: Shortening, start: IKey, limit: IKey): IKey {
    var u := h.separator(start.user, limit.user);
    if h.shorter(u, start.user) && start.user < u then IKey(u, MAX_TAG) else start
  }

  function FindShortSuccessor(h: Shortening, key: IKey): IKey {
    var u := h.successor(key.user);
    if h.shorter(u, key.user) && key.user < u then IKey(u, MAX_TAG) else key
  }

  /** A separator is the last key before it, or a user key strictly below everything after it. */
  lemma {:induction false} SeparatorIsTight(h: Shortening, start: IKey, limit: IKey)
    requires h.Ok() && Less(start, limit)
    ensures var s := FindShortestSeparator(h, start, limit);
            && !Less(s, start) && Less(s, limit) && (s == start || s.user < limit.user)
  {
  }

  lemma {:induction false} SuccessorIsAbove(h: Shortening, key: IKey)
    requires h.Ok()
    ensures !Less(FindShortSuccessor(h, key), key)
  {
  }

  datatype IndexEntry = IndexEntry(bound: IKey, offset: nat)

  /** A finished table: the blocks in the order written, with where each starts. */
  datatype TableFile = TableFile(index: seq<IndexEntry>, blocks: seq<seq<Entry>>, filters: Option<seq<Bloom>>)

  function Bounds(index: seq<IndexEntry>): (r: seq<IKey>)
    ensures |r| == |index|
  {
    seq(|index|, i requires 0 <= i < |index| => index[i].bound)
  }

  /** Bound `i` is block `i`'s last key, or lies below the user keys of all later blocks. */
  ghost predicate Tight(bounds: seq<IKey>, blocks: Blocks, i: nat)
    requires i < |bounds| && i < |blocks|
  {
    || (blocks[i] != [] && bounds[i] == blocks[i][|blocks[i]| - 1].IK())
    || (forall j, p | i < j < |blocks| && 0 <= p < |blocks[j]| :: bounds[i].user < blocks[j][p].key)
  }

  ghost predicate Covered(hash: Hash, filters: seq<Bloom>, offset: nat, block: seq<Entry>) {
    forall e | e in block :: MayMatch(hash, filters, offset, e.key)
  }

  ghost predicate WellFormed(t: TableFile, hash: Hash) {
    && |t.index| == |t.blocks| && Separated(Bounds(t.index), t.blocks)
    && (forall i | 0 <= i < |t.blocks| :: Tight(Bounds(t.index), t.blocks, i))
    && (forall i, j | 0 <= i < j < |t.index| :: t.index[i].offset < t.index[j].offset)
    && (t.filters.Some? ==>
          forall i | 0 <= i < |t.blocks| :: Covered(hash, t.filters.value, t.index[i].offset, t.blocks[i]))
  }

  /** If the block that the index names has nothing at or after the lookup key, no later block has the user key. */
  lemma {:induction false} NotInLaterBlocks(bounds: seq<IKey>, blocks: Blocks, k: UserKey, s: nat, j: nat, p: nat)
    requires Separated(bounds, blocks)
    requires var i := SeekBound(bounds, LookupKey(k, s));
             i < |bounds| && Tight(bounds, blocks, i) && SeekIndex(blocks[i], LookupKey(k, s)) == |blocks[i]|
             && i < j < |blocks| && p < |blocks[j]|
    ensures blocks[j][p].key != k
  {
    var i := SeekBound(bounds, LookupKey(k, s));
    if blocks[i] != [] && bounds[i] == blocks[i][|blocks[i]| - 1].IK() {
      assert Less(blocks[i][|blocks[i]| - 1].IK(), LookupKey(k, s));
    }
  }

  /** What Table::InternalGet hands to its caller, who looks at the user key. */
  method InternalGet(t: TableFile, hash: Hash, k: UserKey, s: nat) returns (r: Option<Entry>)
    requires WellFormed(t, hash)
    ensures r.Some? ==> r.value in Flatten(t.blocks)
    ensures RunGet(Flatten(t.blocks), k, s) == if r.Some? && r.value.key == k then r else None
  {
    var target := LookupKey(k, s);
    var i := SeekBound(Bounds(t.index), target);
    SeekIsInBlock(Bounds(t.index), t.blocks, target);
    if i == |t.index| {
      return None;
    }
    assert Tight(Bounds(t.index), t.blocks, i);
    var p := SeekIndex(t.blocks[i], target);
    FoundInBlock(Bounds(t.index), t.blocks, k, s);
    if t.filters.Some? {
      var may := FilterAllows(t, hash, i, k);
      if !may {
        assert p < |t.blocks[i]| ==> t.blocks[i][p] in t.blocks[i];
        return None;
      }
    }
    if p < |t.blocks[i]| {
      ConcatAt(t.blocks, i, p);
      return Some(t.blocks[i][p]);
    }
    return None;
  }

  lemma {:induction false} AfterBlock(blocks: Blocks, i: nat, j: nat, q: nat)
    requires i < |blocks| && j < |blocks| && q < |blocks[j]| && Start(blocks, j) + q == Start(blocks, i) + |blocks[i]|
    ensures i < j
  {
    if j <= i {
      StartGrows(blocks, j + 1, i + 1);
    }
  }

  /** Searching all entries comes to searching the one block that the index names. */
  lemma {:induction false} FoundInBlock(bounds: seq<IKey>, blocks: Blocks, k: UserKey, s: nat)
    requires Separated(bounds, blocks) && SeekBound(bounds, LookupKey(k, s)) < |bounds|
    requires Tight(bounds, blocks, SeekBound(bounds, LookupKey(k, s)))
    ensures RunGet(Flatten(blocks), k, s) == RunGet(blocks[SeekBound(bounds, LookupKey(k, s))], k, s)
  {
    var t := LookupKey(k, s);
    var i, all := SeekBound(bounds, t), Flatten(blocks);
    var p := SeekIndex(blocks[i], t);
    SeekIsInBlock(bounds, blocks, t);
    if p < |blocks[i]| {
      ConcatAt(blocks, i, p);
    } else if SeekIndex(all, t) < |all| {
      var j, q := Locate(blocks, SeekIndex(all, t));
      AfterBlock(blocks, i, j, q);
      NotInLaterBlocks(bounds, blocks, k, s, j, q);
    }
  }

  method FilterAllows(t: TableFile, hash: Hash, i: nat, k: UserKey) returns (may: bool)
    requires WellFormed(t, hash) && i < |t.index| && t.filters.Some?
    ensures !may ==> forall e | e in t.blocks[i] :: e.key != k
  {
    var n := t.index[i].offset / BASE;
    assert Covered(hash, t.filters.value, t.index[i].offset, t.blocks[i]);
    if n < |t.filters.value| {
      may := KeyMayMatch(hash, t.filters.value[n], k);
    } else {
      may := true;
    }
  }
}
