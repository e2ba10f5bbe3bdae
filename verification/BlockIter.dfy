/** The block iterator: over the bytes of a finished block, a cursor on the list of entries it was built from. */
module BlockIter {
  import opened DbFormat
  import opened Coding
  import opened BlockFormat

  type Order = (Bytes, Bytes) -> bool

  /** `less` is the strict part of a comparator: equal keys may differ as bytes. */
  ghost predicate StrictWeak(less: Order) {
    && (forall a, b | less(a, b) :: !less(b, a))
    && (forall a, b, c | less(a, b) && less(b, c) :: less(a, c))
    && (forall a, b, c | less(a, c) && !less(a, b) :: less(b, c))
  }

  predicate Increasing(less: Order, items: seq<Item>) {
    forall i, j | 0 <= i < j < |items| :: less(items[i].key, items[j].key)
  }

  function Compare(less: Order, a: Bytes, b: Bytes): int { if less(a, b) then -1 else if less(b, a) then 1 else 0 }

  /** The number of leading keys below `t`: the index of the first key at or above it. */
  function Cut(less: Order, items: seq<Item>, t: Bytes): (n: nat)
    ensures n <= |items| && (forall i | 0 <= i < n :: less(items[i].key, t)) && (n < |items| ==> !less(items[n].key, t))
  {
    if items == [] || !less(items[0].key, t) then 0 else 1 + Cut(less, items[1..], t)
  }

  lemma {:induction false} CutSplits(less: Order, items: seq<Item>, t: Bytes, i: nat)
    requires StrictWeak(less) && Increasing(less, items) && i < |items|
    ensures less(items[i].key, t) <==> i < Cut(less, items, t)
    ensures less(t, items[i].key) ==> Cut(less, items, t) <= i
    ensures Compare(less, items[i].key, t) == 0 ==> Cut(less, items, t) == i
  {
    var n := Cut(less, items, t);
    if n < i {
      assert less(items[n].key, items[i].key);
    }
  }

  // ---- What the iterator needs to know of a block -----------------------------------------

  /** At `starts[i]` the bytes decode as entry `i`, which ends at `starts[i + 1]`. */
  predicate EntryFact(b: Bytes, limit: nat, starts: seq<nat>, items: seq<Item>, i: nat)
    requires limit <= |b| && |starts| == |items| + 1 && i < |items|
  {
    && items[i].shared <= |items[i].key| && ReadsAs(b, starts[i], limit, items[i])
    && starts[i] + HeaderSize(items[i]) + (|items[i].key| - items[i].shared) + |items[i].value| == starts[i + 1]
    && SharesRightly(items, i)
  }

  predicate RestartFact(b: Bytes, limit: nat, starts: seq<nat>, items: seq<Item>, points: seq<nat>, j: nat)
    requires |starts| == |items| + 1 && j < |points|
  {
    && RestartOk(items, points, j) && limit + 4 * j + 4 <= |b|
    && DecodeFixed32(b, limit + 4 * j) == starts[points[j]]
  }

  ghost predicate Readable(b: Bytes, limit: nat, starts: seq<nat>, items: seq<Item>, points: seq<nat>) {
    && limit <= |b| && |starts| == |items| + 1 && starts[0] == 0 && starts[|items|] == limit && points != []
    && (forall i, j | 0 <= i < j <= |items| :: starts[i] < starts[j])
    && (forall i | 0 <= i < |items| :: EntryFact(b, limit, starts, items, i))
    && (forall j | 0 <= j < |points| :: RestartFact(b, limit, starts, items, points, j))
  }

  ghost function Starts(items: seq<Item>): seq<nat>
    requires Shares(items)
  {
    seq(|items| + 1, i requires 0 <= i <= |items| => Offset(items, i))
  }

  lemma {:induction false} BlockIsReadable(b: Bytes, items: seq<Item>, points: seq<nat>)
    requires IsBlock(b, items, points)
    ensures Readable(b, |Data(items)|, Starts(items), items, points)
  {
    var starts := Starts(items);
    assert items[..|items|] == items && items[..0] == [];
    BlockTrailer(b, items, points);
    forall i, j | 0 <= i < j <= |items| ensures starts[i] < starts[j] {
      OffsetGrows(items, i, j);
    }
    forall i | 0 <= i < |items| ensures EntryFact(b, |Data(items)|, starts, items, i) {
      EntryIsReadable(b, items, points, i);
    }
    forall j | 0 <= j < |points| ensures RestartFact(b, |Data(items)|, starts, items, points, j) {
      RestartIsReadable(b, items, points, j);
    }
  }

  lemma {:induction false} EntryIsReadable(b: Bytes, items: seq<Item>, points: seq<nat>, i: nat)
    requires IsBlock(b, items, points) && i < |items| && |Data(items)| <= |b|
    ensures EntryFact(b, |Data(items)|, Starts(items), items, i)
  {
    BlockEntry(b, items, points, i);
    assert SharesRightly(items, i);
  }

  lemma {:induction false} RestartIsReadable(b: Bytes, items: seq<Item>, points: seq<nat>, j: nat)
    requires IsBlock(b, items, points) && j < |points|
    ensures RestartFact(b, |Data(items)|, Starts(items), items, points, j)
  {
    assert RestartOk(items, points, j);
    BlockRestart(b, items, points, j);
  }

  /** What a builder finishes is a block that the iterator can read, if it is under 4 GB. */
  lemma {:induction false} FinishedIsBlock(b: Bytes, items: seq<Item>, points: seq<nat>)
    requires Image(items, points) && Shares(items) && forall j | 0 <= j < |points| :: points[j] <= |items|
    requires b == BlockBytes(items, points) && |b| < WORD
    ensures IsBlock(b, items, points) && Readable(b, |Data(items)|, Starts(items), items, points)
  {
    BlockIsReadable(b, items, points);
  }

  /** Decodes an entry and completes its key from the bytes of the key before. */
  method ReadEntry(data: Bytes, p: nat, limit: nat, key: Bytes, ghost e: Item) returns (d: Decoded, k: Bytes)
    requires limit <= |data| && e.shared <= |e.key| && ReadsAs(data, p, limit, e)
    requires e.shared <= |key| && key[..e.shared] == e.key[..e.shared]
    ensures k == e.key && d == Decoded(e.shared, |e.key| - e.shared, |e.value|, p + HeaderSize(e))
    ensures At(data, d.next + d.nonShared, e.value)
  {
    d := DecodeEntry(data, p, limit).value;
    k := key[..d.shared] + data[d.next..d.next + d.nonShared];
    assert e.key == e.key[..e.shared] + e.key[e.shared..];
  }

  class Iter {
    const less: Order
    const data: Bytes
    const restarts: nat
    const num: nat
    var current: nat
    var restartIndex: nat
    var key: Bytes
    var valueStart: nat
    var valueSize: nat
    ghost const items: seq<Item>
    ghost const points: seq<nat>
    ghost const starts: seq<nat>
    ghost var at: nat

    ghost predicate Fixed() {
      Readable(data, restarts, starts, items, points) && num == |points|
    }

    ghost predicate Ordered() { StrictWeak(less) && Increasing(less, items) }

    /** The next entry to parse is `j`, and the key bytes that it takes over are in place. */
    ghost predicate Before(j: nat)
      reads this
      requires Fixed()
    {
      && j <= |items| && valueStart + valueSize == starts[j]
      && (j < |items| ==> items[j].shared <= |key| && items[j].shared <= |items[j].key|
                          && key[..items[j].shared] == items[j].key[..items[j].shared])
      && restartIndex < num && points[restartIndex] <= j
    }

    ghost predicate Standing(i: nat)
      reads this
      requires Fixed()
    {
      && i < |items| && current == starts[i] && key == items[i].key
      && At(data, valueStart, items[i].value) && valueSize == |items[i].value|
      && valueStart + valueSize == starts[i + 1]
      && restartIndex < num && points[restartIndex] <= i
      && (restartIndex + 1 < num ==> i <= points[restartIndex + 1])
    }

    /** Valid and at entry `at`, or past the end. */
    ghost predicate Inv()
      reads this
    {
      && Fixed() && at <= |items|
      && if at < |items| then Standing(at) else current == restarts && restartIndex == num
    }

    predicate Valid()
      reads this
    {
      current < restarts
    }

    constructor (less: Order, data: Bytes, ghost items: seq<Item>, ghost points: seq<nat>)
      requires IsBlock(data, items, points)
      ensures Inv() && at == |items| && this.items == items && this.points == points && this.data == data
              && this.less == less
    {
      this.less, this.data, this.items, this.points, starts := less, data, items, points, Starts(items);
      BlockTrailer(data, items, points);
      BlockIsReadable(data, items, points);
      var n := DecodeFixed32(data, |data| - 4);
      num := n;
      restarts := |data| - (1 + n) * 4;
      current, restartIndex := |data| - (1 + n) * 4, n;
      key, valueStart, valueSize, at := [], 0, 0, |items|;
    }

    lemma {:induction false} ValidIsStanding()
      requires Inv()
      ensures Valid() <==> at < |items|
    {
    }

    /** The entry under a valid iterator is entry `at`. */
    lemma {:induction false} CurrentEntry()
      requires Inv() && Valid()
      ensures at < |items| && key == items[at].key && data[valueStart..valueStart + valueSize] == items[at].value
    {
      ValidIsStanding();
    }

    lemma {:induction false} StandingIsBefore(i: nat)
      requires Fixed() && Standing(i)
      ensures Before(i + 1)
    {
      if i + 1 < |items| {
        assert EntryFact(data, restarts, starts, items, i + 1);
      }
    }

    method GetRestartPoint(j: nat) returns (p: nat)
      requires Fixed() && j < num
      ensures points[j] <= |items| && p == starts[points[j]]
    {
      assert RestartFact(data, restarts, starts, items, points, j);
      p := DecodeFixed32(data, restarts + j * 4);
    }

    method SeekToRestartPoint(j: nat)
      requires Fixed() && j < num
      modifies this
      ensures Before(points[j]) && restartIndex == j && at == old(at)
    {
      assert RestartFact(data, restarts, starts, items, points, j);
      key := [];
      restartIndex := j;
      valueStart := GetRestartPoint(j);
      valueSize := 0;
    }

    /** Parses entry `j`, or finds that there are no more. */
    method ParseNextKey(ghost j: nat) returns (ok: bool)
      requires Fixed() && Before(j)
      modifies this
      ensures Inv() && at == j && ok == (j < |items|)
    {
      current := valueStart + valueSize;
      at := j;
      if current >= restarts {
        current, restartIndex := restarts, num;
        return false;
      }
      TakeEntry(j);
      AdvanceRestart(j);
      return true;
    }

    method TakeEntry(ghost j: nat)
      requires Fixed() && j < |items| && Before(j) && current == starts[j]
      modifies `key, `valueStart, `valueSize
      ensures key == items[j].key && At(data, valueStart, items[j].value) && valueSize == |items[j].value|
      ensures valueStart + valueSize == starts[j + 1]
    {
      assert EntryFact(data, restarts, starts, items, j);
      var d, k := ReadEntry(data, current, restarts, key, items[j]);
      key, valueStart, valueSize := k, d.next + d.nonShared, d.valueLength;
    }

    method AdvanceRestart(ghost j: nat)
      requires Fixed() && j < |items| && current == starts[j] && restartIndex < num && points[restartIndex] <= j
      modifies `restartIndex
      ensures restartIndex < num && points[restartIndex] <= j
      ensures restartIndex + 1 < num ==> j <= points[restartIndex + 1]
    {
      while restartIndex + 1 < num
        invariant restartIndex < num && points[restartIndex] <= j
      {
        var p := GetRestartPoint(restartIndex + 1);
        if p >= current {
          break;
        }
        restartIndex := restartIndex + 1;
      }
    }

    method Next()
      requires Inv() && Valid()
      modifies this
      ensures Inv() && at == old(at) + 1
    {
      ValidIsStanding();
      StandingIsBefore(at);
      var _ := ParseNextKey(at + 1);
    }

    method SeekToFirst()
      requires Inv()
      modifies this
      ensures Inv() && at == 0
    {
      assert RestartFact(data, restarts, starts, items, points, 0);
      SeekToRestartPoint(0);
      var _ := ParseNextKey(0);
    }

    /** Parses entries from `j` on until one ends at `original`, the start of entry `i`. */
    method ScanUntil(original: nat, ghost j: nat, ghost i: nat)
      requires Fixed() && Before(j) && i <= |items| && original == starts[i] && (j < i || j == |items|)
      modifies this
      ensures Inv() && at == if j < i then i - 1 else |items|
    {
      var ok := ParseNextKey(j);
      while ok && valueStart + valueSize < original
        invariant Inv() && (ok <==> j < |items|)
        invariant ok ==> j <= at < i && (valueStart + valueSize < original <==> at + 1 < i)
        invariant !ok ==> at == |items|
        decreases i - at
      {
        StandingIsBefore(at);
        ok := ParseNextKey(at + 1);
      }
    }

    method SeekToLast()
      requires Inv()
      modifies this
      ensures Inv() && at == if items == [] then 0 else |items| - 1
    {
      assert RestartFact(data, restarts, starts, items, points, num - 1);
      SeekToRestartPoint(num - 1);
      ScanUntil(restarts, points[num - 1], |items|);
    }

    method StartsBefore(original: nat, ghost i: nat) returns (before: bool)
      requires Fixed() && restartIndex < num && i < |items| && original == starts[i]
      ensures before == (points[restartIndex] < i)
    {
      var p := GetRestartPoint(restartIndex);
      before := p < original;
    }

    /** Back to the last restart point before entry `at`, or to the end if there is none. */
    method RestartBefore() returns (found: bool)
      requires Inv() && Valid()
      modifies this
      ensures found == (old(at) > 0)
      ensures found ==> restartIndex < num && points[restartIndex] < old(at)
      ensures !found ==> Inv() && at == |items|
    {
      ValidIsStanding();
      var original := current;
      assert RestartFact(data, restarts, starts, items, points, 0);
      while true
        invariant Fixed() && at == old(at) < |items| && original == starts[at]
        invariant restartIndex < num && points[restartIndex] <= at
        decreases restartIndex
      {
        var before := StartsBefore(original, at);
        if before {
          return true;
        }
        if restartIndex == 0 {
          current, restartIndex, at := restarts, num, |items|;
          return false;
        }
        assert RestartFact(data, restarts, starts, items, points, restartIndex);
        restartIndex := restartIndex - 1;
      }
    }

    method Prev()
      requires Inv() && Valid()
      modifies this
      ensures Inv() && at == if old(at) == 0 then |items| else old(at) - 1
    {
      ValidIsStanding();
      var original := current;
      ghost var i := at;
      var found := RestartBefore();
      if found {
        SeekToRestartPoint(restartIndex);
        ScanUntil(original, points[restartIndex], i);
      }
    }

    /** The first key of restart region `j`, which shares nothing. */
    method RegionKey(j: nat) returns (k: Bytes)
      requires Fixed() && j < num && points[j] < |items|
      ensures k == items[points[j]].key
    {
      var p := GetRestartPoint(j);
      assert RestartFact(data, restarts, starts, items, points, j);
      assert EntryFact(data, restarts, starts, items, points[j]);
      var d := DecodeEntry(data, p, restarts).value;
      k := data[d.next..d.next + d.nonShared];
      assert items[points[j]].key[0..] == items[points[j]].key;
    }

    /** Every key before region `j` is among the `cut` keys below the target. */
    ghost predicate AllBelow(cut: nat, j: nat) { j < |points| && (j == 0 || points[j] < cut) }

    /** No key from the region after `j` on is among them. */
    ghost predicate NoneBelow(cut: nat, j: nat) { j < |points| && (j + 1 < |points| ==> cut <= points[j + 1]) }

    method RegionBelow(target: Bytes, j: nat, ghost cut: nat) returns (below: bool)
      requires Fixed() && Ordered() && 0 < j < num && cut == Cut(less, items, target)
      ensures below == (points[j] < cut)
    {
      assert RestartFact(data, restarts, starts, items, points, j);
      var k := RegionKey(j);
      CutSplits(less, items, target, points[j]);
      below := Compare(less, k, target) < 0;
    }

    /** Binary search for the last region that starts below the target. */
    method SearchRegions(target: Bytes, low: nat, high: nat, ghost cut: nat) returns (left: nat)
      requires Fixed() && Ordered() && cut == Cut(less, items, target)
      requires low <= high < num && AllBelow(cut, low) && NoneBelow(cut, high)
      ensures AllBelow(cut, left) && NoneBelow(cut, left)
    {
      left := low;
      var right := high;
      while left < right
        invariant left <= right < num && AllBelow(cut, left) && NoneBelow(cut, right)
      {
        var mid := (left + right + 1) / 2;
        var below := RegionBelow(target, mid, cut);
        if below {
          left := mid;
        } else {
          right := mid - 1;
        }
      }
    }

    /** Parses forward from entry `j` to the first key at or above the target. */
    method ScanTo(target: Bytes, ghost j: nat)
      requires Fixed() && Ordered() && Before(j) && j <= Cut(less, items, target)
      modifies this
      ensures Inv() && at == Cut(less, items, target)
    {
      ghost var k := j;
      while true
        invariant Fixed() && Before(k) && k <= Cut(less, items, target)
        decreases |items| - k
      {
        var ok := ParseNextKey(k);
        if !ok {
          return;
        }
        CutSplits(less, items, target, k);
        if Compare(less, key, target) >= 0 {
          return;
        }
        StandingIsBefore(k);
        k := k + 1;
      }
    }

    /** The regions that the current position leaves open, and how its key compares (0 if there is none). */
    method Narrow(target: Bytes, ghost cut: nat) returns (low: nat, high: nat, c: int)
      requires Inv() && Ordered() && cut == Cut(less, items, target)
      ensures low <= high < num && AllBelow(cut, low) && NoneBelow(cut, high)
      ensures c < 0 ==> at < cut
      ensures c == 0 && at < |items| ==> at == cut
    {
      low, high, c := 0, num - 1, 0;
      ValidIsStanding();
      if Valid() {
        c := Compare(less, key, target);
        CutSplits(less, items, target, at);
        if c < 0 {
          low := restartIndex;
        } else if c > 0 {
          high := restartIndex;
        }
      }
    }

    method FromRegion(target: Bytes, left: nat, ghost cut: nat)
      requires Fixed() && Ordered() && cut == Cut(less, items, target) && AllBelow(cut, left) && left < num
      modifies this
      ensures Inv() && at == cut
    {
      assert RestartFact(data, restarts, starts, items, points, left);
      SeekToRestartPoint(left);
      ScanTo(target, points[left]);
    }

    method FromHere(target: Bytes, ghost cut: nat)
      requires Inv() && Ordered() && cut == Cut(less, items, target) && at < cut
      modifies this
      ensures Inv() && at == cut
    {
      StandingIsBefore(at);
      ScanTo(target, at + 1);
    }

    method Seek(target: Bytes)
      requires Inv() && Ordered()
      modifies this
      ensures Inv() && at == Cut(less, items, target)
    {
      ghost var cut := Cut(less, items, target);
      var low, high, c := Narrow(target, cut);
      ValidIsStanding();
      if Valid() && c == 0 {
        return;
      }
      var left := SearchRegions(target, low, high, cut);
      if left == restartIndex && c < 0 {
        FromHere(target, cut);
      } else {
        FromRegion(target, left, cut);
      }
    }
  }
}
