/** Building a block: keys in increasing order, each sharing what it can with the one before. */
module BlockBuilder {
  import opened Coding
  import opened BlockFormat

  /** The length of the longest common prefix. */
  predicate LongestCommon(a: Bytes, b: Bytes, n: nat) {
    && n <= |a| && n <= |b| && a[..n] == b[..n]
    && (n < |a| && n < |b| ==> a[n] != b[n])
  }

  method SharedLength(a: Bytes, b: Bytes) returns (shared: nat)
    ensures LongestCommon(a, b, shared)
  {
    shared := 0;
    var least := if |a| < |b| then |a| else |b|;
    while shared < least && a[shared] == b[shared]
      invariant shared <= least && a[..shared] == b[..shared]
    {
      assert a[..shared + 1] == a[..shared] + [a[shared]] && b[..shared + 1] == b[..shared] + [b[shared]];
      shared := shared + 1;
    }
  }

  lemma {:induction false} AppendedOffset(items: seq<Item>, e: Item, i: nat)
    requires Shares(items) && e.shared <= |e.key| && i <= |items|
    ensures Shares(items + [e]) && Offset(items + [e], i) == Offset(items, i)
  {
    assert (items + [e])[..i] == items[..i];
  }

  lemma {:induction false} AppendedData(items: seq<Item>, e: Item)
    requires Shares(items) && e.shared <= |e.key|
    ensures Shares(items + [e]) && Data(items + [e]) == Data(items) + ItemBytes(e)
  {
    assert (items + [e])[..|items|] == items;
  }

  /** Appending an entry, as a restart point or not, keeps the image well formed. */
  lemma {:induction false} AppendKeepsImage(items: seq<Item>, points: seq<nat>, e: Item, restart: bool)
    requires Image(items, points) && e.shared <= |e.key|
    requires restart || items == [] ==> e.shared == 0
    requires items != [] ==> e.shared <= |items[|items| - 1].key|
                             && e.key[..e.shared] == items[|items| - 1].key[..e.shared]
    requires restart ==> items != [] && points[|points| - 1] < |items|
    requires items != [] && !restart ==> points[|points| - 1] < |items|
    ensures Image(items + [e], if restart then points + [|items|] else points)
  {
    var a, q := items + [e], if restart then points + [|items|] else points;
    forall i | 0 <= i < |a| ensures SharesRightly(a, i) {
      assert i < |items| ==> SharesRightly(items, i);
    }
    forall j | 0 <= j < |q| ensures RestartOk(a, q, j) {
      assert j < |points| ==> RestartOk(items, points, j);
      assert j == |points| && j > 0 ==> q[j - 1] == points[j - 1];
    }
  }

  lemma {:induction false} OffsetsGrow(items: seq<Item>, points: seq<nat>, e: Item, restart: bool)
    requires Shares(items) && e.shared <= |e.key| && forall j | 0 <= j < |points| :: points[j] <= |items|
    ensures Shares(items + [e])
    ensures Offsets(items + [e], if restart then points + [|items|] else points)
            == if restart then Offsets(items, points) + [|Data(items)|] else Offsets(items, points)
  {
    forall i: nat | i <= |items| ensures Shares(items + [e]) && Offset(items + [e], i) == Offset(items, i) {
      AppendedOffset(items, e, i);
    }
    assert items[..|items|] == items;
  }

  /** The builder's fields stand for these entries and restart points, `interval` apart. */
  ghost predicate Built(interval: nat, buffer: Bytes, restarts: seq<nat>, counter: nat, lastKey: Bytes,
                        items: seq<Item>, points: seq<nat>)
  {
    && interval >= 1 && Image(items, points) && Shares(items)
    && (forall j | 0 <= j < |points| :: points[j] <= |items|)
    && buffer == Data(items) && restarts == Offsets(items, points)
    && lastKey == (if items == [] then [] else items[|items| - 1].key)
    && points[|points| - 1] + counter == |items| && counter <= interval && (items != [] ==> counter >= 1)
    && (forall j | 0 <= j < |points| - 1 :: Spaced(points, interval, j))
  }

  predicate Spaced(points: seq<nat>, interval: nat, j: nat)
    requires j + 1 < |points|
  {
    points[j + 1] == points[j] + interval
  }

  lemma {:induction false} SpacedMore(points: seq<nat>, interval: nat, x: nat)
    requires points != [] && x == points[|points| - 1] + interval
    requires forall j | 0 <= j < |points| - 1 :: Spaced(points, interval, j)
    ensures forall j | 0 <= j < |points + [x]| - 1 :: Spaced(points + [x], interval, j)
  {
    forall j | 0 <= j < |points + [x]| - 1 ensures Spaced(points + [x], interval, j) {
      assert j < |points| - 1 ==> Spaced(points, interval, j);
    }
  }

  lemma {:induction false} ShareBuilt(interval: nat, buffer: Bytes, restarts: seq<nat>, counter: nat, lastKey: Bytes,
                   items: seq<Item>, points: seq<nat>, e: Item)
    requires Built(interval, buffer, restarts, counter, lastKey, items, points)
    requires counter < interval && LongestCommon(lastKey, e.key, e.shared)
    ensures Built(interval, buffer + ItemBytes(e), restarts, counter + 1, e.key, items + [e], points)
  {
    AppendKeepsImage(items, points, e, false);
    AppendedData(items, e);
    OffsetsGrow(items, points, e, false);
  }

  lemma {:induction false} RestartBuilt(interval: nat, buffer: Bytes, restarts: seq<nat>, counter: nat, lastKey: Bytes,
                     items: seq<Item>, points: seq<nat>, e: Item)
    requires Built(interval, buffer, restarts, counter, lastKey, items, points)
    requires counter >= interval && e.shared == 0
    ensures Built(interval, buffer + ItemBytes(e), restarts + [|buffer|], 1, e.key, items + [e], points + [|items|])
  {
    AppendKeepsImage(items, points, e, true);
    AppendedData(items, e);
    OffsetsGrow(items, points, e, true);
    SpacedMore(points, interval, |items|);
  }

  method PutFixed32s(buffer: Bytes, vs: seq<nat>) returns (r: Bytes)
    ensures r == buffer + Fixed32s(vs)
  {
    r := buffer;
    for i := 0 to |vs|
      invariant r == buffer + Fixed32s(vs[..i])
    {
      assert vs[..i + 1][..i] == vs[..i];
      r := r + Fixed32(vs[i]);
    }
    assert vs[..|vs|] == vs;
  }

  class BlockBuilder {
    const interval: nat
    var buffer: Bytes
    var restarts: seq<nat>
    var counter: nat
    var finished: bool
    var lastKey: Bytes
    ghost var items: seq<Item>
    ghost var points: seq<nat>

    ghost predicate Valid()
      reads this
    {
      Built(interval, buffer, restarts, counter, lastKey, items, points)
    }

    constructor (interval: nat)
      requires interval >= 1
      ensures Valid() && !finished && items == [] && this.interval == interval
    {
      this.interval := interval;
      buffer, restarts, counter, finished, lastKey := [], [0], 0, false, [];
      items, points := [], [0];
      assert RestartOk([], [0], 0);
    }

    method AddShared(key: Bytes, value: Bytes) returns (shared: nat)
      requires Valid() && counter < interval
      modifies this
      ensures Valid() && finished == old(finished)
      ensures LongestCommon(old(lastKey), key, shared) && items == old(items) + [Item(key, value, shared)]
    {
      shared := SharedLength(lastKey, key);
      ghost var e := Item(key, value, shared);
      ShareBuilt(interval, buffer, restarts, counter, lastKey, items, points, e);
      AppendItem(key, value, shared);
      items, counter := items + [e], counter + 1;
    }

    method AddRestart(key: Bytes, value: Bytes)
      requires Valid() && counter >= interval
      modifies this
      ensures Valid() && finished == old(finished) && items == old(items) + [Item(key, value, 0)]
    {
      ghost var e := Item(key, value, 0);
      RestartBuilt(interval, buffer, restarts, counter, lastKey, items, points, e);
      var size := |buffer|;
      AppendItem(key, value, 0);
      restarts, points, items, counter := restarts + [size], points + [|items|], items + [e], 1;
    }

    /** Appends an entry: the key shares its longest common prefix, or nothing at every `interval`-th entry. */
    method Add(key: Bytes, value: Bytes) returns (shared: nat)
      requires Valid() && !finished
      modifies this
      ensures Valid() && !finished && items == old(items) + [Item(key, value, shared)]
      ensures if old(counter) < interval then LongestCommon(old(lastKey), key, shared) else shared == 0
    {
      if counter < interval {
        shared := AddShared(key, value);
      } else {
        AddRestart(key, value);
        shared := 0;
      }
    }

    method AppendItem(key: Bytes, value: Bytes, shared: nat)
      requires shared <= |key| && shared <= |lastKey| && lastKey[..shared] == key[..shared]
      modifies `buffer, `lastKey
      ensures buffer == old(buffer) + ItemBytes(Item(key, value, shared)) && lastKey == key
    {
      var x, y, z := PutVarint(shared), PutVarint(|key| - shared), PutVarint(|value|);
      buffer := buffer + x + y + z;
      buffer := buffer + key[shared..] + value;
      assert buffer == old(buffer) + (x + y + z + key[shared..] + value);
      lastKey := lastKey[..shared] + key[shared..];
      assert key == key[..shared] + key[shared..];
    }

    /** Appends the restart array and its length. */
    method Finish() returns (contents: Bytes)
      requires Valid() && !finished
      modifies this
      ensures contents == BlockBytes(old(items), old(points)) && finished && Image(old(items), old(points))
    {
      contents := PutFixed32s(buffer, restarts);
      contents := contents + Fixed32(|restarts|);
      buffer := contents;
      finished := true;
    }
  }
}
