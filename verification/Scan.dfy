/** Whole scans: the iterator visits exactly the live keys of the snapshot, in order, either way. */
module Scan {
  import opened DbFormat
  import opened DbState
  import opened Iterator
  import opened DBIter

  datatype Pair = Pair(key: UserKey, value: Value)

  predicate Ascending(pairs: seq<Pair>) { forall i, j | 0 <= i < j < |pairs| :: pairs[i].key < pairs[j].key }

  predicate Descending(pairs: seq<Pair>) { forall i, j | 0 <= i < j < |pairs| :: pairs[i].key > pairs[j].key }

  ghost predicate IsLivePair(data: seq<Entry>, s: nat, p: Pair) {
    exists i | 0 <= i < |data| :: Live(data, s, i) && data[i].key == p.key && data[i].op == Put(p.value)
  }

  ghost predicate VisitedBelow(data: seq<Entry>, s: nat, pairs: seq<Pair>, bound: Option<UserKey>) {
    forall p :: p in pairs <==> IsLivePair(data, s, p) && BelowBound(p.key, bound)
  }

  ghost predicate VisitedAbove(data: seq<Entry>, s: nat, pairs: seq<Pair>, bound: Option<UserKey>) {
    forall p :: p in pairs <==> IsLivePair(data, s, p) && (bound.Some? ==> bound.value < p.key)
  }

  /** The next live key after those visited extends the visited prefix by exactly one pair. */
  lemma {:induction false} ExtendForward(data: seq<Entry>, s: nat, pairs: seq<Pair>, x: nat, at: Option<nat>,
                                         pair: Pair)
    requires Sorted(data) && x < |data| && Live(data, s, x) && pair == Pair(data[x].key, data[x].op.value)
    requires VisitedBelow(data, s, pairs, Some(data[x].key)) && StandsAtLeast(data, s, Past(data[x].key), at)
    ensures VisitedBelow(data, s, pairs + [pair], if at.Some? then Some(data[at.value].key) else None)
  {
    var bound := if at.Some? then Some(data[at.value].key) else None;
    forall p ensures p in pairs + [pair] <==> IsLivePair(data, s, p) && BelowBound(p.key, bound) {
      if IsLivePair(data, s, p) {
        var i :| 0 <= i < |data| && Live(data, s, i) && data[i].key == p.key && data[i].op == Put(p.value);
        if data[i].key == data[x].key {
          SameKeySameIndex(data, s, i, x);
        }
      }
    }
  }

  lemma {:induction false} ExtendBackward(data: seq<Entry>, s: nat, pairs: seq<Pair>, x: nat, at: Option<nat>,
                                          pair: Pair)
    requires Sorted(data) && x < |data| && Live(data, s, x) && pair == Pair(data[x].key, data[x].op.value)
    requires VisitedAbove(data, s, pairs, Some(data[x].key)) && StandsAtGreatest(data, s, Some(data[x].key), at)
    ensures VisitedAbove(data, s, pairs + [pair], if at.Some? then Some(data[at.value].key) else None)
  {
    var bound := if at.Some? then Some(data[at.value].key) else None;
    forall p ensures p in pairs + [pair] <==> IsLivePair(data, s, p) && (bound.Some? ==> bound.value < p.key) {
      if IsLivePair(data, s, p) {
        var i :| 0 <= i < |data| && Live(data, s, i) && data[i].key == p.key && data[i].op == Put(p.value);
        if data[i].key == data[x].key {
          SameKeySameIndex(data, s, i, x);
        }
      }
    }
  }

  lemma {:induction false} SameKeySameIndex(data: seq<Entry>, s: nat, i: nat, j: nat)
    requires i < |data| && j < |data| && Live(data, s, i) && Live(data, s, j) && data[i].key == data[j].key
    ensures i == j
  {
  }

  /** SeekToFirst and Next to the end: the live map, ascending. */
  method ScanForward(it: DBIterator) returns (pairs: seq<Pair>)
    requires it.Inv()
    modifies it, it.iter
    ensures it.Inv() && Ascending(pairs)
    ensures forall p :: p in pairs <==> IsLivePair(it.iter.data, it.sequence, p)
  {
    pairs := [];
    it.SeekToFirst();
    assert VisitedBelow(it.iter.data, it.sequence, [], if it.valid then Some(it.iter.data[it.shown.value].key)
      else None);
    while it.valid
      invariant it.Inv() && Ascending(pairs)
      invariant VisitedBelow(it.iter.data, it.sequence, pairs, if it.valid then
                  Some(it.iter.data[it.shown.value].key) else None)
      decreases if it.valid then |it.iter.data| - it.shown.value else 0
    {
      ghost var x := it.shown.value;
      it.ShowsLive();
      var pair := Pair(it.Key(), it.Val());
      it.Next();
      ExtendForward(it.iter.data, it.sequence, pairs, x, it.shown, pair);
      assert forall p | p in pairs :: p.key < pair.key;
      pairs := pairs + [pair];
      if it.valid && it.shown.value <= x {
        KeysRise(it.iter.data, it.shown.value, x);
      }
    }
  }

  /** SeekToLast and Prev to the front: the live map, descending. */
  method ScanBackward(it: DBIterator) returns (pairs: seq<Pair>)
    requires it.Inv()
    modifies it, it.iter
    ensures it.Inv() && Descending(pairs)
    ensures forall p :: p in pairs <==> IsLivePair(it.iter.data, it.sequence, p)
  {
    pairs := [];
    it.SeekToLast();
    assert VisitedAbove(it.iter.data, it.sequence, [], if it.valid then Some(it.iter.data[it.shown.value].key)
      else None);
    while it.valid
      invariant it.Inv() && Descending(pairs)
      invariant VisitedAbove(it.iter.data, it.sequence, pairs, if it.valid then
                  Some(it.iter.data[it.shown.value].key) else None)
      decreases if it.valid then it.shown.value + 1 else 0
    {
      ghost var x := it.shown.value;
      it.ShowsLive();
      var pair := Pair(it.Key(), it.Val());
      it.Prev();
      ExtendBackward(it.iter.data, it.sequence, pairs, x, it.shown, pair);
      assert forall p | p in pairs :: p.key > pair.key;
      pairs := pairs + [pair];
      if it.valid && it.shown.value >= x {
        KeysRise(it.iter.data, x, it.shown.value);
      }
    }
  }

  /** Over the merged sources of a database state, the live pairs are the history's values at the snapshot. */
  lemma {:induction false} LiveMatchesHistory(st: State, data: seq<Entry>, k: UserKey, v: Value, s: nat)
    requires Inv(st) && Floor(st) <= s <= st.published
    requires Sorted(data) && Contents(data) == StoreSet(st)
    ensures IsLivePair(data, s, Pair(k, v)) <==> SpecGet(st.history, k, s) == Some(v)
  {
    LiveIsValue(data, s, k, v);
    RunGetIsAnswer(data, k, s);
    CoverageAnswers(st, k, s, RunGet(data, k, s));
  }
}
