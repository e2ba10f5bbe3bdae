/**
 The merging iterator: several sorted children, no key in two of them, walked in either
 direction. Its position moves exactly as a single cursor over the sorted merge would.
 */
module Merger {
  import opened DbFormat
  import opened Iterator
  import opened Guard

  /** An upper part of the key space. */
  datatype Bound = Everything | From(t: IKey) | Past(t: IKey) | Nothing

  predicate Up(b: Bound, k: IKey) {
    match b
    case Everything => true
    case From(t) => !Less(k, t)
    case Past(t) => Less(t, k)
    case Nothing => false
  }

  /** The first index of the run inside the upper part. */
  function FirstUp(run: seq<Entry>, b: Bound): (i: nat)
    ensures i <= |run|
    ensures forall j | 0 <= j < i :: !Up(b, run[j].IK())
    ensures i < |run| ==> Up(b, run[i].IK())
  {
    if run == [] || Up(b, run[0].IK()) then 0 else 1 + FirstUp(run[1..], b)
  }

  lemma {:induction false} UpIsSuffix(run: seq<Entry>, b: Bound, i: nat, j: nat)
    requires Sorted(run) && i <= j < |run| && Up(b, run[i].IK())
    ensures Up(b, run[j].IK())
  {
    assert i == j || Less(run[i].IK(), run[j].IK());
  }

  lemma {:induction false} FirstUpIs(run: seq<Entry>, b: Bound, i: nat)
    requires Sorted(run) && i <= |run|
    requires i < |run| ==> Up(b, run[i].IK())
    requires i > 0 ==> !Up(b, run[i - 1].IK())
    ensures FirstUp(run, b) == i
  {
    var n := FirstUp(run, b);
    if n < i {
      UpIsSuffix(run, b, n, i - 1);
    }
  }

  predicate FromHere(run: seq<Entry>, b: Bound, pos: Option<nat>) {
    pos == if FirstUp(run, b) < |run| then Some(FirstUp(run, b)) else None
  }

  predicate UpToHere(run: seq<Entry>, b: Bound, pos: Option<nat>) {
    pos == if FirstUp(run, b) > 0 then Some(FirstUp(run, b) - 1) else None
  }

  lemma {:induction false} SeekIsFrom(run: seq<Entry>, t: IKey)
    requires Sorted(run)
    ensures SeekIndex(run, t) == FirstUp(run, From(t))
  {
    var i := SeekIndex(run, t);
    FirstUpIs(run, From(t), i);
  }

  /** Stepping past or before an entry of the run. */
  lemma {:induction false} PastEntry(run: seq<Entry>, i: nat)
    requires Sorted(run) && i < |run|
    ensures FirstUp(run, Past(run[i].IK())) == i + 1
    ensures FirstUp(run, From(run[i].IK())) == i
  {
    if i + 1 < |run| {
      assert Less(run[i].IK(), run[i + 1].IK());
    }
    if i > 0 {
      assert Less(run[i - 1].IK(), run[i].IK());
    }
    FirstUpIs(run, Past(run[i].IK()), i + 1);
    FirstUpIs(run, From(run[i].IK()), i);
  }

  /** A key that the run does not hold splits it the same way whether the bound includes it or not. */
  lemma {:induction false} AbsentKey(run: seq<Entry>, t: IKey)
    requires Sorted(run) && forall e | e in run :: e.IK() != t
    ensures FirstUp(run, From(t)) == FirstUp(run, Past(t))
  {
    var i := FirstUp(run, From(t));
    assert i < |run| ==> run[i] in run;
    FirstUpIs(run, Past(t), i);
  }

  // ---- Merged runs, as values ------------------------------------------------------------

  type Runs = seq<seq<Entry>>

  ghost predicate InRuns(runs: Runs, e: Entry) { exists i | 0 <= i < |runs| :: e in runs[i] }

  /** `all` is the sorted merge of sorted runs without common keys. */
  ghost predicate MergeOf(runs: Runs, all: seq<Entry>) {
    && Sorted(all) && (forall i | 0 <= i < |runs| :: Sorted(runs[i]))
    && (forall e :: e in all <==> InRuns(runs, e))
    && (forall i, j | 0 <= i < j < |runs| :: NoCommonKey(runs[i], runs[j]))
  }

  predicate NoCommonKey(a: seq<Entry>, b: seq<Entry>) { forall x, y | x in a && y in b :: x.IK() != y.IK() }

  /** A run standing at its first upper entry stands at or before every upper entry it has. */
  lemma {:induction false} FromHereFirst(run: seq<Entry>, b: Bound, pos: Option<nat>, j: nat)
    requires Sorted(run) && FromHere(run, b, pos) && j < |run| && Up(b, run[j].IK())
    ensures pos.Some? && pos.value <= j && !Less(run[j].IK(), run[pos.value].IK())
  {
    assert pos.value == j || Less(run[pos.value].IK(), run[j].IK());
  }

  lemma {:induction false} UpToHereLast(run: seq<Entry>, b: Bound, pos: Option<nat>, j: nat)
    requires Sorted(run) && UpToHere(run, b, pos) && j < |run| && !Up(b, run[j].IK())
    ensures pos.Some? && j <= pos.value && !Less(run[pos.value].IK(), run[j].IK())
  {
    var n := FirstUp(run, b);
    if n <= j {
      UpIsSuffix(run, b, n, j);
    }
    assert pos.value == j || Less(run[j].IK(), run[pos.value].IK());
  }

  /** `x` is in the upper part and no upper entry is smaller: it is the first upper entry of the merge. */
  lemma {:induction false} LeastUpIsFirst(all: seq<Entry>, b: Bound, x: Entry)
    requires Sorted(all) && x in all && Up(b, x.IK()) && forall e | e in all && Up(b, e.IK()) :: !Less(e.IK(), x.IK())
    ensures FirstUp(all, b) < |all| && all[FirstUp(all, b)] == x
  {
    var n := FirstUp(all, b);
    var m :| 0 <= m < |all| && all[m] == x;
    assert forall i | 0 <= i < m :: Less(all[i].IK(), x.IK());
    assert n < |all| ==> all[n] in all;
  }

  lemma {:induction false} GreatestDownIsLast(all: seq<Entry>, b: Bound, x: Entry)
    requires Sorted(all) && x in all && !Up(b, x.IK()) && forall e | e in all && !Up(b, e.IK()) :: !Less(x.IK(), e.IK())
    ensures FirstUp(all, b) > 0 && all[FirstUp(all, b) - 1] == x
  {
    var n := FirstUp(all, b);
    var m :| 0 <= m < |all| && all[m] == x;
    if n <= m {
      UpIsSuffix(all, b, n, m);
    }
    assert forall i | m < i < |all| :: Less(x.IK(), all[i].IK());
    assert n > 0 ==> all[n - 1] in all;
  }

  predicate StandFrom(runs: Runs, b: Bound, at: seq<Option<nat>>) {
    |at| == |runs| && forall i | 0 <= i < |runs| :: FromHere(runs[i], b, at[i])
  }

  predicate StandUpTo(runs: Runs, b: Bound, at: seq<Option<nat>>) {
    |at| == |runs| && forall i | 0 <= i < |runs| :: UpToHere(runs[i], b, at[i])
  }

  predicate PosOk(runs: Runs, at: seq<Option<nat>>) {
    |at| == |runs| && forall i | 0 <= i < |runs| :: at[i].Some? ==> at[i].value < |runs[i]|
  }

  predicate Smallest(runs: Runs, at: seq<Option<nat>>, n: nat, c: Option<nat>)
    requires PosOk(runs, at) && n <= |runs|
  {
    && (c.None? ==> forall j | 0 <= j < n :: at[j].None?)
    && (c.Some? ==> c.value < n && at[c.value].Some?
                    && forall j | 0 <= j < n && at[j].Some? ::
                         !Less(runs[j][at[j].value].IK(), runs[c.value][at[c.value].value].IK()))
  }

  predicate Largest(runs: Runs, at: seq<Option<nat>>, n: nat, c: Option<nat>)
    requires PosOk(runs, at) && n <= |runs|
  {
    && (c.None? ==> forall j | n <= j < |runs| :: at[j].None?)
    && (c.Some? ==> n <= c.value < |runs| && at[c.value].Some?
                    && forall j | n <= j < |runs| && at[j].Some? ::
                         !Less(runs[c.value][at[c.value].value].IK(), runs[j][at[j].value].IK()))
  }

  /** The smallest of the entries the runs stand at is the first upper entry of the merge. */
  lemma {:induction false} SmallestIsFirst(runs: Runs, all: seq<Entry>, b: Bound, at: seq<Option<nat>>, c: Option<nat>)
    requires MergeOf(runs, all) && PosOk(runs, at) && StandFrom(runs, b, at) && Smallest(runs, at, |runs|, c)
    ensures c.Some? <==> FirstUp(all, b) < |all|
    ensures c.Some? ==> all[FirstUp(all, b)] == runs[c.value][at[c.value].value]
  {
    forall e | e in all && Up(b, e.IK())
      ensures c.Some? && !Less(e.IK(), runs[c.value][at[c.value].value].IK())
    {
      assert InRuns(runs, e);
      var i :| 0 <= i < |runs| && e in runs[i];
      var j :| 0 <= j < |runs[i]| && runs[i][j] == e;
      FromHereFirst(runs[i], b, at[i], j);
    }
    if c.Some? {
      var x := runs[c.value][at[c.value].value];
      assert FromHere(runs[c.value], b, at[c.value]) && x in runs[c.value] && InRuns(runs, x);
      LeastUpIsFirst(all, b, x);
    }
    assert FirstUp(all, b) < |all| ==> all[FirstUp(all, b)] in all;
  }

  lemma {:induction false} LargestIsLast(runs: Runs, all: seq<Entry>, b: Bound, at: seq<Option<nat>>, c: Option<nat>)
    requires MergeOf(runs, all) && PosOk(runs, at) && StandUpTo(runs, b, at) && Largest(runs, at, 0, c)
    ensures c.Some? <==> FirstUp(all, b) > 0
    ensures c.Some? ==> all[FirstUp(all, b) - 1] == runs[c.value][at[c.value].value]
  {
    forall e | e in all && !Up(b, e.IK())
      ensures c.Some? && !Less(runs[c.value][at[c.value].value].IK(), e.IK())
    {
      assert InRuns(runs, e);
      var i :| 0 <= i < |runs| && e in runs[i];
      var j :| 0 <= j < |runs[i]| && runs[i][j] == e;
      UpToHereLast(runs[i], b, at[i], j);
    }
    if c.Some? {
      var x := runs[c.value][at[c.value].value];
      assert UpToHere(runs[c.value], b, at[c.value]) && x in runs[c.value] && InRuns(runs, x);
      GreatestDownIsLast(all, b, x);
    }
    assert FirstUp(all, b) > 0 ==> all[FirstUp(all, b) - 1] in all;
  }

  /** Keys of one run are absent from the others. */
  lemma {:induction false} OthersLackKey(runs: Runs, all: seq<Entry>, c: nat, i: nat, x: Entry)
    requires MergeOf(runs, all) && c < |runs| && i < |runs| && i != c && x in runs[c]
    ensures FirstUp(runs[i], From(x.IK())) == FirstUp(runs[i], Past(x.IK()))
  {
    assert if i < c then NoCommonKey(runs[i], runs[c]) else NoCommonKey(runs[c], runs[i]);
    AbsentKey(runs[i], x.IK());
  }

  /** If `x` is the first merged entry of the upper part, a run without it splits at `x` as at the part. */
  lemma {:induction false} SameSplit(runs: Runs, all: seq<Entry>, b: Bound, x: Entry, i: nat)
    requires MergeOf(runs, all) && i < |runs|
    requires FirstUp(all, b) < |all| && all[FirstUp(all, b)] == x
    ensures FirstUp(runs[i], b) == FirstUp(runs[i], From(x.IK()))
  {
    var n := FirstUp(runs[i], b);
    PastEntry(all, FirstUp(all, b));
    if n < |runs[i]| {
      MergeAgrees(runs, all, b, x, i, n);
    }
    if n > 0 {
      MergeAgrees(runs, all, b, x, i, n - 1);
    }
    FirstUpIs(runs[i], From(x.IK()), n);
  }

  lemma {:induction false} MergeAgrees(runs: Runs, all: seq<Entry>, b: Bound, x: Entry, i: nat, j: nat)
    requires MergeOf(runs, all) && i < |runs| && j < |runs[i]|
    requires FirstUp(all, b) == FirstUp(all, From(x.IK()))
    ensures Up(b, runs[i][j].IK()) <==> Up(From(x.IK()), runs[i][j].IK())
  {
    assert InRuns(runs, runs[i][j]);
    var m :| 0 <= m < |all| && all[m] == runs[i][j];
    var n := FirstUp(all, b);
    if n <= m {
      UpIsSuffix(all, b, n, m);
      UpIsSuffix(all, From(x.IK()), n, m);
    }
  }

  /** The same seen from below: `x` is the last merged entry under the part. */
  lemma {:induction false} SameSplitDown(runs: Runs, all: seq<Entry>, b: Bound, x: Entry, i: nat)
    requires MergeOf(runs, all) && i < |runs|
    requires FirstUp(all, b) > 0 && all[FirstUp(all, b) - 1] == x
    ensures FirstUp(runs[i], b) == FirstUp(runs[i], Past(x.IK()))
  {
    var n := FirstUp(runs[i], b);
    PastEntry(all, FirstUp(all, b) - 1);
    if n < |runs[i]| {
      MergeAgreesDown(runs, all, b, x, i, n);
    }
    if n > 0 {
      MergeAgreesDown(runs, all, b, x, i, n - 1);
    }
    FirstUpIs(runs[i], Past(x.IK()), n);
  }

  lemma {:induction false} MergeAgreesDown(runs: Runs, all: seq<Entry>, b: Bound, x: Entry, i: nat, j: nat)
    requires MergeOf(runs, all) && i < |runs| && j < |runs[i]|
    requires FirstUp(all, b) == FirstUp(all, Past(x.IK()))
    ensures Up(b, runs[i][j].IK()) <==> Up(Past(x.IK()), runs[i][j].IK())
  {
    assert InRuns(runs, runs[i][j]);
    var m :| 0 <= m < |all| && all[m] == runs[i][j];
    var n := FirstUp(all, b);
    if n <= m {
      UpIsSuffix(all, b, n, m);
      UpIsSuffix(all, Past(x.IK()), n, m);
    }
  }

  // ---- The iterator object ---------------------------------------------------------------

  method SeekChild(child: Iter, t: IKey)
    requires child.Ok()
    modifies child
    ensures child.Ok() && FromHere(child.data, From(t), child.pos)
  {
    child.Seek(t);
    SeekIsFrom(child.data, t);
  }

  method PositionAfter(child: Iter, k: IKey)
    requires child.Ok()
    modifies child
    ensures child.Ok() && FromHere(child.data, Past(k), child.pos)
  {
    child.Seek(k);
    SeekIsFrom(child.data, k);
    if child.Valid() && child.Current().IK() == k {
      PastEntry(child.data, child.pos.value);
      child.Next();
    } else {
      ghost var i := SeekIndex(child.data, k);
      assert forall j | 0 <= j < i :: Less(child.data[j].IK(), k);
      FirstUpIs(child.data, Past(k), i);
    }
  }

  method PositionBefore(child: Iter, k: IKey)
    requires child.Ok()
    modifies child
    ensures child.Ok() && UpToHere(child.data, From(k), child.pos)
  {
    child.Seek(k);
    SeekIsFrom(child.data, k);
    if child.Valid() {
      child.Prev();
    } else {
      child.SeekToLast();
    }
  }

  /** A marker for the children whose position a proof looks at. */
  predicate Placed(i: nat) { i >= 0 }

  class MergingIterator {
    const children: seq<Iter>
    ghost const all: seq<Entry>
    var current: Option<nat>
    var forward: bool
    ghost var shown: Option<nat>    // position in the merged sequence

    ghost function Data(): Runs { seq(|children|, i requires 0 <= i < |children| => children[i].data) }

    ghost function At(): seq<Option<nat>>
      reads children
    {
      seq(|children|, i requires 0 <= i < |children| reads children => children[i].pos)
    }

    /** `all` is the merge of the children. */
    ghost predicate Merged() { forall n | Unfolded(n) :: MergeOf(Data(), all) }

    ghost predicate Ok()
      reads children
    {
      && (forall i, j | 0 <= i < j < |children| :: children[i] != children[j])
      && (forall i | 0 <= i < |children| :: children[i].Ok())
      && Merged()
    }

    /** The current child stands at the entry that is shown. */
    ghost predicate CurrentOk()
      reads this, children
    {
      && current.Some? == shown.Some?
      && (current.Some? ==>
            && current.value < |children| && shown.value < |all| && children[current.value].Ok()
            && children[current.value].Valid() && children[current.value].Current() == all[shown.value])
    }

    /** Every child but the current one stands where the direction requires. */
    ghost predicate OthersOk(x: Entry)
      reads this, children
    {
      forall i: nat {:trigger Placed(i)} | Placed(i) && i < |children| && current != Some(i) ::
        if forward then FromHere(children[i].data, Past(x.IK()), children[i].pos)
        else UpToHere(children[i].data, From(x.IK()), children[i].pos)
    }

    ghost predicate OthersAfter(c: nat, k: IKey)
      reads children
    {
      forall i: nat {:trigger Placed(i)} | Placed(i) && i < |children| && i != c ::
        FromHere(children[i].data, Past(k), children[i].pos)
    }

    ghost predicate OthersBefore(c: nat, k: IKey)
      reads children
    {
      forall i: nat {:trigger Placed(i)} | Placed(i) && i < |children| && i != c ::
        UpToHere(children[i].data, From(k), children[i].pos)
    }

    ghost predicate Inv()
      reads this, children
    {
      Ok() && CurrentOk() && (shown.Some? ==> OthersOk(all[shown.value]))
    }

    constructor (children: seq<Iter>, ghost all: seq<Entry>)
      requires forall i | 0 <= i < |children| :: children[i].Ok()
      requires forall i, j | 0 <= i < j < |children| :: children[i] != children[j]
      requires MergeOf(seq(|children|, i requires 0 <= i < |children| => children[i].data), all)
      ensures Inv() && shown == None && this.children == children && this.all == all
    {
      this.children, this.all := children, all;
      current, forward, shown := None, true, None;
    }

    lemma {:induction false} AllPastEntry(i: nat)
      requires Merged() && i < |all|
      ensures FirstUp(all, Past(all[i].IK())) == i + 1 && FirstUp(all, From(all[i].IK())) == i
    {
      assert Unfolded(0);
      PastEntry(all, i);
    }

    lemma {:induction false} AllSeekIsFrom(t: IKey)
      requires Merged()
      ensures SeekIndex(all, t) == FirstUp(all, From(t))
    {
      assert Unfolded(0);
      SeekIsFrom(all, t);
    }

    method FindSmallest(ghost b: Bound)
      requires Ok() && forall i | 0 <= i < |children| :: FromHere(children[i].data, b, children[i].pos)
      modifies `current, `shown
      ensures CurrentOk() && FromHere(all, b, shown)
    {
      var smallest: Option<nat> := None;
      for i := 0 to |children|
        invariant smallest.None? ==> forall j | 0 <= j < i :: children[j].pos.None?
        invariant smallest.Some? ==> smallest.value < |children| && children[smallest.value].Valid()
        invariant smallest.Some? ==> forall j | 0 <= j < i && children[j].Valid() ::
                                       !Less(children[j].Current().IK(), children[smallest.value].Current().IK())
      {
        if children[i].Valid() {
          if smallest.None? || Less(children[i].Current().IK(), children[smallest.value].Current().IK()) {
            smallest := Some(i);
          }
        }
      }
      assert Unfolded(0);
      SmallestIsFirst(Data(), all, b, At(), smallest);
      current := smallest;
      shown := if smallest.Some? then Some(FirstUp(all, b)) else None;
    }

    method FindLargest(ghost b: Bound)
      requires Ok() && forall i | 0 <= i < |children| :: UpToHere(children[i].data, b, children[i].pos)
      modifies `current, `shown
      ensures CurrentOk() && UpToHere(all, b, shown)
    {
      var largest: Option<nat> := None;
      for i := |children| downto 0
        invariant largest.None? ==> forall j | i <= j < |children| :: children[j].pos.None?
        invariant largest.Some? ==> largest.value < |children| && children[largest.value].Valid()
        invariant largest.Some? ==> forall j | i <= j < |children| && children[j].Valid() ::
                                      !Less(children[largest.value].Current().IK(), children[j].Current().IK())
      {
        if children[i].Valid() {
          if largest.None? || Less(children[largest.value].Current().IK(), children[i].Current().IK()) {
            largest := Some(i);
          }
        }
      }
      assert Unfolded(0);
      LargestIsLast(Data(), all, b, At(), largest);
      current := largest;
      shown := if largest.Some? then Some(FirstUp(all, b) - 1) else None;
    }

    /** Once the smallest is found, the children stand as moving forward requires. */
    lemma {:induction false} ForwardSettled(b: Bound)
      requires Ok() && CurrentOk() && forward && FromHere(all, b, shown)
      requires forall i | 0 <= i < |children| :: FromHere(children[i].data, b, children[i].pos)
      ensures Inv()
    {
      assert Unfolded(0);
      if shown.Some? {
        var x := all[shown.value];
        forall i | 0 <= i < |children| && current != Some(i)
          ensures FromHere(children[i].data, Past(x.IK()), children[i].pos)
        {
          assert x in Data()[current.value];
          OthersLackKey(Data(), all, current.value, i, x);
          SameSplit(Data(), all, b, x, i);
        }
      }
    }

    lemma {:induction false} BackwardSettled(b: Bound)
      requires Ok() && CurrentOk() && !forward && UpToHere(all, b, shown)
      requires forall i | 0 <= i < |children| :: UpToHere(children[i].data, b, children[i].pos)
      ensures Inv()
    {
      assert Unfolded(0);
      if shown.Some? {
        var x := all[shown.value];
        forall i | 0 <= i < |children| && current != Some(i)
          ensures UpToHere(children[i].data, From(x.IK()), children[i].pos)
        {
          assert x in Data()[current.value];
          OthersLackKey(Data(), all, current.value, i, x);
          SameSplitDown(Data(), all, b, x, i);
        }
      }
    }

    method SeekToFirst()
      requires Inv()
      modifies this, children
      ensures Inv() && shown == if all == [] then None else Some(0)
    {
      for i := 0 to |children|
        invariant Ok()
        invariant forall j | 0 <= j < i :: FromHere(children[j].data, Everything, children[j].pos)
      {
        children[i].SeekToFirst();
      }
      FindSmallest(Everything);
      forward := true;
      ForwardSettled(Everything);
    }

    method SeekToLast()
      requires Inv()
      modifies this, children
      ensures Inv() && shown == if all == [] then None else Some(|all| - 1)
    {
      for i := 0 to |children|
        invariant Ok()
        invariant forall j | 0 <= j < i :: UpToHere(children[j].data, Nothing, children[j].pos)
      {
        children[i].SeekToLast();
      }
      FindLargest(Nothing);
      forward := false;
      BackwardSettled(Nothing);
    }

    method Seek(t: IKey)
      requires Inv()
      modifies this, children
      ensures Inv() && shown == if SeekIndex(all, t) < |all| then Some(SeekIndex(all, t)) else None
    {
      for i := 0 to |children|
        invariant Ok()
        invariant forall j | 0 <= j < i :: FromHere(children[j].data, From(t), children[j].pos)
      {
        SeekChild(children[i], t);
      }
      FindSmallest(From(t));
      forward := true;
      ForwardSettled(From(t));
      AllSeekIsFrom(t);
    }

    method TurnForward(c: nat, k: IKey)
      requires Ok() && CurrentOk() && current == Some(c)
      modifies this`forward, children
      ensures Ok() && CurrentOk() && forward
      ensures OthersAfter(c, k)
    {
      for i := 0 to |children|
        invariant Ok() && children[c].pos == old(children[c].pos)
        invariant forall j | 0 <= j < i && j != c :: FromHere(children[j].data, Past(k), children[j].pos)
      {
        if current != Some(i) {
          PositionAfter(children[i], k);
        }
      }
      forward := true;
    }

    method TurnBackward(c: nat, k: IKey)
      requires Ok() && CurrentOk() && current == Some(c)
      modifies this`forward, children
      ensures Ok() && CurrentOk() && !forward
      ensures OthersBefore(c, k)
    {
      for i := 0 to |children|
        invariant Ok() && children[c].pos == old(children[c].pos)
        invariant forall j | 0 <= j < i && j != c :: UpToHere(children[j].data, From(k), children[j].pos)
      {
        if current != Some(i) {
          PositionBefore(children[i], k);
        }
      }
      forward := false;
    }

    /** The current child moves past its key, and so every child stands past it. */
    method PassForward(c: nat, k: IKey)
      requires Ok() && c < |children| && children[c].Valid() && children[c].Current().IK() == k && OthersAfter(c, k)
      modifies children
      ensures Ok() && forall i | 0 <= i < |children| :: FromHere(children[i].data, Past(k), children[i].pos)
    {
      forall i: nat | i < |children| && i != c ensures FromHere(children[i].data, Past(k), children[i].pos) {
        assert Placed(i);
      }
      PastEntry(children[c].data, children[c].pos.value);
      children[c].Next();
    }

    method PassBackward(c: nat, k: IKey)
      requires Ok() && c < |children| && children[c].Valid() && children[c].Current().IK() == k && OthersBefore(c, k)
      modifies children
      ensures Ok() && forall i | 0 <= i < |children| :: UpToHere(children[i].data, From(k), children[i].pos)
    {
      forall i: nat | i < |children| && i != c ensures UpToHere(children[i].data, From(k), children[i].pos) {
        assert Placed(i);
      }
      PastEntry(children[c].data, children[c].pos.value);
      children[c].Prev();
    }

    method StepForward(c: nat, k: IKey)
      requires Ok() && CurrentOk() && forward && current == Some(c) && all[shown.value].IK() == k
      requires OthersAfter(c, k)
      modifies this, children
      ensures Inv() && shown == if old(shown).value + 1 < |all| then Some(old(shown).value + 1) else None
    {
      AllPastEntry(shown.value);
      PassForward(c, k);
      FindSmallest(Past(k));
      ForwardSettled(Past(k));
    }

    method StepBackward(c: nat, k: IKey)
      requires Ok() && CurrentOk() && !forward && current == Some(c) && all[shown.value].IK() == k
      requires OthersBefore(c, k)
      modifies this, children
      ensures Inv() && shown == if old(shown).value > 0 then Some(old(shown).value - 1) else None
    {
      AllPastEntry(shown.value);
      PassBackward(c, k);
      FindLargest(From(k));
      BackwardSettled(From(k));
    }

    method Next()
      requires Inv() && shown.Some?
      modifies this, children
      ensures Inv() && shown == if old(shown).value + 1 < |all| then Some(old(shown).value + 1) else None
    {
      if forward {
        StepForward(current.value, children[current.value].Current().IK());
      } else {
        TurnAndNext();
      }
    }

    method TurnAndNext()
      requires Ok() && CurrentOk() && shown.Some?
      modifies this, children
      ensures Inv() && shown == if old(shown).value + 1 < |all| then Some(old(shown).value + 1) else None
    {
      var c := current.value;
      var k := children[c].Current().IK();
      TurnForward(c, k);
      StepForward(c, k);
    }

    method Prev()
      requires Inv() && shown.Some?
      modifies this, children
      ensures Inv() && shown == if old(shown).value > 0 then Some(old(shown).value - 1) else None
    {
      if forward {
        TurnAndPrev();
      } else {
        StepBackward(current.value, children[current.value].Current().IK());
      }
    }

    method TurnAndPrev()
      requires Ok() && CurrentOk() && shown.Some?
      modifies this, children
      ensures Inv() && shown == if old(shown).value > 0 then Some(old(shown).value - 1) else None
    {
      var c := current.value;
      var k := children[c].Current().IK();
      assert all[shown.value].IK() == k;
      TurnBackward(c, k);
      StepBackward(c, k);
    }
  }
}
