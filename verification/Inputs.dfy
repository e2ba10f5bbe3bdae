/**
 Choosing the inputs of a compaction: files of one level and the files of the next level
 that must be merged with them.
 */
module Inputs {
  import opened DbFormat
  import opened Version

  /** A user-key bound; None is unbounded. */
  type Bound = Option<UserKey>

  predicate Overlaps(f: File, lo: Bound, hi: Bound) {
    !(lo.Some? && f.Largest().user < lo.value) && !(hi.Some? && hi.value < f.Smallest().user)
  }

  predicate Within(f: File, lo: Bound, hi: Bound) {
    (lo.Some? ==> lo.value <= f.Smallest().user) && (hi.Some? ==> f.Largest().user <= hi.value)
  }

  predicate Wider(lo: Bound, hi: Bound, lo': Bound, hi': Bound) {
    && (lo.None? || (lo'.Some? && lo.value <= lo'.value))
    && (hi.None? || (hi'.Some? && hi'.value <= hi.value))
  }

  function OverlapFilter(files: seq<File>, lo: Bound, hi: Bound): (r: seq<File>)
    ensures forall f :: f in r <==> f in files && Overlaps(f, lo, hi)
  {
    if files == [] then []
    else
      var rest := OverlapFilter(files[..|files| - 1], lo, hi);
      var last := files[|files| - 1];
      assert files == files[..|files| - 1] + [last];
      if Overlaps(last, lo, hi) then rest + [last] else rest
  }

  function TotalFileSize(files: seq<File>): nat {
    if files == [] then 0 else files[0].size + TotalFileSize(files[1..])
  }

  // ---- Overlap tests and the level of a flushed memtable --------------------------------

  predicate AnyOverlap(files: seq<File>, lo: Bound, hi: Bound) {
    exists f | f in files :: Overlaps(f, lo, hi)
  }

  lemma {:induction false} SmallestRises(files: seq<File>, i: nat, j: nat)
    requires AllOk(files) && LevelSorted(files) && i <= j < |files|
    ensures files[i].Smallest().user <= files[j].Smallest().user
    ensures files[i].Largest().user <= files[j].Largest().user
  {
    assert files[i] in files && files[j] in files;
    LargestAfterSmallest(files[i]);
    LargestAfterSmallest(files[j]);
    if i < j {
      assert Before(files[i], files[j]);
    }
  }

  /** Does any file of the level overlap the user-key range? By binary search when the level is sorted. */
  method SomeFileOverlapsRange(disjointSorted: bool, files: seq<File>, lo: Bound, hi: Bound) returns (b: bool)
    requires AllOk(files) && (disjointSorted ==> LevelSorted(files))
    ensures b == AnyOverlap(files, lo, hi)
  {
    if !disjointSorted {
      var i := 0;
      while i < |files|
        invariant 0 <= i <= |files|
        invariant forall j | 0 <= j < i :: !Overlaps(files[j], lo, hi)
      {
        if Overlaps(files[i], lo, hi) {
          return true;
        }
        i := i + 1;
      }
      return false;
    }
    var index := 0;
    if lo.Some? {
      index := FindFile(files, LookupKey(lo.value, MAX_SEQUENCE));
      forall j | 0 <= j < index ensures files[j].Largest().user < lo.value {
        assert files[j] in files && files[j].entries[|files[j].entries| - 1] in files[j].entries;
      }
    }
    if index >= |files| {
      return false;
    }
    b := !(hi.Some? && hi.value < files[index].Smallest().user);
    if b {
      assert Overlaps(files[index], lo, hi);
    } else {
      forall j | index <= j < |files| ensures !Overlaps(files[j], lo, hi) {
        SmallestRises(files, index, j);
      }
    }
  }

  const MAX_MEM_COMPACT_LEVEL: nat := 2

  function PickLevelFrom(v: Levels, lo: Bound, hi: Bound, overlapLimit: int, level: nat): (r: nat)
    requires |v| == NUM_LEVELS && level <= MAX_MEM_COMPACT_LEVEL
    ensures level <= r <= MAX_MEM_COMPACT_LEVEL
    decreases MAX_MEM_COMPACT_LEVEL - level
  {
    if level == MAX_MEM_COMPACT_LEVEL || AnyOverlap(v[level + 1], lo, hi)
       || TotalFileSize(OverlapFilter(v[level + 2], lo, hi)) > overlapLimit
    then level
    else PickLevelFrom(v, lo, hi, overlapLimit, level + 1)
  }

  /** The level a flushed memtable goes to, as a function. */
  function PickLevel(v: Levels, lo: UserKey, hi: UserKey, overlapLimit: int): nat
    requires |v| == NUM_LEVELS
  {
    if AnyOverlap(v[0], Some(lo), Some(hi)) then 0 else PickLevelFrom(v, Some(lo), Some(hi), overlapLimit, 0)
  }

  lemma {:induction false} PickLevelFromAvoidsOverlap(v: Levels, lo: Bound, hi: Bound, overlapLimit: int, level: nat,
                                                      l: nat)
    requires |v| == NUM_LEVELS && level <= MAX_MEM_COMPACT_LEVEL
    requires level < l <= PickLevelFrom(v, lo, hi, overlapLimit, level)
    ensures !AnyOverlap(v[l], lo, hi)
    decreases l - level
  {
    if l > level + 1 {
      PickLevelFromAvoidsOverlap(v, lo, hi, overlapLimit, level + 1, l);
    }
  }

  /** A memtable is pushed below level 0 only past levels none of whose files it overlaps. */
  lemma {:induction false} PickLevelAvoidsOverlap(v: Levels, lo: UserKey, hi: UserKey, overlapLimit: int)
    requires |v| == NUM_LEVELS
    ensures PickLevel(v, lo, hi, overlapLimit) <= MAX_MEM_COMPACT_LEVEL
    ensures forall l | 0 <= l <= PickLevel(v, lo, hi, overlapLimit) && PickLevel(v, lo, hi, overlapLimit) > 0 ::
              !AnyOverlap(v[l], Some(lo), Some(hi))
  {
    if !AnyOverlap(v[0], Some(lo), Some(hi)) {
      forall l | 0 < l <= PickLevel(v, lo, hi, overlapLimit) ensures !AnyOverlap(v[l], Some(lo), Some(hi)) {
        PickLevelFromAvoidsOverlap(v, Some(lo), Some(hi), overlapLimit, 0, l);
      }
    }
  }

  /** The bytes of the files that overlap the range. */
  function OverlapBytes(files: seq<File>, lo: Bound, hi: Bound): nat {
    if files == [] then 0
    else (if Overlaps(files[0], lo, hi) then files[0].size else 0) + OverlapBytes(files[1..], lo, hi)
  }

  lemma {:induction false} TotalAppend(files: seq<File>, f: File)
    ensures TotalFileSize(files + [f]) == TotalFileSize(files) + f.size
  {
    if files == [] {
      assert [f][1..] == [];
    } else {
      assert (files + [f])[1..] == files[1..] + [f];
      TotalAppend(files[1..], f);
    }
  }

  lemma {:induction false} BytesAppend(files: seq<File>, f: File, lo: Bound, hi: Bound)
    ensures OverlapBytes(files + [f], lo, hi) == OverlapBytes(files, lo, hi) + if Overlaps(f, lo, hi) then f.size else 0
  {
    if files == [] {
      assert [f][1..] == [];
    } else {
      assert (files + [f])[1..] == files[1..] + [f];
      BytesAppend(files[1..], f, lo, hi);
    }
  }

  lemma {:induction false} FilterBytes(files: seq<File>, lo: Bound, hi: Bound)
    ensures TotalFileSize(OverlapFilter(files, lo, hi)) == OverlapBytes(files, lo, hi)
  {
    if files != [] {
      var init, last := files[..|files| - 1], files[|files| - 1];
      FilterBytes(init, lo, hi);
      assert files == init + [last];
      BytesAppend(init, last, lo, hi);
      TotalAppend(OverlapFilter(init, lo, hi), last);
    }
  }

  /** A table may go one level further down: nothing to overlap there, and not too many bytes in the level below. */
  predicate MayPush(v: Levels, lo: Bound, hi: Bound, overlapLimit: int, level: nat)
    requires level + 2 < |v|
  {
    !AnyOverlap(v[level + 1], lo, hi) && OverlapBytes(v[level + 2], lo, hi) <= overlapLimit
  }

  lemma {:induction false} PickLevelStep(v: Levels, lo: Bound, hi: Bound, overlapLimit: int, level: nat)
    requires |v| == NUM_LEVELS && level < MAX_MEM_COMPACT_LEVEL
    ensures PickLevelFrom(v, lo, hi, overlapLimit, level) ==
            if MayPush(v, lo, hi, overlapLimit, level) then PickLevelFrom(v, lo, hi, overlapLimit, level + 1) else level
  {
    FilterBytes(v[level + 2], lo, hi);
  }

  lemma {:induction false} PickLevelFromIsGreedy(v: Levels, lo: Bound, hi: Bound, overlapLimit: int, level: nat)
    requires |v| == NUM_LEVELS && level <= MAX_MEM_COMPACT_LEVEL
    ensures var r := PickLevelFrom(v, lo, hi, overlapLimit, level);
            && (forall l | level <= l < r :: MayPush(v, lo, hi, overlapLimit, l))
            && (r < MAX_MEM_COMPACT_LEVEL ==> !MayPush(v, lo, hi, overlapLimit, r))
    decreases MAX_MEM_COMPACT_LEVEL - level
  {
    if level < MAX_MEM_COMPACT_LEVEL {
      PickLevelStep(v, lo, hi, overlapLimit, level);
      if MayPush(v, lo, hi, overlapLimit, level) {
        PickLevelFromIsGreedy(v, lo, hi, overlapLimit, level + 1);
      }
    }
  }

  /** The table goes as far down as it may, level 0 permitting, and no further than level 2. */
  lemma {:induction false} PickLevelIsGreedy(v: Levels, lo: UserKey, hi: UserKey, overlapLimit: int)
    requires |v| == NUM_LEVELS
    ensures var r := PickLevel(v, lo, hi, overlapLimit);
            if AnyOverlap(v[0], Some(lo), Some(hi)) then r == 0
            else r <= 2 && (forall l | 0 <= l < r :: MayPush(v, Some(lo), Some(hi), overlapLimit, l))
                 && (r < 2 ==> !MayPush(v, Some(lo), Some(hi), overlapLimit, r))
  {
    PickLevelFromIsGreedy(v, Some(lo), Some(hi), overlapLimit, 0);
  }

  method PickLevelForMemTableOutput(v: Levels, lo: UserKey, hi: UserKey, overlapLimit: int) returns (level: nat)
    requires VersionInv(v)
    ensures level == PickLevel(v, lo, hi, overlapLimit)
  {
    level := 0;
    var overlap := SomeFileOverlapsRange(false, v[0], Some(lo), Some(hi));
    if !overlap {
      while level < MAX_MEM_COMPACT_LEVEL
        invariant level <= MAX_MEM_COMPACT_LEVEL
        invariant PickLevel(v, lo, hi, overlapLimit) == PickLevelFrom(v, Some(lo), Some(hi), overlapLimit, level)
      {
        DisjointIsSorted(v[level + 1]);
        overlap := SomeFileOverlapsRange(true, v[level + 1], Some(lo), Some(hi));
        if overlap {
          break;
        }
        var overlaps, _, _ := GetOverlappingInputs(level + 2, v[level + 2], Some(lo), Some(hi));
        if TotalFileSize(overlaps) > overlapLimit {
          break;
        }
        level := level + 1;
      }
    }
  }

  // ---- GetOverlappingInputs --------------------------------------------------------------

  /** Every file that overlaps the range lies inside it. */
  predicate ClosedRange(files: seq<File>, lo: Bound, hi: Bound) {
    forall f | f in files && Overlaps(f, lo, hi) :: Within(f, lo, hi)
  }

  ghost predicate CoveredBy(files: seq<File>, x: UserKey) { exists f | f in files :: MayContain(f, x) }

  function CountBelow(files: seq<File>, lo: Bound): nat {
    if files == [] then 0
    else (if lo.Some? && files[0].Smallest().user < lo.value then 1 else 0) + CountBelow(files[1..], lo)
  }

  function CountAbove(files: seq<File>, hi: Bound): nat {
    if files == [] then 0
    else (if hi.Some? && hi.value < files[0].Largest().user then 1 else 0) + CountAbove(files[1..], hi)
  }

  lemma {:induction false} CountBelowFalls(files: seq<File>, lo: UserKey, lo': UserKey)
    requires lo' <= lo
    ensures CountBelow(files, Some(lo')) <= CountBelow(files, Some(lo))
    ensures (exists f | f in files :: lo' <= f.Smallest().user < lo) ==>
              CountBelow(files, Some(lo')) < CountBelow(files, Some(lo))
  {
    if files != [] {
      assert files == [files[0]] + files[1..];
      CountBelowFalls(files[1..], lo, lo');
    }
  }

  lemma {:induction false} CountAboveFalls(files: seq<File>, hi: UserKey, hi': UserKey)
    requires hi <= hi'
    ensures CountAbove(files, Some(hi')) <= CountAbove(files, Some(hi))
    ensures (exists f | f in files :: hi < f.Largest().user <= hi') ==>
              CountAbove(files, Some(hi')) < CountAbove(files, Some(hi))
  {
    if files != [] {
      assert files == [files[0]] + files[1..];
      CountAboveFalls(files[1..], hi, hi');
    }
  }

  /** `lo..hi` lies in every closed range that contains `begin..end`. */
  ghost predicate LeastRange(files: seq<File>, begin: Bound, end: Bound, lo: Bound, hi: Bound) {
    forall lo', hi' | ClosedRange(files, lo', hi') && Wider(lo', hi', begin, end) :: Wider(lo', hi', lo, hi)
  }

  /** Between the requested range and the expanded one there are no gaps. */
  ghost predicate NoGaps(files: seq<File>, begin: Bound, end: Bound, lo: Bound, hi: Bound) {
    begin.Some? && end.Some? && lo.Some? && hi.Some? ==>
      forall x | lo.value <= x <= hi.value && !(begin.value <= x <= end.value) ::
        CoveredBy(OverlapFilter(files, lo, hi), x)
  }

  lemma {:induction false} ExpandLeast(files: seq<File>, begin: Bound, end: Bound, lo: Bound, hi: Bound, f: File)
    requires LeastRange(files, begin, end, lo, hi) && f in files && Overlaps(f, lo, hi)
    ensures lo.Some? ==> LeastRange(files, begin, end, Some(if f.Smallest().user < lo.value then
              f.Smallest().user else lo.value), hi)
    ensures hi.Some? ==> LeastRange(files, begin, end, lo, Some(if hi.value < f.Largest().user then
              f.Largest().user else hi.value))
  {
    forall lo', hi' | ClosedRange(files, lo', hi') && Wider(lo', hi', begin, end)
      ensures Wider(lo', hi', lo, hi) && Within(f, lo', hi')
    {
      assert Overlaps(f, lo', hi');
    }
  }

  lemma {:induction false} ExpandLowNoGaps(files: seq<File>, begin: Bound, end: Bound, lo: Bound, hi: Bound, f: File)
    requires NoGaps(files, begin, end, lo, hi) && f in files && f.Ok() && Overlaps(f, lo, hi) && lo.Some?
    requires f.Smallest().user < lo.value
    ensures NoGaps(files, begin, end, Some(f.Smallest().user), hi)
  {
    var lo' := Some(f.Smallest().user);
    if begin.Some? && end.Some? && hi.Some? {
      forall x | lo'.value <= x <= hi.value && !(begin.value <= x <= end.value)
        ensures CoveredBy(OverlapFilter(files, lo', hi), x)
      {
        if x < lo.value {
          assert f in OverlapFilter(files, lo', hi) && MayContain(f, x);
        } else {
          assert CoveredBy(OverlapFilter(files, lo, hi), x);
          var g :| g in OverlapFilter(files, lo, hi) && MayContain(g, x);
          assert g in OverlapFilter(files, lo', hi);
        }
      }
    }
  }

  lemma {:induction false} ExpandHighNoGaps(files: seq<File>, begin: Bound, end: Bound, lo: Bound, hi: Bound, f: File)
    requires NoGaps(files, begin, end, lo, hi) && f in files && f.Ok() && Overlaps(f, lo, hi) && hi.Some?
    requires hi.value < f.Largest().user
    ensures NoGaps(files, begin, end, lo, Some(f.Largest().user))
  {
    var hi' := Some(f.Largest().user);
    if begin.Some? && end.Some? && lo.Some? {
      forall x | lo.value <= x <= hi'.value && !(begin.value <= x <= end.value)
        ensures CoveredBy(OverlapFilter(files, lo, hi'), x)
      {
        if x > hi.value {
          assert f in OverlapFilter(files, lo, hi') && MayContain(f, x);
        } else {
          assert CoveredBy(OverlapFilter(files, lo, hi), x);
          var g :| g in OverlapFilter(files, lo, hi) && MayContain(g, x);
          assert g in OverlapFilter(files, lo, hi');
        }
      }
    }
  }

  lemma {:induction false} FilterPrefix(files: seq<File>, i: nat, lo: Bound, hi: Bound)
    requires i < |files|
    ensures OverlapFilter(files[..i + 1], lo, hi) ==
            OverlapFilter(files[..i], lo, hi) + if Overlaps(files[i], lo, hi) then [files[i]] else []
  {
    assert files[..i + 1][..i] == files[..i];
  }

  /** The range has grown from the one asked for, and no further than it must. */
  ghost predicate Grown(files: seq<File>, begin: Bound, end: Bound, lo: Bound, hi: Bound) {
    && Wider(lo, hi, begin, end) && LeastRange(files, begin, end, lo, hi) && NoGaps(files, begin, end, lo, hi)
    && lo.Some? == begin.Some? && hi.Some? == end.Some?
  }

  lemma {:induction false} GrowLow(files: seq<File>, begin: Bound, end: Bound, lo: Bound, hi: Bound, f: File)
    requires AllOk(files) && Grown(files, begin, end, lo, hi) && f in files && Overlaps(f, lo, hi)
    requires lo.Some? && f.Smallest().user < lo.value
    ensures Grown(files, begin, end, Some(f.Smallest().user), hi)
    ensures CountBelow(files, Some(f.Smallest().user)) < CountBelow(files, lo)
  {
    ExpandLeast(files, begin, end, lo, hi, f);
    ExpandLowNoGaps(files, begin, end, lo, hi, f);
    CountBelowFalls(files, lo.value, f.Smallest().user);
  }

  lemma {:induction false} GrowHigh(files: seq<File>, begin: Bound, end: Bound, lo: Bound, hi: Bound, f: File)
    requires AllOk(files) && Grown(files, begin, end, lo, hi) && f in files && Overlaps(f, lo, hi)
    requires hi.Some? && hi.value < f.Largest().user
    ensures Grown(files, begin, end, lo, Some(f.Largest().user))
    ensures CountAbove(files, Some(f.Largest().user)) < CountAbove(files, hi)
  {
    ExpandLeast(files, begin, end, lo, hi, f);
    ExpandHighNoGaps(files, begin, end, lo, hi, f);
    CountAboveFalls(files, hi.value, f.Largest().user);
  }

  /** Files outside the range leave the scan as it was. */
  lemma {:induction false} ClosedStep(files: seq<File>, i: nat, lo: Bound, hi: Bound)
    requires i < |files| && ClosedRange(files[..i], lo, hi) && (Overlaps(files[i], lo, hi) ==> Within(files[i], lo, hi))
    ensures ClosedRange(files[..i + 1], lo, hi)
  {
    assert forall g | g in files[..i + 1] :: g in files[..i] || g == files[i];
  }

  /**
   All files of the level that overlap the range. At level 0 the range grows with every file
   taken and the scan restarts, so the result is the least set that no other file overlaps.
   */
  method GetOverlappingInputs(level: nat, files: seq<File>, begin: Bound, end: Bound)
    returns (inputs: seq<File>, ghost lo: Bound, ghost hi: Bound)
    requires AllOk(files)
    ensures inputs == OverlapFilter(files, lo, hi)
    ensures level > 0 ==> lo == begin && hi == end && inputs == OverlapFilter(files, begin, end)
    ensures Wider(lo, hi, begin, end)
    ensures level == 0 ==> ClosedRange(files, lo, hi)
    ensures LeastRange(files, begin, end, lo, hi)
    ensures NoGaps(files, begin, end, lo, hi)
    ensures lo.Some? == begin.Some? && hi.Some? == end.Some?
  {
    inputs := [];
    var userBegin, userEnd := begin, end;
    var i := 0;
    while i < |files|
      invariant 0 <= i <= |files|
      invariant inputs == OverlapFilter(files[..i], userBegin, userEnd)
      invariant level > 0 ==> userBegin == begin && userEnd == end
      invariant level == 0 ==> ClosedRange(files[..i], userBegin, userEnd)
      invariant Grown(files, begin, end, userBegin, userEnd)
      decreases CountBelow(files, userBegin) + CountAbove(files, userEnd), |files| - i
    {
      var f := files[i];
      FilterPrefix(files, i, userBegin, userEnd);
      if userBegin.Some? && f.Largest().user < userBegin.value {
      } else if userEnd.Some? && userEnd.value < f.Smallest().user {
      } else {
        inputs := inputs + [f];
        if level == 0 && userBegin.Some? && f.Smallest().user < userBegin.value {
          GrowLow(files, begin, end, userBegin, userEnd, f);
          userBegin, inputs, i := Some(f.Smallest().user), [], 0;
          continue;
        } else if level == 0 && userEnd.Some? && userEnd.value < f.Largest().user {
          GrowHigh(files, begin, end, userBegin, userEnd, f);
          userEnd, inputs, i := Some(f.Largest().user), [], 0;
          continue;
        }
      }
      if level == 0 {
        ClosedStep(files, i, userBegin, userEnd);
      }
      i := i + 1;
    }
    assert files[..|files|] == files;
    lo, hi := userBegin, userEnd;
  }

  // ---- The range of a set of files, and boundary files -----------------------------------

  function HullLow(files: seq<File>): (k: IKey)
    requires files != []
    ensures exists f | f in files :: f.Smallest() == k
    ensures forall f | f in files :: !Less(f.Smallest(), k)
  {
    var last := files[|files| - 1];
    assert files == files[..|files| - 1] + [last];
    if |files| == 1 then last.Smallest()
    else
      var k := HullLow(files[..|files| - 1]);
      if Less(last.Smallest(), k) then last.Smallest() else k
  }

  function HullHigh(files: seq<File>): (k: IKey)
    requires files != []
    ensures exists f | f in files :: f.Largest() == k
    ensures forall f | f in files :: !Less(k, f.Largest())
  {
    var last := files[|files| - 1];
    assert files == files[..|files| - 1] + [last];
    if |files| == 1 then last.Largest()
    else
      var k := HullHigh(files[..|files| - 1]);
      if Less(k, last.Largest()) then last.Largest() else k
  }

  lemma {:induction false} HullIs(files: seq<File>, i: nat, j: nat)
    requires i < |files| && j < |files|
    requires forall m | 0 <= m < |files| :: !Less(files[m].Smallest(), files[i].Smallest())
    requires forall m | 0 <= m < |files| :: !Less(files[j].Largest(), files[m].Largest())
    ensures HullLow(files) == files[i].Smallest() && HullHigh(files) == files[j].Largest()
  {
    assert files[i] in files && files[j] in files;
  }

  lemma {:induction false} HullStep(files: seq<File>, f: File)
    requires files != []
    ensures HullLow(files + [f]) == if Less(f.Smallest(), HullLow(files)) then f.Smallest() else HullLow(files)
    ensures HullHigh(files + [f]) == if Less(HullHigh(files), f.Largest()) then f.Largest() else HullHigh(files)
  {
    assert (files + [f])[..|files|] == files;
  }

  method GetRange(inputs: seq<File>) returns (smallest: IKey, largest: IKey)
    requires inputs != []
    ensures smallest == HullLow(inputs) && largest == HullHigh(inputs)
  {
    smallest, largest := inputs[0].Smallest(), inputs[0].Largest();
    ghost var first, last := 0, 0;
    var i := 1;
    while i < |inputs|
      invariant 1 <= i <= |inputs| && first < i && last < i
      invariant smallest == inputs[first].Smallest() && largest == inputs[last].Largest()
      invariant forall m | 0 <= m < i :: !Less(inputs[m].Smallest(), smallest)
      invariant forall m | 0 <= m < i :: !Less(largest, inputs[m].Largest())
    {
      var f := inputs[i];
      if Less(f.Smallest(), smallest) {
        smallest, first := f.Smallest(), i;
      }
      if Less(largest, f.Largest()) {
        largest, last := f.Largest(), i;
      }
      i := i + 1;
    }
    HullIs(inputs, first, last);
  }

  /** `f` starts after `k` but at the same user key. */
  predicate IsBoundary(f: File, k: IKey) { Less(k, f.Smallest()) && f.Smallest().user == k.user }

  predicate NoBoundary(files: seq<File>, k: IKey) { forall f | f in files :: !IsBoundary(f, k) }

  method FindSmallestBoundaryFile(files: seq<File>, largest: IKey) returns (r: Option<File>)
    ensures r.None? ==> NoBoundary(files, largest)
    ensures r.Some? ==> r.value in files && IsBoundary(r.value, largest)
    ensures r.Some? ==> forall f | f in files && IsBoundary(f, largest) :: !Less(f.Smallest(), r.value.Smallest())
  {
    r := None;
    var i := 0;
    while i < |files|
      invariant 0 <= i <= |files|
      invariant r.None? ==> NoBoundary(files[..i], largest)
      invariant r.Some? ==> r.value in files && IsBoundary(r.value, largest)
      invariant r.Some? ==> forall f | f in files[..i]
                && IsBoundary(f, largest) :: !Less(f.Smallest(), r.value.Smallest())
    {
      var f := files[i];
      assert forall g | g in files[..i + 1] :: g in files[..i] || g == f;
      if IsBoundary(f, largest) {
        if r.None? || Less(f.Smallest(), r.value.Smallest()) {
          r := Some(f);
        }
      }
      i := i + 1;
    }
    assert files[..|files|] == files;
  }

  function CountAfter(files: seq<File>, k: IKey): nat {
    if files == [] then 0 else (if Less(k, files[0].Smallest()) then 1 else 0) + CountAfter(files[1..], k)
  }

  lemma {:induction false} CountAfterFalls(files: seq<File>, k: IKey, k': IKey)
    requires Less(k, k')
    ensures CountAfter(files, k') <= CountAfter(files, k)
    ensures (exists f | f in files :: Less(k, f.Smallest()) && !Less(k', f.Smallest())) ==>
              CountAfter(files, k') < CountAfter(files, k)
  {
    if files != [] {
      assert files == [files[0]] + files[1..];
      CountAfterFalls(files[1..], k, k');
    }
  }

  /** No other file of the level lies between or inside the chosen ones. */
  predicate Convex(level: seq<File>, c: seq<File>) {
    forall g | g in level && g !in c :: (forall f | f in c :: Before(g, f)) || (forall f | f in c :: Before(f, g))
  }

  /** The chosen files leave no uncovered user key between them. */
  ghost predicate Connected(c: seq<File>) {
    forall x, f, g | f in c && g in c && f.Smallest().user <= x <= g.Largest().user :: CoveredBy(c, x)
  }

  lemma {:induction false} AddBoundaryKeepsConvex(level: seq<File>, c: seq<File>, n: File)
    requires AllOk(level) && AllOk(c) && PairwiseDisjoint(level) && c != [] && Convex(level, c)
    requires n in level && IsBoundary(n, HullHigh(c))
    requires forall f | f in level && IsBoundary(f, HullHigh(c)) :: !Less(f.Smallest(), n.Smallest())
    ensures Convex(level, c + [n])
  {
    var k := HullHigh(c);
    var top :| top in c && top.Largest() == k;
    forall g | g in level && g !in c + [n]
      ensures (forall f | f in c + [n] :: Before(g, f)) || (forall f | f in c + [n] :: Before(f, g))
    {
      LargestAfterSmallest(g);
      LargestAfterSmallest(n);
      LargestAfterSmallest(top);
      assert Disjoint(g, n);
      if forall f | f in c :: Before(g, f) {
        assert Before(g, top);
        assert Before(g, n);
      } else {
        assert forall f | f in c :: Before(f, g);
        assert Before(top, g);
        if Before(g, n) {
          assert IsBoundary(g, k);
          assert false;
        }
        assert Before(n, g);
      }
    }
  }

  lemma {:induction false} AddBoundaryKeepsConnected(base: seq<File>, c: seq<File>, n: File)
    requires AllOk(base) && AllOk(c) && n.Ok() && c != [] && Connected(base + c)
    requires IsBoundary(n, HullHigh(c))
    ensures Connected(base + (c + [n]))
  {
    var top :| top in c && top.Largest() == HullHigh(c);
    LargestAfterSmallest(top);
    LargestAfterSmallest(n);
    forall x, f, g | f in base + (c + [n]) && g in base + (c + [n]) && f.Smallest().user <= x <= g.Largest().user
      ensures CoveredBy(base + (c + [n]), x)
    {
      if MayContain(n, x) {
        assert n in base + (c + [n]);
      } else {
        var f' := if f == n then top else f;
        var g' := if g == n then top else g;
        assert f' in base + c && g' in base + c;
        assert CoveredBy(base + c, x);
        var h :| h in base + c && MayContain(h, x);
        assert h in base + (c + [n]);
      }
    }
  }

  /** What extending `chosen` by boundary files keeps. */
  ghost predicate Extends(level: seq<File>, base: seq<File>, chosen: seq<File>, r: seq<File>) {
    && chosen <= r && r != []
    && (forall f | f in r :: f in level)
    && (PairwiseDisjoint(level) && Convex(level, chosen) ==> Convex(level, r))
    && (Connected(base + chosen) ==> Connected(base + r))
  }

  lemma {:induction false} BoundaryStep(level: seq<File>, base: seq<File>, chosen: seq<File>, r: seq<File>, n: File)
    requires AllOk(level) && AllOk(base) && Extends(level, base, chosen, r)
    requires n in level && IsBoundary(n, HullHigh(r))
    requires forall f | f in level && IsBoundary(f, HullHigh(r)) :: !Less(f.Smallest(), n.Smallest())
    ensures Extends(level, base, chosen, r + [n])
    ensures HullHigh(r + [n]) == n.Largest()
    ensures CountAfter(level, n.Largest()) < CountAfter(level, HullHigh(r))
  {
    LargestAfterSmallest(n);
    HullStep(r, n);
    if PairwiseDisjoint(level) && Convex(level, r) {
      AddBoundaryKeepsConvex(level, r, n);
    }
    if Connected(base + r) {
      AddBoundaryKeepsConnected(base, r, n);
    }
    CountAfterFalls(level, HullHigh(r), n.Largest());
  }

  /** `n` is the boundary file that comes first after `k`. */
  predicate NextBoundary(level: seq<File>, k: IKey, n: File) {
    n in level && IsBoundary(n, k) && forall f | f in level && IsBoundary(f, k) :: !Less(f.Smallest(), n.Smallest())
  }

  /** The chosen files, and after them one boundary file after another. */
  ghost predicate Chained(level: seq<File>, chosen: seq<File>, r: seq<File>)
    decreases |r|
  {
    chosen != [] && chosen <= r &&
    (r == chosen || (Chained(level, chosen, r[..|r| - 1]) && NextBoundary(level, HullHigh(r[..|r| - 1]), r[|r| - 1])))
  }

  lemma {:induction false} ChainedMore(level: seq<File>, chosen: seq<File>, r: seq<File>, n: File)
    requires Chained(level, chosen, r) && NextBoundary(level, HullHigh(r), n)
    ensures Chained(level, chosen, r + [n])
  {
    assert (r + [n])[..|r|] == r;
  }

  /**
   Extend the chosen files by boundary files until none is left. Stops because the largest
   key strictly rises. Convexity, and connectedness with any `base`, are kept.
   */
  method AddBoundaryInputs(level: seq<File>, chosen: seq<File>, ghost base: seq<File>) returns (r: seq<File>)
    requires AllOk(level) && AllOk(base) && (forall f | f in chosen :: f in level)
    ensures chosen == [] ==> r == []
    ensures chosen != [] ==> Extends(level, base, chosen, r) && NoBoundary(level, HullHigh(r))
    ensures chosen != [] && NoBoundary(level, HullHigh(chosen)) ==> r == chosen
    ensures chosen != [] ==> Chained(level, chosen, r)
  {
    r := chosen;
    if chosen == [] {
      return;
    }
    var _, largest := GetRange(chosen);
    var searching := true;
    while searching
      invariant Extends(level, base, chosen, r)
      invariant largest == HullHigh(r)
      invariant NoBoundary(level, HullHigh(chosen)) ==> r == chosen
      invariant Chained(level, chosen, r)
      invariant !searching ==> NoBoundary(level, largest)
      decreases if searching then 1 else 0, CountAfter(level, largest)
    {
      var n := FindSmallestBoundaryFile(level, largest);
      if n.Some? {
        BoundaryStep(level, base, chosen, r, n.value);
        ChainedMore(level, chosen, r, n.value);
        r := r + [n.value];
        largest := n.value.Largest();
      } else {
        searching := false;
      }
    }
  }
}
