/**
 Picking a compaction. The inputs chosen from a level and from the next one are closed:
 what stays behind in the upper level is newer, and what stays behind in the lower level
 lies wholly before the inputs or wholly after them in user keys.
 */
module Picking {
  import opened DbFormat
  import opened Version
  import opened Inputs

  predicate Outside(g: File, inputs: seq<File>) {
    (forall f | f in inputs :: Before(g, f)) || (forall f | f in inputs :: f.Largest().user < g.Smallest().user)
  }

  /** Inputs of two neighbouring levels; what stays behind in the upper one is newer. */
  ghost predicate Chosen(v: Levels, level: nat, in0: seq<File>, in1: seq<File>) {
    && |v| == NUM_LEVELS && level + 1 < NUM_LEVELS && in0 != []
    && (forall f | f in in0 :: f in v[level])
    && (forall f | f in in1 :: f in v[level + 1])
    && (forall g, f | g in v[level] && g !in in0 && f in in0 :: NewerFile(g, f))
  }

  ghost predicate Selected(v: Levels, level: nat, in0: seq<File>, in1: seq<File>) {
    Chosen(v, level, in0, in1) && forall g | g in v[level + 1] && g !in in1 :: Outside(g, in0 + in1)
  }

  /** What stays behind in the lower level meets no output, and is newer where it shares a user key with an input. */
  ghost predicate Clear(v: Levels, level: nat, in0: seq<File>, in1: seq<File>, outs: seq<File>)
    requires level + 1 < |v|
  {
    forall g | g in v[level + 1] && g !in in1 ::
      (forall f | f in in0 + in1 :: NewerFile(g, f)) && forall o | o in outs :: Disjoint(g, o)
  }

  /** No other file of the level overlaps the user-key range of the chosen ones. */
  predicate ClosedHull(files: seq<File>, c: seq<File>) {
    c == [] || forall g | g in files && g !in c :: !Overlaps(g, Some(HullLow(c).user), Some(HullHigh(c).user))
  }

  /** How the upper inputs must sit in their level before boundary files are added. */
  predicate UpperOk(v: Levels, level: nat, c: seq<File>)
    requires level < |v|
  {
    && c != [] && (forall f | f in c :: f in v[level])
    && if level == 0 then ClosedHull(v[0], c) else Convex(v[level], c)
  }

  lemma {:induction false} HullBounds(c: seq<File>, f: File)
    requires f in c && f.Ok()
    ensures HullLow(c).user <= f.Smallest().user <= f.Largest().user <= HullHigh(c).user
  {
    LargestAfterSmallest(f);
  }

  lemma {:induction false} UpperIsNewer(v: Levels, level: nat, c: seq<File>, g: File, f: File)
    requires VersionInv(v) && level < NUM_LEVELS && UpperOk(v, level, c) && NoBoundary(v[level], HullHigh(c))
    requires g in v[level] && g !in c && f in c
    ensures NewerFile(g, f)
  {
    HullBounds(c, f);
    if level > 0 && Before(f, g) {
      LargestAfterSmallest(f);
      LargestAfterSmallest(g);
      AfterConvex(v[level], c, g);
    }
    forall a, b | a in g.entries && b in f.entries && a.key == b.key ensures Newer(a, b) {
      InRange(g, a);
      InRange(f, b);
    }
  }

  lemma {:induction false} FilterIsConvex(files: seq<File>, lo: Bound, hi: Bound)
    requires AllOk(files) && PairwiseDisjoint(files)
    ensures Convex(files, OverlapFilter(files, lo, hi))
  {
    var c := OverlapFilter(files, lo, hi);
    forall g | g in files && g !in c
      ensures (forall f | f in c :: Before(g, f)) || (forall f | f in c :: Before(f, g))
    {
      LargestAfterSmallest(g);
      forall f | f in c
        ensures lo.Some? && g.Largest().user < lo.value ==> Before(g, f)
        ensures hi.Some? && hi.value < g.Smallest().user ==> Before(f, g)
      {
        assert Disjoint(f, g);
        LargestAfterSmallest(f);
      }
    }
  }

  lemma {:induction false} HullEnds(c: seq<File>) returns (f: File, g: File)
    requires c != []
    ensures f in c && f.Smallest() == HullLow(c) && g in c && g.Largest() == HullHigh(c)
  {
    var k, m := HullLow(c), HullHigh(c);
    f :| f in c && f.Smallest() == k;
    g :| g in c && g.Largest() == m;
  }

  lemma {:induction false} ClosedRangeIsClosedHull(files: seq<File>, lo: Bound, hi: Bound)
    requires AllOk(files) && ClosedRange(files, lo, hi)
    ensures ClosedHull(files, OverlapFilter(files, lo, hi))
  {
    var c := OverlapFilter(files, lo, hi);
    if c != [] {
      var f0, f1 := HullEnds(c);
      assert Within(f0, lo, hi) && Within(f1, lo, hi);
    }
  }

  /** Boundary files are never needed at level 0: they would overlap the closed set. */
  lemma {:induction false} ClosedHullHasNoBoundary(files: seq<File>, c: seq<File>)
    requires AllOk(files) && c != [] && (forall f | f in c :: f in files) && ClosedHull(files, c)
    ensures NoBoundary(files, HullHigh(c))
  {
    forall g | g in files ensures !IsBoundary(g, HullHigh(c)) {
      LargestAfterSmallest(g);
      if g !in c {
        assert !Overlaps(g, Some(HullLow(c).user), Some(HullHigh(c).user));
        var f :| f in c && f.Largest() == HullHigh(c);
        HullBounds(c, f);
      }
    }
  }

  lemma {:induction false} LowerIsOutside(v: Levels, level: nat, in0: seq<File>, in1: seq<File>, g: File)
    requires VersionInv(v) && level + 1 < NUM_LEVELS && in0 != []
    requires forall f | f in in0 :: f in v[level]
    requires forall f | f in in1 :: f in v[level + 1]
    requires forall f | f in OverlapFilter(v[level + 1], Some(HullLow(in0).user), Some(HullHigh(in0).user)) :: f in in1
    requires in1 != [] ==> exists f | f in in1 :: Overlaps(f, Some(HullLow(in0).user), Some(HullHigh(in0).user))
    requires Convex(v[level + 1], in1) && (in1 != [] ==> NoBoundary(v[level + 1], HullHigh(in1)))
    requires g in v[level + 1] && g !in in1
    ensures Outside(g, in0 + in1)
  {
    var lo, hi := HullLow(in0).user, HullHigh(in0).user;
    assert !Overlaps(g, Some(lo), Some(hi));
    LargestAfterSmallest(g);
    forall f | f in in0 ensures lo <= f.Smallest().user <= f.Largest().user <= hi { HullBounds(in0, f); }
    if in1 != [] {
      var m :| m in in1 && Overlaps(m, Some(lo), Some(hi));
      LargestAfterSmallest(m);
      if g.Largest().user < lo {
        assert !Before(m, g);
      } else {
        assert !Before(g, m);
        AfterConvex(v[level + 1], in1, g);
      }
    }
  }

  lemma {:induction false} AfterConvex(files: seq<File>, c: seq<File>, g: File)
    requires AllOk(files) && (forall f | f in c :: f in files) && c != []
    requires NoBoundary(files, HullHigh(c)) && g in files && forall f | f in c :: Before(f, g)
    ensures forall f | f in c :: f.Largest().user < g.Smallest().user
  {
    var top :| top in c && top.Largest() == HullHigh(c);
    assert Before(top, g) && !IsBoundary(g, HullHigh(c));
    forall f | f in c ensures f.Largest().user < g.Smallest().user { HullBounds(c, f); }
  }

  // ---- Connectedness ---------------------------------------------------------------------

  /** Adding the next level's files that overlap a set keeps it free of gaps. */
  lemma {:induction false} FilterKeepsConnected(c: seq<File>, old1: seq<File>, files: seq<File>)
    requires AllOk(c) && AllOk(files) && c != [] && (forall f | f in old1 :: f in files)
    requires Connected(c + old1)
    ensures Connected(c + OverlapFilter(files, Some(HullLow(c).user), Some(HullHigh(c).user)))
  {
    var lo, hi := HullLow(c).user, HullHigh(c).user;
    var r := OverlapFilter(files, Some(lo), Some(hi));
    var f0 :| f0 in c && f0.Smallest() == HullLow(c);
    var f1 :| f1 in c && f1.Largest() == HullHigh(c);
    forall x, f, g | f in c + r && g in c + r && f.Smallest().user <= x <= g.Largest().user
      ensures CoveredBy(c + r, x)
    {
      if lo <= x <= hi {
        assert f0 in c + old1 && f1 in c + old1;
        assert CoveredBy(c + old1, x);
        var h :| h in c + old1 && MayContain(h, x);
        assert h in c + r;
      } else {
        BeyondHull(c, r, x, f, g);
      }
    }
  }

  lemma {:induction false} BeyondHull(c: seq<File>, r: seq<File>, x: UserKey, f: File, g: File)
    requires AllOk(c) && c != []
    requires forall h | h in r :: Overlaps(h, Some(HullLow(c).user), Some(HullHigh(c).user))
    requires f in c + r && g in c + r && f.Smallest().user <= x <= g.Largest().user
    requires !(HullLow(c).user <= x <= HullHigh(c).user)
    ensures CoveredBy(c + r, x)
  {
    if f in c { HullBounds(c, f); }
    if g in c { HullBounds(c, g); }
    var h := if x < HullLow(c).user then f else g;
    assert h in c + r && MayContain(h, x);
  }

  /** Re-selecting the upper level over the whole range of a connected pair keeps it connected. */
  lemma {:induction false} ExpandKeepsConnected(files: seq<File>, in0: seq<File>, in1: seq<File>, e0: seq<File>,
                                                lo: Bound, hi: Bound)
    requires AllOk(files) && AllOk(in1) && in0 != [] && (forall f | f in in0 :: f in files)
    requires Connected(in0 + in1) && lo.Some? && hi.Some?
    requires var b, e := Some(HullLow(in0 + in1).user), Some(HullHigh(in0 + in1).user);
             Wider(lo, hi, b, e) && NoGaps(files, b, e, lo, hi)
             && (ClosedRange(files, lo, hi) || (lo == b && hi == e)) && e0 == OverlapFilter(files, lo, hi)
    ensures Connected(in1 + e0)
    ensures forall f | f in in0 :: f in e0
  {
    var all := in0 + in1;
    var b, e := HullLow(all).user, HullHigh(all).user;
    forall f | f in in0 ensures f in e0 {
      assert f in all;
      HullBounds(all, f);
    }
    var f0 :| f0 in all && f0.Smallest() == HullLow(all);
    var f1 :| f1 in all && f1.Largest() == HullHigh(all);
    forall x, f, g | f in in1 + e0 && g in in1 + e0 && f.Smallest().user <= x <= g.Largest().user
      ensures CoveredBy(in1 + e0, x)
    {
      if b <= x <= e {
        assert CoveredBy(all, x);
        var h :| h in all && MayContain(h, x);
        assert h in in1 + e0;
      } else {
        BeyondOldRange(files, all, in1, e0, lo, hi, x, f, g);
      }
    }
  }

  lemma {:induction false} BeyondOldRange(files: seq<File>, all: seq<File>, in1: seq<File>, e0: seq<File>, lo: Bound,
                                          hi: Bound,
                       x: UserKey, f: File, g: File)
    requires AllOk(files) && AllOk(in1) && all != [] && (forall h | h in in1 :: h in all) && lo.Some? && hi.Some?
    requires var b, e := Some(HullLow(all).user), Some(HullHigh(all).user);
             Wider(lo, hi, b, e) && NoGaps(files, b, e, lo, hi)
             && (ClosedRange(files, lo, hi) || (lo == b && hi == e)) && e0 == OverlapFilter(files, lo, hi)
    requires f in in1 + e0 && g in in1 + e0 && f.Smallest().user <= x <= g.Largest().user
    requires !(HullLow(all).user <= x <= HullHigh(all).user)
    ensures CoveredBy(in1 + e0, x)
  {
    if f in in1 { HullBounds(all, f); }
    if g in in1 { HullBounds(all, g); }
    var h := if x < HullLow(all).user then f else g;
    assert h in e0;
    if MayContain(h, x) {
      assert h in in1 + e0;
    } else {
      assert lo.value <= x <= hi.value;
      assert CoveredBy(e0, x);
      var m :| m in e0 && MayContain(m, x);
      assert m in in1 + e0;
    }
  }

  // ---- The code ---------------------------------------------------------------------------

  /** Upper and lower inputs as SetupOtherInputs leaves them after one pass over both levels. */
  ghost predicate Settled(v: Levels, level: nat, in0: seq<File>, in1: seq<File>) {
    && |v| == NUM_LEVELS && level + 1 < NUM_LEVELS
    && UpperOk(v, level, in0) && NoBoundary(v[level], HullHigh(in0))
    && (forall f | f in in1 :: f in v[level + 1])
    && (forall f | f in OverlapFilter(v[level + 1], Some(HullLow(in0).user), Some(HullHigh(in0).user)) :: f in in1)
    && (in1 != [] ==> exists f | f in in1 :: Overlaps(f, Some(HullLow(in0).user), Some(HullHigh(in0).user)))
    && Convex(v[level + 1], in1) && (in1 != [] ==> NoBoundary(v[level + 1], HullHigh(in1)))
  }

  /** The inputs that the code settles on are closed. */
  lemma {:induction false} SettledIsSelected(v: Levels, level: nat, in0: seq<File>, in1: seq<File>)
    requires VersionInv(v) && Settled(v, level, in0, in1)
    ensures Selected(v, level, in0, in1)
  {
    forall g, f | g in v[level] && g !in in0 && f in in0 ensures NewerFile(g, f) {
      UpperIsNewer(v, level, in0, g, f);
    }
    forall g | g in v[level + 1] && g !in in1 ensures Outside(g, in0 + in1) {
      LowerIsOutside(v, level, in0, in1, g);
    }
  }

  lemma {:induction false} UpperSettles(v: Levels, level: nat, base: seq<File>, chosen: seq<File>, in0: seq<File>)
    requires VersionInv(v) && level < NUM_LEVELS && UpperOk(v, level, chosen)
    requires Extends(v[level], base, chosen, in0)
    requires NoBoundary(v[level], HullHigh(chosen)) ==> in0 == chosen
    ensures UpperOk(v, level, in0)
  {
    if level == 0 {
      ClosedHullHasNoBoundary(v[0], chosen);
    }
  }

  lemma {:induction false} LowerSettles(lower: seq<File>, base: seq<File>, lo: Bound, hi: Bound, in1: seq<File>)
    requires AllOk(lower) && PairwiseDisjoint(lower)
    requires var o := OverlapFilter(lower, lo, hi); if o == [] then in1 == [] else Extends(lower, base, o, in1)
    ensures forall f | f in in1 :: f in lower
    ensures forall f | f in OverlapFilter(lower, lo, hi) :: f in in1
    ensures in1 != [] ==> exists f | f in in1 :: Overlaps(f, lo, hi)
    ensures Convex(lower, in1)
  {
    var o := OverlapFilter(lower, lo, hi);
    FilterIsConvex(lower, lo, hi);
    if o != [] {
      assert o[0] in o && o[0] in in1;
    }
  }

  lemma {:induction false} PrefixMembers(a: seq<File>, b: seq<File>)
    requires a <= b
    ensures forall f | f in a :: f in b
  {
    assert forall i | 0 <= i < |a| :: a[i] == b[i];
  }

  /** A marker for how the inputs came about. */
  predicate Traced(n: nat) { n >= 0 }

  /** The chosen upper files with their boundary files, and the lower files that overlap these, with theirs. */
  ghost predicate Follow(v: Levels, level: nat, chosen: seq<File>, in0: seq<File>, in1: seq<File>)
    requires level + 1 < |v|
  {
    forall n | Traced(n) ::
      && Chained(v[level], chosen, in0) && NoBoundary(v[level], HullHigh(in0))
      && var o := OverlapFilter(v[level + 1], Some(HullLow(in0).user), Some(HullHigh(in0).user));
         if o == [] then in1 == [] else Chained(v[level + 1], o, in1) && NoBoundary(v[level + 1], HullHigh(in1))
  }

  /** All upper files in the range of the inputs; at level 0, in the least closed range around it. */
  ghost predicate UpperInRange(v: Levels, level: nat, all: seq<File>, wider: seq<File>)
    requires level < |v|
  {
    forall n | Traced(n) :: all != [] && exists lo, hi ::
      RangeOf(v[level], level, all, lo, hi) && wider == OverlapFilter(v[level], lo, hi)
  }

  ghost predicate RangeOf(files: seq<File>, level: nat, all: seq<File>, lo: Bound, hi: Bound)
    requires all != []
  {
    var b, e := Some(HullLow(all).user), Some(HullHigh(all).user);
    if level > 0 then lo == b && hi == e
    else Wider(lo, hi, b, e) && ClosedRange(files, lo, hi) && LeastRange(files, b, e, lo, hi)
  }

  lemma {:induction false} InRangeBy(v: Levels, level: nat, all: seq<File>, wider: seq<File>, lo: Bound, hi: Bound)
    requires level < |v| && all != [] && RangeOf(v[level], level, all, lo, hi)
             && wider == OverlapFilter(v[level], lo, hi)
    ensures UpperInRange(v, level, all, wider)
  {
  }

  /**
   The upper side grows to all upper files in the range, exactly if these are more, stay below the
   size limit together with the lower side, and need as many lower files as before.
   */
  ghost predicate Grown(v: Levels, level: nat, in0: seq<File>, in1: seq<File>, expandLimit: int, out0: seq<File>,
                        out1: seq<File>)
    requires level + 1 < |v|
  {
    forall n | Traced(n) :: exists wider, e0, e1 ::
      && UpperInRange(v, level, in0 + in1, wider) && Follow(v, level, wider, e0, e1)
      && if |e0| > |in0| && TotalFileSize(in1) + TotalFileSize(e0) < expandLimit && |e1| == |in1|
         then out0 == e0 && out1 == e1 else out0 == in0 && out1 == in1
  }

  lemma {:induction false} GrownBy(v: Levels, level: nat, in0: seq<File>, in1: seq<File>, expandLimit: int,
                                   out0: seq<File>, out1: seq<File>, wider: seq<File>, e0: seq<File>, e1: seq<File>)
    requires level + 1 < |v| && UpperInRange(v, level, in0 + in1, wider) && Follow(v, level, wider, e0, e1)
    requires if |e0| > |in0| && TotalFileSize(in1) + TotalFileSize(e0) < expandLimit && |e1| == |in1|
             then out0 == e0 && out1 == e1 else out0 == in0 && out1 == in1
    ensures Grown(v, level, in0, in1, expandLimit, out0, out1)
  {
  }

  /** What the compaction of the chosen upper files takes. */
  ghost predicate Completed(v: Levels, level: nat, chosen: seq<File>, expandLimit: int, in0: seq<File>, in1: seq<File>)
    requires level + 1 < |v|
  {
    forall n | Traced(n) :: exists a0, a1 ::
      Follow(v, level, chosen, a0, a1) &&
      if a1 == [] then in0 == a0 && in1 == a1 else Grown(v, level, a0, a1, expandLimit, in0, in1)
  }

  lemma {:induction false} CompletedBy(v: Levels, level: nat, chosen: seq<File>, expandLimit: int, in0: seq<File>,
                                       in1: seq<File>, a0: seq<File>, a1: seq<File>)
    requires level + 1 < |v| && Follow(v, level, chosen, a0, a1)
    requires if a1 == [] then in0 == a0 && in1 == a1 else Grown(v, level, a0, a1, expandLimit, in0, in1)
    ensures Completed(v, level, chosen, expandLimit, in0, in1)
  {
  }

  /** Boundary files for the chosen upper files, then the lower files they overlap with theirs. */
  method SettleInputs(v: Levels, level: nat, chosen: seq<File>, ghost old1: seq<File>)
    returns (in0: seq<File>, in1: seq<File>)
    requires VersionInv(v) && level + 1 < NUM_LEVELS && UpperOk(v, level, chosen)
    requires forall f | f in old1 :: f in v[level + 1]
    ensures Settled(v, level, in0, in1)
    ensures forall f | f in chosen :: f in in0
    ensures Connected(old1 + chosen) ==> Connected(in0 + in1)
    ensures Follow(v, level, chosen, in0, in1)
  {
    in0 := AddBoundaryInputs(v[level], chosen, old1);
    UpperSettles(v, level, old1, chosen, in0);
    PrefixMembers(chosen, in0);
    var smallest, largest := GetRange(in0);
    var overlapping, _, _ := GetOverlappingInputs(level + 1, v[level + 1], Some(smallest.user), Some(largest.user));
    in1 := AddBoundaryInputs(v[level + 1], overlapping, in0);
    LowerSettles(v[level + 1], in0, Some(smallest.user), Some(largest.user), in1);
    if Connected(old1 + chosen) {
      ConnectedSwap(old1, in0);
      FilterKeepsConnected(in0, old1, v[level + 1]);
    }
  }

  lemma {:induction false} ConnectedSwap(a: seq<File>, b: seq<File>)
    requires Connected(a + b)
    ensures Connected(b + a)
  {
    forall x, f, g | f in b + a && g in b + a && f.Smallest().user <= x <= g.Largest().user
      ensures CoveredBy(b + a, x)
    {
      assert f in a + b && g in a + b;
      assert CoveredBy(a + b, x);
      var h :| h in a + b && MayContain(h, x);
      assert h in b + a;
    }
  }

  /** Try to take more upper files without changing how many lower files are needed. */
  method ExpandInputs(v: Levels, level: nat, in0: seq<File>, in1: seq<File>, expandLimit: int)
    returns (out0: seq<File>, out1: seq<File>)
    requires VersionInv(v) && Settled(v, level, in0, in1)
    ensures Settled(v, level, out0, out1)
    ensures forall f | f in in0 :: f in out0
    ensures Connected(in0 + in1) ==> Connected(out0 + out1)
    ensures Grown(v, level, in0, in1, expandLimit, out0, out1)
  {
    out0, out1 := in0, in1;
    var start, limit := GetRange(in0 + in1);
    var wider, lo, hi := GetOverlappingInputs(level, v[level], Some(start.user), Some(limit.user));
    WiderIsUpperOk(v, level, in0, in1, wider, lo, hi);
    InRangeBy(v, level, in0 + in1, wider, lo, hi);
    var expanded0, expanded1 := SettleInputs(v, level, wider, in1);
    if |expanded0| > |in0| && TotalFileSize(in1) + TotalFileSize(expanded0) < expandLimit && |expanded1| == |in1| {
      out0, out1 := expanded0, expanded1;
    }
    GrownBy(v, level, in0, in1, expandLimit, out0, out1, wider, expanded0, expanded1);
  }

  /** Complete the inputs. `expandLimit` bounds the bytes of an expansion. */
  method SetupOtherInputs(v: Levels, level: nat, chosen: seq<File>, expandLimit: int)
    returns (in0: seq<File>, in1: seq<File>)
    requires VersionInv(v) && level + 1 < NUM_LEVELS && UpperOk(v, level, chosen)
    ensures Selected(v, level, in0, in1)
    ensures forall f | f in chosen :: f in in0
    ensures Connected(chosen) ==> Connected(in0 + in1)
    ensures Completed(v, level, chosen, expandLimit, in0, in1)
  {
    assert [] + chosen == chosen;
    in0, in1 := SettleInputs(v, level, chosen, []);
    ghost var a0, a1 := in0, in1;
    if in1 != [] {
      in0, in1 := ExpandInputs(v, level, in0, in1, expandLimit);
    }
    CompletedBy(v, level, chosen, expandLimit, in0, in1, a0, a1);
    SettledIsSelected(v, level, in0, in1);
  }

  lemma {:induction false} WiderIsUpperOk(v: Levels, level: nat, in0: seq<File>, in1: seq<File>, wider: seq<File>,
                                          lo: Bound, hi: Bound)
    requires VersionInv(v) && Settled(v, level, in0, in1) && lo.Some? && hi.Some?
    requires var b, e := Some(HullLow(in0 + in1).user), Some(HullHigh(in0 + in1).user);
             Wider(lo, hi, b, e) && NoGaps(v[level], b, e, lo, hi) && (level > 0 ==> lo == b && hi == e)
    requires level == 0 ==> ClosedRange(v[level], lo, hi)
    requires wider == OverlapFilter(v[level], lo, hi)
    ensures UpperOk(v, level, wider) && (forall f | f in in0 :: f in wider)
    ensures Connected(in0 + in1) ==> Connected(in1 + wider)
  {
    forall f | f in in0 ensures f in wider {
      assert f in in0 + in1;
      HullBounds(in0 + in1, f);
    }
    assert in0[0] in wider;
    if level == 0 {
      ClosedRangeIsClosedHull(v[0], lo, hi);
    } else {
      FilterIsConvex(v[level], lo, hi);
    }
    if Connected(in0 + in1) {
      ExpandKeepsConnected(v[level], in0, in1, wider, lo, hi);
    }
  }

  /**
   PickCompaction around the file `seed` of `level` (how the seed is scored is not modelled).
   The inputs are closed and leave no gap in user keys.
   */
  method PickCompaction(v: Levels, level: nat, seed: File, expandLimit: int)
    returns (in0: seq<File>, in1: seq<File>, chosen: seq<File>)
    requires VersionInv(v) && level + 1 < NUM_LEVELS && seed in v[level]
    ensures Selected(v, level, in0, in1) && Connected(in0 + in1) && seed in in0
    ensures Completed(v, level, chosen, expandLimit, in0, in1)
    ensures if level > 0 then chosen == [seed] else UpperInRange(v, level, [seed], chosen)
  {
    chosen := [seed];
    LargestAfterSmallest(seed);
    if level == 0 {
      ghost var lo, hi;
      chosen, lo, hi := GetOverlappingInputs(0, v[0], Some(seed.Smallest().user), Some(seed.Largest().user));
      ClosedRangeIsClosedHull(v[0], lo, hi);
      assert seed in chosen;
      ClosureIsConnected(v[0], seed, chosen, lo, hi);
      InRangeBy(v, 0, [seed], chosen, lo, hi);
    } else {
      assert forall x | seed.Smallest().user <= x <= seed.Largest().user :: MayContain(seed, x);
    }
    in0, in1 := SetupOtherInputs(v, level, chosen, expandLimit);
  }

  lemma {:induction false} ClosureIsConnected(files: seq<File>, seed: File, c: seq<File>, lo: Bound, hi: Bound)
    requires AllOk(files) && lo.Some? && hi.Some? && c == OverlapFilter(files, lo, hi) && seed in c
    requires ClosedRange(files, lo, hi)
    requires NoGaps(files, Some(seed.Smallest().user), Some(seed.Largest().user), lo, hi)
    ensures Connected(c)
  {
    forall x, f, g | f in c && g in c && f.Smallest().user <= x <= g.Largest().user ensures CoveredBy(c, x) {
      assert Within(f, lo, hi) && Within(g, lo, hi);
      if MayContain(seed, x) {
        assert seed in c;
      } else {
        assert CoveredBy(OverlapFilter(files, lo, hi), x);
      }
    }
  }

  lemma {:induction false} SomeOverlap(files: seq<File>, begin: Bound, end: Bound, lo: Bound, hi: Bound)
    requires LeastRange(files, begin, end, lo, hi)
    ensures AnyOverlap(files, lo, hi) ==> AnyOverlap(files, begin, end)
  {
    assert Wider(begin, end, begin, end);
    assert !AnyOverlap(files, begin, end) ==> ClosedRange(files, begin, end);
  }

  lemma {:induction false} FilterIsSorted(files: seq<File>, lo: Bound, hi: Bound)
    requires LevelSorted(files)
    ensures LevelSorted(OverlapFilter(files, lo, hi))
  {
    if files != [] {
      var init, last := files[..|files| - 1], files[|files| - 1];
      FilterIsSorted(init, lo, hi);
      var r := OverlapFilter(init, lo, hi);
      forall i | 0 <= i < |r| ensures Before(r[i], last) {
        assert r[i] in init;
        var j :| 0 <= j < |init| && init[j] == r[i];
        assert Before(files[j], files[|files| - 1]);
      }
    }
  }

  lemma {:induction false} PrefixIsConvex(files: seq<File>, c: seq<File>, i: nat)
    requires Convex(files, c) && LevelSorted(c) && 1 <= i <= |c|
    ensures Convex(files, c[..i])
  {
    forall g | g in files && g !in c[..i]
      ensures (forall f | f in c[..i] :: Before(g, f)) || (forall f | f in c[..i] :: Before(f, g))
    {
      if g in c {
        var j :| 0 <= j < |c| && c[j] == g;
        assert j >= i;
        forall f | f in c[..i] ensures Before(f, g) {
          var m :| 0 <= m < i && c[m] == f;
        }
      }
    }
  }

  /** From the front, until the files reach the size limit or there are no more. */
  predicate SizePrefix(files: seq<File>, sizeLimit: nat, r: seq<File>) {
    && r <= files && (r == files || TotalFileSize(r) >= sizeLimit)
    && forall i | 0 < i < |r| :: TotalFileSize(r[..i]) < sizeLimit
  }

  method CutAtLimit(files: seq<File>, sizeLimit: nat) returns (r: seq<File>)
    requires files != []
    ensures r != [] && SizePrefix(files, sizeLimit, r)
  {
    var total, i := 0, 0;
    while i < |files|
      invariant 0 <= i <= |files| && total == TotalFileSize(files[..i])
      invariant forall k | 0 < k <= i :: TotalFileSize(files[..k]) < sizeLimit
      decreases |files| - i
    {
      TotalAppend(files[..i], files[i]);
      assert files[..i + 1] == files[..i] + [files[i]];
      total := total + files[i].size;
      i := i + 1;
      if total >= sizeLimit {
        break;
      }
    }
    r := files[..i];
    assert forall k | 0 < k < |r| :: r[..k] == files[..k];
  }

  /** The files that overlap a range asked for, or at level 0 the least closed range around it. */
  ghost predicate Overlapping(v: Levels, level: nat, begin: Bound, end: Bound, files: seq<File>)
    requires level < |v|
  {
    forall n | Traced(n) :: exists lo, hi ::
      && files == OverlapFilter(v[level], lo, hi)
      && (if level > 0 then lo == begin && hi == end
          else Wider(lo, hi, begin, end) && ClosedRange(v[level], lo, hi) && LeastRange(v[level], begin, end, lo, hi))
  }

  lemma {:induction false} OverlappingBy(v: Levels, level: nat, begin: Bound, end: Bound, files: seq<File>, lo: Bound,
                                         hi: Bound)
    requires level < |v| && files == OverlapFilter(v[level], lo, hi)
    requires if level > 0 then lo == begin && hi == end
             else Wider(lo, hi, begin, end) && ClosedRange(v[level], lo, hi) && LeastRange(v[level], begin, end, lo, hi)
    ensures Overlapping(v, level, begin, end, files)
  {
  }

  /** From level 1 up, fewer than all the files may be taken. */
  method Limit(v: Levels, level: nat, inputs: seq<File>, sizeLimit: nat, ghost lo: Bound, ghost hi: Bound)
    returns (chosen: seq<File>)
    requires VersionInv(v) && 0 < level < NUM_LEVELS && inputs == OverlapFilter(v[level], lo, hi) && inputs != []
    ensures UpperOk(v, level, chosen) && SizePrefix(inputs, sizeLimit, chosen)
  {
    FilterIsConvex(v[level], lo, hi);
    DisjointIsSorted(v[level]);
    FilterIsSorted(v[level], lo, hi);
    chosen := CutAtLimit(inputs, sizeLimit);
    assert chosen == inputs[..|chosen|];
    PrefixIsConvex(v[level], inputs, |chosen|);
  }

  /** A manual compaction: the files overlapping a range, from level 1 up cut off at a size limit. */
  method CompactRange(v: Levels, level: nat, begin: Bound, end: Bound, sizeLimit: nat, expandLimit: int)
    returns (found: bool, in0: seq<File>, in1: seq<File>, inputs: seq<File>, chosen: seq<File>)
    requires VersionInv(v) && level + 1 < NUM_LEVELS
    ensures found == AnyOverlap(v[level], begin, end)
    ensures found ==> Selected(v, level, in0, in1) && Completed(v, level, chosen, expandLimit, in0, in1)
    ensures Overlapping(v, level, begin, end, inputs)
    ensures found ==> if level == 0 then chosen == inputs else SizePrefix(inputs, sizeLimit, chosen)
  {
    ghost var lo, hi;
    inputs, lo, hi := GetOverlappingInputs(level, v[level], begin, end);
    OverlappingBy(v, level, begin, end, inputs, lo, hi);
    if inputs == [] {
      assert forall f | f in v[level] :: !Overlaps(f, lo, hi);
      return false, [], [], [], [];
    }
    assert inputs[0] in inputs;
    SomeOverlap(v[level], begin, end, lo, hi);
    chosen := inputs;
    if level == 0 {
      ClosedRangeIsClosedHull(v[0], lo, hi);
    } else {
      chosen := Limit(v, level, inputs, sizeLimit, lo, hi);
    }
    in0, in1 := SetupOtherInputs(v, level, chosen, expandLimit);
    found := true;
  }
}
