/**
 Installing a version edit: files are removed from levels by number and added in the order
 of their smallest keys. The version invariant survives the three edits the database makes:
 adding a flushed memtable, moving a file down, and replacing compaction inputs by outputs.
 */
module Edits {
  import opened DbFormat
  import opened Version
  import opened Inputs
  import opened Picking

  /** Merge two file lists by smallest key; on equal position the base file goes first. */
  function MergeFiles(base: seq<File>, added: seq<File>): (r: seq<File>)
    ensures forall f :: f in r <==> f in base || f in added
  {
    if base == [] then added
    else if added == [] then base
    else if BySmallest(added[0], base[0]) then
      assert added == [added[0]] + added[1..];
      [added[0]] + MergeFiles(base, added[1..])
    else
      assert base == [base[0]] + base[1..];
      [base[0]] + MergeFiles(base[1..], added)
  }

  function Remove(files: seq<File>, deleted: set<nat>): (r: seq<File>)
    ensures forall f :: f in r <==> f in files && f.number !in deleted
  {
    if files == [] then []
    else
      assert files == [files[0]] + files[1..];
      (if files[0].number in deleted then [] else [files[0]]) + Remove(files[1..], deleted)
  }

  function Numbers(files: seq<File>): set<nat> { set f | f in files :: f.number }

  lemma {:induction false} RemoveKeepsOrder(files: seq<File>, deleted: set<nat>)
    requires SortedBySmallest(files)
    ensures SortedBySmallest(Remove(files, deleted))
  {
    if files != [] {
      RemoveKeepsOrder(files[1..], deleted);
      var r := Remove(files[1..], deleted);
      forall i | 0 <= i < |r| ensures BySmallest(files[0], r[i]) {
        assert r[i] in files[1..];
      }
    }
  }

  predicate ClearOf(base: seq<File>, added: seq<File>) {
    forall f, g | f in base && g in added :: f.number != g.number
  }

  lemma {:induction false} MergeKeepsOrder(base: seq<File>, added: seq<File>)
    requires SortedBySmallest(base) && SortedBySmallest(added) && ClearOf(base, added)
    ensures SortedBySmallest(MergeFiles(base, added))
  {
    if base != [] && added != [] {
      if BySmallest(added[0], base[0]) {
        MergeKeepsOrder(base, added[1..]);
        HeadFirst(added[0], base, added[1..], MergeFiles(base, added[1..]));
      } else {
        assert base[0] in base && added[0] in added;
        MergeKeepsOrder(base[1..], added);
        HeadFirst(base[0], base[1..], added, MergeFiles(base[1..], added));
      }
    }
  }

  lemma {:induction false} HeadFirst(f: File, a: seq<File>, b: seq<File>, r: seq<File>)
    requires SortedBySmallest(a) && SortedBySmallest(b) && SortedBySmallest(r)
    requires forall g | g in r :: g in a || g in b
    requires (a == [] || BySmallest(f, a[0])) && (b == [] || BySmallest(f, b[0]))
    ensures SortedBySmallest([f] + r)
  {
    forall i | 0 <= i < |r| ensures BySmallest(f, r[i]) {
      assert r[i] in r;
      if r[i] in a {
        var j :| 0 <= j < |a| && a[j] == r[i];
        assert j == 0 || BySmallest(a[0], a[j]);
      } else {
        var j :| 0 <= j < |b| && b[j] == r[i];
        assert j == 0 || BySmallest(b[0], b[j]);
      }
    }
  }

  // ---- Adding a flushed memtable ---------------------------------------------------------

  function AddFile(v: Levels, level: nat, f: File): Levels
    requires level < |v|
  {
    v[level := MergeFiles(v[level], [f])]
  }

  lemma {:induction false} AddFileAt(v: Levels, level: nat, f: File)
    requires level < |v|
    ensures forall l: int, g :: FileAt(AddFile(v, level, f), l, g) <==> FileAt(v, l, g) || (l == level && g == f)
  {
  }

  lemma {:induction false} NoOverlapNoCommonKey(f: File, g: File)
    requires f.Ok() && g.Ok() && !Overlaps(g, Some(f.Smallest().user), Some(f.Largest().user))
    ensures NewerFile(f, g) && NewerFile(g, f) && Disjoint(f, g)
  {
    LargestAfterSmallest(f);
    LargestAfterSmallest(g);
    forall a, b | a in f.entries && b in g.entries ensures a.key != b.key {
      InRange(f, a);
      InRange(g, b);
    }
  }

  /** `f` may go to `level`: below level 0 only past levels that hold nothing in its user-key range. */
  ghost predicate FitsAt(v: Levels, level: nat, f: File) {
    level > 0 ==> forall l: int, g | FileAt(v, l, g) && l <= level ::
                    !Overlaps(g, Some(f.Smallest().user), Some(f.Largest().user))
  }

  lemma {:induction false} AddFileKeepsInv(v: Levels, level: nat, f: File)
    requires VersionInv(v) && level < NUM_LEVELS && f.Ok() && FitsAt(v, level, f)
    requires forall l: int, g | FileAt(v, l, g) :: NewerFile(f, g) && g.number < f.number
    ensures VersionInv(AddFile(v, level, f))
  {
    var v' := AddFile(v, level, f);
    AddFileAt(v, level, f);
    forall g | g in v[level] ensures g.number != f.number { assert FileAt(v, level, g); }
    MergeKeepsOrder(v[level], [f]);
    assert forall l | 0 <= l < NUM_LEVELS :: AllOk(v'[l]) && SortedBySmallest(v'[l]);
    forall l: int, g | FileAt(v, l, g) && level > 0 && l <= level ensures NewerFile(g, f) && Disjoint(f, g) {
      assert AllOk(v[l]) && g.Ok();
      NoOverlapNoCommonKey(f, g);
    }
    AddFileKeepsDisjoint(v, level, f);
    AddFileKeepsRecency(v, level, f);
  }

  lemma {:induction false} AddFileKeepsDisjoint(v: Levels, level: nat, f: File)
    requires VersionInv(v) && level < NUM_LEVELS
    requires forall l: int, g | FileAt(v, l, g) && level > 0 && l <= level :: Disjoint(f, g)
    ensures forall l | 1 <= l < NUM_LEVELS :: PairwiseDisjoint(AddFile(v, level, f)[l])
  {
    if level > 0 {
      forall a, b | a in AddFile(v, level, f)[level] && b in AddFile(v, level, f)[level]
        && a != b ensures Disjoint(a, b) {
        if a == f {
          assert FileAt(v, level, b);
        } else if b == f {
          assert FileAt(v, level, a);
        }
      }
    }
  }

  lemma {:induction false} AddFileKeepsRecency(v: Levels, level: nat, f: File)
    requires VersionInv(v) && level < NUM_LEVELS
    requires forall l: int, g | FileAt(v, l, g) :: NewerFile(f, g) && g.number < f.number
    requires forall l: int, g | FileAt(v, l, g) && level > 0 && l <= level :: NewerFile(g, f)
    ensures var w := AddFile(v, level, f);
            && (forall g, h | g in w[0] && h in w[0] && g.number > h.number :: NewerFile(g, h))
            && (forall l: int, m: int, g, h | FileAt(w, l, g) && FileAt(w, m, h) && l < m :: NewerFile(g, h))
            && (forall l: int, m: int, g, h | FileAt(w, l, g) && FileAt(w, m, h)
               && g.number == h.number :: l == m && g == h)
  {
    var w := AddFile(v, level, f);
    AddFileAt(v, level, f);
    forall g: File, h: File | g in w[0] && h in w[0] && g.number > h.number ensures NewerFile(g, h) {
      assert FileAt(w, 0, g) && FileAt(w, 0, h);
    }
  }

  // ---- Replacing inputs by outputs -------------------------------------------------------

  /** Remove the inputs of a compaction from their levels and add its outputs below. */
  function Replace(v: Levels, level: nat, in0: seq<File>, in1: seq<File>, outs: seq<File>): Levels
    requires level + 1 < |v|
  {
    v[level := Remove(v[level], Numbers(in0))][level + 1 := MergeFiles(Remove(v[level + 1], Numbers(in1)), outs)]
  }

  /** The outputs hold only entries of the inputs, are well formed, ordered, and have numbers of their own. */
  ghost predicate OutputsOk(v: Levels, level: nat, in0: seq<File>, in1: seq<File>, outs: seq<File>) {
    && AllOk(outs) && LevelSorted(outs)
    && (forall o, e | o in outs && e in o.entries :: InFiles(in0 + in1, e))
    && (forall l: int, g, o | FileAt(v, l, g) && o in outs && g.number == o.number :: l == level && g in in0)
    && DistinctNumbers(outs)
  }

  /** The outputs can take the place of the inputs. */
  ghost predicate Replaceable(v: Levels, level: nat, in0: seq<File>, in1: seq<File>, outs: seq<File>) {
    Chosen(v, level, in0, in1) && Clear(v, level, in0, in1, outs) && OutputsOk(v, level, in0, in1, outs)
  }

  lemma {:induction false} RemovedByNumber(v: Levels, level: nat, c: seq<File>)
    requires VersionInv(v) && level < NUM_LEVELS && forall f | f in c :: f in v[level]
    ensures forall g :: g in Remove(v[level], Numbers(c)) <==> g in v[level] && g !in c
  {
    forall g | g in v[level] && g.number in Numbers(c) ensures g in c {
      var f :| f in c && f.number == g.number;
      assert FileAt(v, level, f) && FileAt(v, level, g);
    }
  }

  lemma {:induction false} ReplaceAt(v: Levels, level: nat, in0: seq<File>, in1: seq<File>, outs: seq<File>)
    requires VersionInv(v) && Chosen(v, level, in0, in1)
    ensures forall l: int, g :: FileAt(Replace(v, level, in0, in1, outs), l, g) <==>
              || (FileAt(v, l, g) && !(l == level && g in in0) && !(l == level + 1 && g in in1))
              || (l == level + 1 && g in outs)
  {
    RemovedByNumber(v, level, in0);
    RemovedByNumber(v, level + 1, in1);
  }

  lemma {:induction false} LevelSortedIsBySmallest(files: seq<File>)
    requires AllOk(files) && LevelSorted(files)
    ensures SortedBySmallest(files) && PairwiseDisjoint(files)
  {
    forall i, j | 0 <= i < j < |files| ensures BySmallest(files[i], files[j]) {
      assert Before(files[i], files[j]) && files[i] in files;
      LargestAfterSmallest(files[i]);
    }
  }

  lemma {:induction false} OutputVersusStaying(inputs: seq<File>, o: File, g: File)
    requires AllOk(inputs) && o.Ok() && g.Ok() && Outside(g, inputs)
    requires forall e | e in o.entries :: InFiles(inputs, e)
    ensures Disjoint(g, o)
  {
    var first, last := o.entries[0], o.entries[|o.entries| - 1];
    assert first in o.entries && last in o.entries;
    var f :| f in inputs && first in f.entries;
    var h :| h in inputs && last in h.entries;
    InRange(f, first);
    InRange(h, last);
  }

  lemma {:induction false} ReplaceKeepsOrder(v: Levels, level: nat, in0: seq<File>, in1: seq<File>, outs: seq<File>)
    requires VersionInv(v) && Replaceable(v, level, in0, in1, outs)
    ensures var w := Replace(v, level, in0, in1, outs);
            forall l | 0 <= l < NUM_LEVELS :: AllOk(w[l]) && SortedBySmallest(w[l])
  {
    RemoveKeepsOrder(v[level], Numbers(in0));
    RemoveKeepsOrder(v[level + 1], Numbers(in1));
    LevelSortedIsBySmallest(outs);
    var rest := Remove(v[level + 1], Numbers(in1));
    forall f, g | f in rest && g in outs ensures f.number != g.number { assert FileAt(v, level + 1, f); }
    MergeKeepsOrder(rest, outs);
  }

  /** Inputs that were closed when they were chosen are clear of what stays. */
  lemma {:induction false} SelectedIsClear(v: Levels, level: nat, in0: seq<File>, in1: seq<File>, outs: seq<File>)
    requires VersionInv(v) && Selected(v, level, in0, in1) && OutputsOk(v, level, in0, in1, outs)
    ensures Clear(v, level, in0, in1, outs)
  {
    assert AllOk(in0 + in1);
    forall g | g in v[level + 1] && g !in in1
      ensures (forall f | f in in0 + in1 :: NewerFile(g, f)) && forall o | o in outs :: Disjoint(g, o)
    {
      forall f | f in in0 + in1 ensures NewerFile(g, f) {
        OutsideIsNewer(g, in0 + in1, f);
      }
      forall o | o in outs ensures Disjoint(g, o) {
        OutputVersusStaying(in0 + in1, o, g);
      }
    }
  }

  lemma {:induction false} OutsideIsNewer(g: File, inputs: seq<File>, f: File)
    requires g.Ok() && AllOk(inputs) && f in inputs && Outside(g, inputs)
    ensures NewerFile(g, f)
  {
    if Before(g, f) {
      BeforeIsNewer(g, f);
    }
    forall a, b | a in g.entries && b in f.entries && a.key == b.key ensures Newer(a, b) {
      InRange(g, a);
      InRange(f, b);
    }
  }

  lemma {:induction false} LowerDisjoint(v: Levels, level: nat, in0: seq<File>, in1: seq<File>, outs: seq<File>,
                                         a: File, b: File)
    requires VersionInv(v) && Replaceable(v, level, in0, in1, outs) && a != b
    requires a in outs || (a in v[level + 1] && a !in in1)
    requires b in outs || (b in v[level + 1] && b !in in1)
    ensures Disjoint(a, b)
  {
    LevelSortedIsBySmallest(outs);
  }

  lemma {:induction false} ReplaceKeepsDisjoint(v: Levels, level: nat, in0: seq<File>, in1: seq<File>, outs: seq<File>)
    requires VersionInv(v) && Replaceable(v, level, in0, in1, outs)
    ensures var w := Replace(v, level, in0, in1, outs); forall l | 1 <= l < NUM_LEVELS :: PairwiseDisjoint(w[l])
  {
    var w := Replace(v, level, in0, in1, outs);
    RemovedByNumber(v, level + 1, in1);
    forall a, b | a in w[level + 1] && b in w[level + 1] && a != b ensures Disjoint(a, b) {
      LowerDisjoint(v, level, in0, in1, outs, a, b);
    }
  }

  /** Every input file is at `level` or `level + 1`, so an output sits between the levels around them. */
  lemma {:induction false} OutputRecency(v: Levels, level: nat, in0: seq<File>, in1: seq<File>, outs: seq<File>,
                                         o: File, l: int, g: File)
    requires VersionInv(v) && Replaceable(v, level, in0, in1, outs)
    requires o in outs && FileAt(v, l, g) && !(l == level && g in in0)
    ensures l <= level ==> NewerFile(g, o)
    ensures l > level + 1 ==> NewerFile(o, g)
  {
    forall a, b | a in g.entries && b in o.entries && a.key == b.key
      ensures l <= level ==> Newer(a, b)
      ensures l > level + 1 ==> Newer(b, a)
    {
      assert InFiles(in0 + in1, b);
      var f :| f in in0 + in1 && b in f.entries;
      if f in in0 {
        assert FileAt(v, level, f);
      } else {
        assert FileAt(v, level + 1, f);
      }
    }
  }

  lemma {:induction false} ReplaceKeepsRecency(v: Levels, level: nat, in0: seq<File>, in1: seq<File>, outs: seq<File>)
    requires VersionInv(v) && Replaceable(v, level, in0, in1, outs)
    ensures var w := Replace(v, level, in0, in1, outs);
            forall l: int, m: int, g, h | FileAt(w, l, g) && FileAt(w, m, h) && l < m :: NewerFile(g, h)
  {
    var w := Replace(v, level, in0, in1, outs);
    ReplaceAt(v, level, in0, in1, outs);
    forall l: int, m: int, g, h | FileAt(w, l, g) && FileAt(w, m, h) && l < m ensures NewerFile(g, h) {
      if m == level + 1 && h in outs {
        OutputRecency(v, level, in0, in1, outs, h, l, g);
      } else if l == level + 1 && g in outs {
        OutputRecency(v, level, in0, in1, outs, g, m, h);
      }
    }
  }

  lemma {:induction false} ReplaceKeepsNumbers(v: Levels, level: nat, in0: seq<File>, in1: seq<File>, outs: seq<File>)
    requires VersionInv(v) && Replaceable(v, level, in0, in1, outs)
    ensures var w := Replace(v, level, in0, in1, outs);
            forall l: int, m: int, g, h | FileAt(w, l, g) && FileAt(w, m, h) && g.number == h.number :: l == m && g == h
  {
    ReplaceAt(v, level, in0, in1, outs);
  }

  /** Replacing closed inputs by outputs made of their entries keeps the version invariant. */
  lemma {:induction false} ReplaceKeepsInv(v: Levels, level: nat, in0: seq<File>, in1: seq<File>, outs: seq<File>)
    requires VersionInv(v) && Replaceable(v, level, in0, in1, outs)
    ensures VersionInv(Replace(v, level, in0, in1, outs))
  {
    ReplaceKeepsOrder(v, level, in0, in1, outs);
    ReplaceKeepsDisjoint(v, level, in0, in1, outs);
    ReplaceKeepsRecency(v, level, in0, in1, outs);
    ReplaceKeepsNumbers(v, level, in0, in1, outs);
    RemovedByNumber(v, level, in0);
  }
}
