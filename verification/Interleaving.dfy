/**
 Flushes that happen while a compaction runs. A manual compaction reads files with gaps
 between them. A flush can put its table into such a gap, in the level that the outputs go
 to, and an output can then cover it. Which flushes do that, and what it costs a reader.
 */
module Interleaving {
  import opened DbFormat
  import opened Version
  import opened Inputs
  import opened Picking
  import opened Edits
  import opened Compaction
  import opened DbState
  import opened DbSteps

  // ---- A harmful flush breaks the level --------------------------------------------------

  /** A file that stays where the outputs of `p` go, and that meets one of them. */
  ghost predicate Collides(v: Levels, p: Pending, f: File) {
    && p.level + 1 < |v| && f in v[p.level + 1] && (forall g | g in p.in1 :: g.number != f.number)
    && exists o :: o in p.outs && o != f && !Disjoint(f, o)
  }

  lemma {:induction false} HarmfulFlushCollides(st: State, step: Step)
    requires Inv(st) && Enabled(st, step) && !Harmless(st, step)
    ensures st.pending.Some? && Apply(st, step).pending == st.pending
    ensures Collides(Apply(st, step).files, st.pending.value, FlushedFile(st, step.size))
  {
    var f, p := FlushedFile(st, step.size), st.pending.value;
    FlushedFileFits(st, step.size, step.overlapLimit);
    AddFileAt(st.files, p.level + 1, f);
    assert forall g | g in p.in1 :: FileAt(st.files, p.level + 1, g);
    var o :| o in p.outs && !Disjoint(f, o);
    assert o.number < st.nextFile;
  }

  lemma {:induction false} StepKeepsCollision(st: State, step: Step, p: Pending, f: File)
    requires |st.files| == NUM_LEVELS && st.pending == Some(p) && Collides(st.files, p, f)
    requires Enabled(st, step) && !step.Install?
    ensures Apply(st, step).pending == Some(p) && Collides(Apply(st, step).files, p, f)
  {
  }

  lemma {:induction false} InstallBreaksLevel(st: State, p: Pending, f: File)
    requires |st.files| == NUM_LEVELS && st.pending == Some(p) && Collides(st.files, p, f)
    ensures !VersionInv(Apply(st, Install).files)
  {
    var o :| o in p.outs && o != f && !Disjoint(f, o);
    var w := Apply(st, Install).files;
    assert f in w[p.level + 1] && o in w[p.level + 1];
    assert VersionInv(w) ==> PairwiseDisjoint(w[p.level + 1]);
  }

  /** A flush followed by the installation keeps the invariant exactly if the flush was harmless. */
  lemma {:induction false} FlushThenInstall(st: State, size: nat, overlapLimit: int)
    requires Inv(st) && st.pending.Some? && st.imm.Some?
    ensures var flush := Flush(size, overlapLimit); var st' := Apply(st, flush);
            && (Inv(Apply(st', Install)) <==> Harmless(st, flush))
            && (VersionInv(Apply(st', Install).files) <==> Harmless(st, flush))
  {
    var flush := Flush(size, overlapLimit);
    if Harmless(st, flush) {
      FlushKeepsInv(st, size, overlapLimit);
      InstallKeepsInv(Apply(st, flush));
    } else {
      HarmfulFlushCollides(st, flush);
      InstallBreaksLevel(Apply(st, flush), st.pending.value, FlushedFile(st, size));
    }
  }

  // ---- Over whole runs -------------------------------------------------------------------

  ghost predicate Harmed(st: State, p: Pending, f: File) { st.pending == Some(p) && Collides(st.files, p, f) }

  /** The collision lasts until the compaction is installed, and that breaks the level. */
  lemma {:induction false} HarmStays(run: seq<State>, steps: seq<Step>, p: Pending, f: File, i: nat, n: nat)
    requires IsRun(run, steps) && i <= n < |run| && Harmed(run[i], p, f)
    requires forall m | i <= m <= n :: VersionInv(run[m].files)
    ensures Harmed(run[n], p, f)
  {
    if i < n {
      HarmStays(run, steps, p, f, i, n - 1);
      if steps[n - 1].Install? {
        InstallBreaksLevel(run[n - 1], p, f);
      } else {
        StepKeepsCollision(run[n - 1], steps[n - 1], p, f);
      }
    }
  }

  /** A run whose compactions have all been installed kept its versions sound exactly if it was careful. */
  lemma {:induction false} SoundIffCareful(run: seq<State>, steps: seq<Step>, n: nat)
    requires IsRun(run, steps) && n < |run| && run[n].pending.None?
    ensures Careful(run, steps, n) <==> forall m | 0 <= m <= n :: VersionInv(run[m].files)
  {
    if Careful(run, steps, n) {
      forall m | 0 <= m <= n ensures VersionInv(run[m].files) {
        RunKeepsInv(run, steps, m);
      }
    } else {
      var i := FirstHarm(run, steps, n);
      RunKeepsInv(run, steps, i);
      HarmfulFlushCollides(run[i], steps[i]);
      if forall m | 0 <= m <= n :: VersionInv(run[m].files) {
        HarmStays(run, steps, run[i].pending.value, FlushedFile(run[i], steps[i].size), i + 1, n);
      }
    }
  }

  lemma {:induction false} FirstHarm(run: seq<State>, steps: seq<Step>, n: nat) returns (i: nat)
    requires IsRun(run, steps) && n < |run| && !Careful(run, steps, n)
    ensures i < n && Careful(run, steps, i) && !Harmless(run[i], steps[i])
  {
    i := n - 1;
    if !Careful(run, steps, n - 1) {
      i := FirstHarm(run, steps, n - 1);
    }
  }

  // ---- A lost write ----------------------------------------------------------------------

  ghost function Last(run: seq<State>): State
    requires run != []
  {
    run[|run| - 1]
  }

  lemma {:induction false} Extend(run: seq<State>, steps: seq<Step>, step: Step)
    returns (run': seq<State>, steps': seq<Step>)
    requires IsRun(run, steps) && Enabled(Last(run), step)
    ensures IsRun(run', steps') && Last(run') == Apply(Last(run), step)
  {
    run', steps' := run + [Apply(Last(run), step)], steps + [step];
  }

  /** Tables of one byte each, so that no overlap of files is too large. */
  ghost predicate Tiny(files: seq<File>) { |files| <= 2 && forall f | f in files :: f.size == 1 }

  lemma {:induction false} TinyTotal(files: seq<File>, lo: Bound, hi: Bound)
    requires forall f | f in files :: f.size == 1
    ensures TotalFileSize(files) == |files| && |OverlapFilter(files, lo, hi)| <= |files|
  {
    if files != [] {
      TinyTotal(files[1..], lo, hi);
      OverlapFilterShorter(files, lo, hi);
    }
  }

  lemma {:induction false} OverlapFilterShorter(files: seq<File>, lo: Bound, hi: Bound)
    ensures |OverlapFilter(files, lo, hi)| <= |files|
  {
    if files != [] {
      OverlapFilterShorter(files[..|files| - 1], lo, hi);
    }
  }

  /** One key written and flushed goes to level 2, or to level 1 if level 2 already has the key. */
  lemma {:induction false} PickTiny(v: Levels, k: UserKey)
    requires |v| == NUM_LEVELS && (forall l | 0 <= l < NUM_LEVELS :: Tiny(v[l]))
    requires forall l, f | 0 <= l < 2 && f in v[l] :: !Overlaps(f, Some(k), Some(k))
    ensures PickLevel(v, k, k, 10) == if AnyOverlap(v[2], Some(k), Some(k)) then 1 else 2
  {
    forall l | 0 <= l < NUM_LEVELS ensures TotalFileSize(OverlapFilter(v[l], Some(k), Some(k))) <= 10 {
      TinyTotal(v[l], Some(k), Some(k));
      TinyTotal(OverlapFilter(v[l], Some(k), Some(k)), Some(k), Some(k));
    }
    assert PickLevelFrom(v, Some(k), Some(k), 10, 2) == 2;
  }

  /** Write one key, switch memtables and flush. */
  lemma {:induction false} WriteAndFlush(run: seq<State>, steps: seq<Step>, k: UserKey, op: Op, l: nat)
    returns (run': seq<State>, steps': seq<Step>)
    requires IsRun(run, steps) && |Last(run).history| + 1 < MAX_SEQUENCE
    requires Last(run).mem == [] && Last(run).imm.None? && l == PickLevel(Last(run).files, k, k, 10)
    ensures IsRun(run', steps') && l <= MAX_MEM_COMPACT_LEVEL
    ensures var st := Last(run); var f := File(st.nextFile, 1, [Entry(k, |st.history| + 1, op)]);
            Last(run') == st.(history := st.history + [Write(k, op)], nextFile := st.nextFile + 1,
                files := AddFile(st.files, l, f))
  {
    var st, e := Last(run), Entry(k, |Last(run).history| + 1, op);
    PickLevelAvoidsOverlap(st.files, k, k, 10);
    assert InsertSorted([], e) == [e];
    run', steps' := Extend(run, steps, Insert(Write(k, op)));
    run', steps' := Extend(run', steps', Switch);
    run', steps' := Extend(run', steps', Flush(1, 10));
  }

  const Old: Op := Put("old")
  const New: Op := Put("new")
  const Upper: seq<File> := [File(4, 1, [Entry(1.0, 3, New)]), File(5, 1, [Entry(9.0, 4, New)])]
  const Lower: seq<File> := [File(2, 1, [Entry(1.0, 1, Old)]), File(3, 1, [Entry(9.0, 2, Old)])]
  const Merged: seq<Entry> := [Entry(1.0, 3, New), Entry(1.0, 1, Old), Entry(9.0, 4, New), Entry(9.0, 2, Old)]
  const Output: File := File(6, 1, [Entry(1.0, 3, New), Entry(9.0, 4, New)])
  const Fresh: File := File(7, 1, [Entry(5.0, 5, New)])
  const Range: Pending := Pending(1, Upper, Lower, Merged, 5, [Output])

  const Filled: seq<Write> := [Write(1.0, Old), Write(9.0, Old), Write(1.0, New), Write(9.0, New)]

  lemma {:induction false} MergeTwo(a: File, b: File)
    requires BySmallest(a, b)
    ensures MergeFiles([a], [b]) == [a, b]
  {
    assert [a][1..] == [];
  }

  /** Key 9 is flushed beside key 1, into level `l`. */
  lemma {:induction false} FlushNine(run: seq<State>, steps: seq<Step>, op: Op, l: nat, a: File)
    returns (run': seq<State>, steps': seq<Step>)
    requires IsRun(run, steps) && |Last(run).history| <= 3 && Last(run).mem == [] && Last(run).imm.None?
    requires l == PickLevel(Last(run).files, 9.0, 9.0, 10) && l < NUM_LEVELS && Last(run).files[l] == [a]
             && a.Smallest().user == 1.0
    ensures IsRun(run', steps')
    ensures var st := Last(run); var f := File(st.nextFile, 1, [Entry(9.0, |st.history| + 1, op)]);
            Last(run') == st.(history := st.history + [Write(9.0, op)], nextFile := st.nextFile + 1,
                files := st.files[l := [a, f]])
  {
    run', steps' := WriteAndFlush(run, steps, 9.0, op, l);
    MergeTwo(a, File(Last(run).nextFile, 1, [Entry(9.0, |Last(run).history| + 1, op)]));
  }

  lemma {:induction false} OneLayer() returns (run: seq<State>, steps: seq<Step>)
    ensures IsRun(run, steps)
    ensures Last(run) == State([], None, [[], [], Lower, [], [], [], []], Filled[..2], 0, [], 4, None)
  {
    var init := State([], None, EmptyLevels, [], 0, [], 2, None);
    run, steps := [init], [];
    PickTiny(init.files, 1.0);
    run, steps := WriteAndFlush(run, steps, 1.0, Old, 2);
    assert Last(run).files == [[], [], [Lower[0]], [], [], [], []];
    PickTiny(Last(run).files, 9.0);
    run, steps := FlushNine(run, steps, Old, 2, Lower[0]);
  }

  /** Keys 1 and 9, flushed twice: the second time the tables stop above the first ones. */
  lemma {:induction false} TwoLayers() returns (run: seq<State>, steps: seq<Step>)
    ensures IsRun(run, steps)
    ensures Last(run) == State([], None, [[], Upper, Lower, [], [], [], []], Filled, 0, [], 6, None)
  {
    run, steps := OneLayer();
    PickTiny(Last(run).files, 1.0);
    assert AnyOverlap(Lower, Some(1.0), Some(1.0)) by { assert Overlaps(Lower[0], Some(1.0), Some(1.0)); }
    run, steps := WriteAndFlush(run, steps, 1.0, New, 1);
    assert Last(run).files == [[], [Upper[0]], Lower, [], [], [], []];
    PickTiny(Last(run).files, 9.0);
    assert AnyOverlap(Lower, Some(9.0), Some(9.0)) by { assert Overlaps(Lower[1], Some(9.0), Some(9.0)); }
    run, steps := FlushNine(run, steps, New, 1, Upper[0]);
  }

  lemma {:induction false} RangeMembers()
    ensures Sorted(Merged) && forall e :: e in Merged <==> InFiles(Upper + Lower, e)
  {
    var fs := Upper + Lower;
    assert fs[0] == Upper[0] && fs[1] == Upper[1] && fs[2] == Lower[0] && fs[3] == Lower[1];
    forall e | e in Merged ensures InFiles(fs, e) {
      assert fs[0] in fs && fs[1] in fs && fs[2] in fs && fs[3] in fs;
    }
  }

  lemma {:induction false} KeptStep(v: Levels, level: nat, merged: seq<Entry>, smallest: nat, n: nat)
    requires n < |merged|
    ensures var r := Kept(v, level, merged, smallest, n);
            Kept(v, level, merged, smallest, n + 1)
            == if Dropped(v, level, merged, smallest, merged[n]) then r else r + [merged[n]]
  {
  }

  /** Of two versions of each of two keys the newer are kept. */
  lemma {:induction false} NewestKept(v: Levels, a: Entry, b: Entry, c: Entry, d: Entry, smallest: nat)
    requires a.key == b.key < c.key == d.key && Newer(a, b) && Newer(c, d) && a.op.Put? && c.op.Put?
    requires a.num <= smallest && c.num <= smallest
    ensures Kept(v, 1, [a, b, c, d], smallest, 4) == [a, c]
  {
    var merged := [a, b, c, d];
    assert merged[0] in merged && merged[2] in merged;
    assert Superseded(merged, b, smallest) && Superseded(merged, d, smallest);
    assert !Superseded(merged, a, smallest) && !Superseded(merged, c, smallest);
    KeptStep(v, 1, merged, smallest, 0);
    KeptStep(v, 1, merged, smallest, 1);
    KeptStep(v, 1, merged, smallest, 2);
    KeptStep(v, 1, merged, smallest, 3);
  }

  lemma {:induction false} RangeSelected(v: Levels)
    requires v == [[], Upper, Lower, [], [], [], []]
    ensures Selected(v, 1, Upper, Lower)
  {
    assert v[1] == Upper && v[2] == Lower;
  }

  lemma {:induction false} OneOutput(st: State, p: Pending, out: File)
    requires Selected(st.files, p.level, p.in0, p.in1) && p.smallest == Floor(st)
    requires Sorted(p.merged) && forall e :: e in p.merged <==> InFiles(p.in0 + p.in1, e)
    requires out.entries == Kept(st.files, p.level, p.merged, p.smallest, |p.merged|) && out.entries != []
    requires p.outs == [out] && out.number == st.nextFile
    ensures Prepared(st, p, st.nextFile + 1)
  {
    assert Tables([out]) == [out.entries];
    assert [out.entries][..0] == [];
  }

  /** A manual compaction of level 1 over the whole key range can begin. */
  lemma {:induction false} RangeIsPrepared(st: State)
    requires st.files == [[], Upper, Lower, [], [], [], []] && Floor(st) == 5 && st.nextFile == 6
    ensures Prepared(st, Range, 7)
  {
    RangeSelected(st.files);
    RangeMembers();
    NewestKept(st.files, Merged[0], Merged[1], Merged[2], Merged[3], 5);
    OneOutput(st, Range, Output);
  }

  /** The compaction begins while key 5 waits in the immutable memtable. */
  lemma {:induction false} FiveWaits() returns (run: seq<State>, steps: seq<Step>)
    ensures IsRun(run, steps)
    ensures Last(run) == State([], Some(Fresh.entries), [[], Upper, Lower, [], [], [], []],
                               Filled + [Write(5.0, New)], 5, [], 7, Some(Range))
  {
    run, steps := TwoLayers();
    assert InsertSorted([], Fresh.entries[0]) == Fresh.entries;
    run, steps := Extend(run, steps, Insert(Write(5.0, New)));
    run, steps := Extend(run, steps, Publish);
    run, steps := Extend(run, steps, Switch);
    RangeIsPrepared(Last(run));
    run, steps := Extend(run, steps, Begin(Range, 7));
  }

  lemma {:induction false} MergeFirst(a: File, b: File)
    requires BySmallest(b, a)
    ensures MergeFiles([a], [b]) == [b, a]
  {
    assert [b][1..] == [];
    assert MergeFiles([a], [b]) == [b] + MergeFiles([a], []);
  }

  lemma {:induction false} MergeMiddle(a: File, b: File, c: File)
    requires BySmallest(a, b) && BySmallest(b, c)
    ensures MergeFiles([a, c], [b]) == [a, b, c]
  {
    assert [a, c][1..] == [c] && [b][1..] == [];
    MergeFirst(c, b);
    assert MergeFiles([a, c], [b]) == [a] + MergeFiles([c], [b]);
  }

  lemma {:induction false} RemoveAround(a: File, b: File, c: File, deleted: set<nat>)
    requires a.number in deleted && b.number !in deleted && c.number in deleted
    ensures Remove([a, b, c], deleted) == [b]
  {
    assert [a, b, c][1..] == [b, c] && [b, c][1..] == [c] && [c][1..] == [];
    assert Remove([c], deleted) == [];
    assert Remove([b, c], deleted) == [b] + Remove([c], deleted);
  }

  /** The flush puts key 5 between the inputs. */
  lemma {:induction false} FiveLands() returns (run: seq<State>, steps: seq<Step>)
    ensures IsRun(run, steps)
    ensures Last(run) == State([], None, [[], Upper, [Lower[0], Fresh, Lower[1]], [], [], [], []],
                               Filled + [Write(5.0, New)], 5, [], 8, Some(Range))
  {
    run, steps := FiveWaits();
    var st := Last(run);
    PickTiny(st.files, 5.0);
    MergeMiddle(Lower[0], Fresh, Lower[1]);
    assert FlushedFile(st, 1) == Fresh;
    run, steps := Extend(run, steps, Flush(1, 10));
  }

  lemma {:induction false} RemoveAll(files: seq<File>, deleted: set<nat>)
    requires forall f | f in files :: f.number in deleted
    ensures Remove(files, deleted) == []
  {
    if files != [] {
      RemoveAll(files[1..], deleted);
    }
  }

  lemma {:induction false} LowerCovered(a: File, f: File, c: File, o: File)
    requires a.number != f.number && c.number != f.number && BySmallest(o, f)
    ensures MergeFiles(Remove([a, f, c], Numbers([a, c])), [o]) == [o, f]
  {
    var deleted := Numbers([a, c]);
    assert [a, c][0] in [a, c] && [a, c][1] in [a, c];
    RemoveAround(a, f, c, deleted);
    MergeFirst(f, o);
  }

  lemma {:induction false} ReplaceAround(v: Levels, a: File, f: File, c: File, o: File)
    requires |v| == NUM_LEVELS && v[2] == [a, f, c]
    requires a.number != f.number && c.number != f.number && BySmallest(o, f)
    ensures Replace(v, 1, v[1], [a, c], [o]) == v[1 := []][2 := [o, f]]
  {
    RemoveAll(v[1], Numbers(v[1]));
    LowerCovered(a, f, c, o);
  }

  lemma {:induction false} RangeInstalls(st: State)
    requires st.files == [[], Upper, [Lower[0], Fresh, Lower[1]], [], [], [], []] && st.pending == Some(Range)
    ensures Apply(st, Install) == st.(files := [[], [], [Output, Fresh], [], [], [], []], pending := None)
  {
    ReplaceAround(st.files, Lower[0], Fresh, Lower[1], Output);
    assert st.files[1] == Upper && [Lower[0], Lower[1]] == Lower;
    assert st.files[1 := []][2 := [Output, Fresh]] == [[], [], [Output, Fresh], [], [], [], []];
  }

  /** The installation lays the output over it. */
  lemma {:induction false} OutputCoversFive() returns (run: seq<State>, steps: seq<Step>)
    ensures IsRun(run, steps)
    ensures Last(run) == State([], None, [[], [], [Output, Fresh], [], [], [], []], Filled + [Write(5.0, New)], 5, [],
              8, None)
  {
    run, steps := FiveLands();
    RangeInstalls(Last(run));
    run, steps := Extend(run, steps, Install);
  }

  lemma {:induction false} NothingDeeper(v: Levels, l: nat, k: UserKey, s: nat)
    requires l <= |v| && forall m | l <= m < |v| :: LevelGet(v[m], k, s) == None
    ensures DeeperGet(v, l, k, s) == None
    decreases |v| - l
  {
    if l < |v| {
      NothingDeeper(v, l + 1, k, s);
    }
  }

  /** Of the two files that can hold key 5 the search opens the output, which does not. */
  lemma {:induction false} FiveIsHidden(v: Levels)
    requires v == [[], [], [Output, Fresh], [], [], [], []]
    ensures VersionGet(v, 5.0, 5) == None
  {
    assert FindIndex([Output, Fresh], LookupKey(5.0, 5)) == 0;
    assert LevelGet([Output, Fresh], 5.0, 5) == None;
    NothingDeeper(v, 1, 5.0, 5);
  }

  /** A run after which no read finds a published write; it is not careful. */
  lemma {:induction false} LostWrite() returns (run: seq<State>, steps: seq<Step>)
    ensures IsRun(run, steps) && Floor(Last(run)) <= 5 <= Last(run).published <= |Last(run).history|
    ensures SpecGet(Last(run).history, 5.0, 5) == Some("new") && Outcome(DbGet(Last(run), 5.0, 5)) == None
    ensures !Careful(run, steps, |steps|)
  {
    run, steps := OutputCoversFive();
    FiveIsHidden(Last(run).files);
    if Careful(run, steps, |steps|) {
      RunGetRefinesHistory(run, steps, |steps|, 5.0, 5);
    }
  }
}
