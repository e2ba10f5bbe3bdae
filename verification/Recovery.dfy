/**
 Recovery of a running database: the edits that the steps of any run log, replayed through one
 builder after a snapshot of the version, give back the version the run had reached.
 */
module Recovery {
  import opened DbFormat
  import opened Version
  import opened Inputs
  import opened Picking
  import opened Edits
  import opened DbState
  import opened DbSteps
  import VB = VersionBuilder

  const NOTHING: VB.Change := VB.Change({}, [])

  /** Files are dropped from two neighbouring levels and added to the lower one. */
  function Swap(level: nat, in0: seq<File>, in1: seq<File>, outs: seq<File>): (e: VB.Edit)
    ensures |e| == NUM_LEVELS
  {
    seq(NUM_LEVELS, l requires 0 <= l < NUM_LEVELS =>
      if l == level then VB.Change(Numbers(in0), []) else if l == level + 1 then VB.Change(Numbers(in1), outs)
        else NOTHING)
  }

  function Addition(level: nat, f: File): (e: VB.Edit)
    ensures |e| == NUM_LEVELS
  {
    seq(NUM_LEVELS, l requires 0 <= l < NUM_LEVELS => if l == level then VB.Change({}, [f]) else NOTHING)
  }

  /** The edit that a step logs; a step that changes no file counts as an edit that says nothing. */
  ghost function EditOf(st: State, step: Step): (e: VB.Edit)
    requires Enabled(st, step) && |st.files| == NUM_LEVELS
    ensures |e| == NUM_LEVELS
  {
    match step
    case Flush(size, overlapLimit) =>
      if st.imm.value == [] then seq(NUM_LEVELS, _ => NOTHING)
      else Addition(FlushLevel(st, size, overlapLimit), FlushedFile(st, size))
    case Move(level, file) => Swap(level, [file], [], [file])
    case Install => Swap(st.pending.value.level, st.pending.value.in0, st.pending.value.in1, st.pending.value.outs)
    case _ => seq(NUM_LEVELS, _ => NOTHING)
  }

  // ---- Each edit installs its step ------------------------------------------------------------

  /** The edit gives the level of `w` from the level of `v`. */
  predicate Installs(v: Levels, w: Levels, e: VB.Edit, l: nat)
    requires |v| == |w| == |e| == NUM_LEVELS && l < NUM_LEVELS
  {
    w[l] == VB.Save(v[l], VB.Apply(VB.EMPTY, e[l]))
  }

  lemma {:induction false} NothingInstalls(files: seq<File>)
    requires SortedBySmallest(files)
    ensures files == VB.Save(files, VB.Apply(VB.EMPTY, NOTHING))
  {
    VB.OneEdit(files, NOTHING);
    VB.SameElements(files, VB.Save(files, VB.Apply(VB.EMPTY, NOTHING)));
  }

  lemma {:induction false} ChangeInstalls(files: seq<File>, files': seq<File>, c: VB.Change)
    requires SortedBySmallest(files) && SortedBySmallest(files') && DistinctNumbers(c.added) && ClearOf(files, c.added)
    requires forall f :: f in files' <==> f in c.added || (f in files && f.number !in c.deleted)
    ensures files' == VB.Save(files, VB.Apply(VB.EMPTY, c))
  {
    VB.OneEdit(files, c);
    VB.SameElements(files', VB.Save(files, VB.Apply(VB.EMPTY, c)));
  }

  lemma {:induction false} AdditionInstalls(v: Levels, level: nat, f: File, l: nat)
    requires VersionInv(v) && level < NUM_LEVELS && l < NUM_LEVELS && VersionInv(AddFile(v, level, f))
    requires forall k: int, g | FileAt(v, k, g) :: g.number < f.number
    ensures Installs(v, AddFile(v, level, f), Addition(level, f), l)
  {
    if l == level {
      forall g | g in v[l] ensures g.number < f.number { assert FileAt(v, l, g); }
      ChangeInstalls(v[l], AddFile(v, level, f)[l], VB.Change({}, [f]));
    } else {
      NothingInstalls(v[l]);
    }
  }

  /** The outputs are new to the level they go to. */
  ghost predicate NewBelow(v: Levels, level: nat, outs: seq<File>) {
    DistinctNumbers(outs) && forall g, o | FileAt(v, level + 1, g) && o in outs :: g.number != o.number
  }

  lemma {:induction false} SwapInstalls(v: Levels, level: nat, in0: seq<File>, in1: seq<File>, outs: seq<File>, l: nat)
    requires VersionInv(v) && level + 1 < NUM_LEVELS && l < NUM_LEVELS
    requires VersionInv(Replace(v, level, in0, in1, outs)) && NewBelow(v, level, outs)
    ensures Installs(v, Replace(v, level, in0, in1, outs), Swap(level, in0, in1, outs), l)
  {
    var w := Replace(v, level, in0, in1, outs);
    if l == level {
      ChangeInstalls(v[l], w[l], VB.Change(Numbers(in0), []));
    } else if l == level + 1 {
      forall g, o | g in v[l] && o in outs ensures g.number != o.number { assert FileAt(v, l, g); }
      ChangeInstalls(v[l], w[l], VB.Change(Numbers(in1), outs));
    } else {
      NothingInstalls(v[l]);
    }
  }

  // ---- No number comes back to a level --------------------------------------------------------

  /**
   `seen` are the numbers each level has had, with those it has. They are in use, no file lies above
   a level that has had its number, and the outputs of a running compaction have been nowhere.
   */
  ghost predicate Tracks(st: State, seen: seq<set<nat>>) {
    && |seen| == |st.files| == NUM_LEVELS
    && (forall l: int, g | FileAt(st.files, l, g) :: g.number in seen[l])
    && (forall l, n | 0 <= l < NUM_LEVELS && n in seen[l] :: n < st.nextFile)
    && (forall l, k: int, g | 0 <= l < NUM_LEVELS && FileAt(st.files, k, g) && g.number in seen[l] :: l <= k)
    && (st.pending.Some? ==> forall o, l | o in st.pending.value.outs && 0 <= l < NUM_LEVELS :: o.number !in seen[l])
  }

  /** The edit adds only numbers that its levels have not had. */
  ghost predicate Adds(e: VB.Edit, seen: seq<set<nat>>)
    requires |e| == |seen|
  {
    forall l | 0 <= l < |e| :: DistinctNumbers(e[l].added) && Numbers(e[l].added) !! seen[l]
  }

  function Grown(e: VB.Edit, seen: seq<set<nat>>): seq<set<nat>>
    requires |e| == |seen|
  {
    seq(|e|, l requires 0 <= l < |e| => seen[l] + Numbers(e[l].added))
  }

  lemma {:induction false} NothingTracks(st: State, st': State, seen: seq<set<nat>>, e: VB.Edit)
    requires Tracks(st, seen) && |e| == NUM_LEVELS && (forall l | 0 <= l < NUM_LEVELS :: e[l].added == [])
    requires st'.files == st.files && st.nextFile <= st'.nextFile
    requires st'.pending.Some? ==>
               st'.pending == st.pending || forall o | o in st'.pending.value.outs :: st.nextFile <= o.number
    ensures Adds(e, seen) && Tracks(st', Grown(e, seen))
  {
    var seen' := Grown(e, seen);
    assert forall l | 0 <= l < NUM_LEVELS :: Numbers(e[l].added) == {} && seen'[l] == seen[l];
    if st'.pending.Some? && st'.pending != st.pending {
      forall o, l | o in st'.pending.value.outs && 0 <= l < NUM_LEVELS ensures o.number !in seen'[l] {
        assert o.number in seen[l] ==> o.number < st.nextFile;
      }
    }
  }

  lemma {:induction false} AdditionTracks(st: State, st': State, seen: seq<set<nat>>, level: nat, f: File)
    requires Tracks(st, seen) && level < NUM_LEVELS && f.number == st.nextFile
    requires st'.files == AddFile(st.files, level, f) && st'.nextFile == st.nextFile + 1 && st'.pending == st.pending
    requires st.pending.Some? ==> forall o | o in st.pending.value.outs :: o.number < st.nextFile
    requires forall l: int, k: int, g, h | FileAt(st'.files, l, g) && FileAt(st'.files, k, h)
             && g.number == h.number :: l == k
    ensures Adds(Addition(level, f), seen) && Tracks(st', Grown(Addition(level, f), seen))
  {
    var e := Addition(level, f);
    var seen' := Grown(e, seen);
    AddFileAt(st.files, level, f);
    assert Numbers([f]) == {f.number};
    assert forall l | 0 <= l < NUM_LEVELS && l != level :: Numbers(e[l].added) == {} && seen'[l] == seen[l];
    assert FileAt(st'.files, level, f);
  }

  lemma {:induction false} SwapSeen(seen: seq<set<nat>>, level: nat, in0: seq<File>, in1: seq<File>, outs: seq<File>,
                                    l: nat)
    requires |seen| == NUM_LEVELS && level + 1 < NUM_LEVELS && l < NUM_LEVELS
    ensures Grown(Swap(level, in0, in1, outs), seen)[l] == if l == level + 1 then seen[l] + Numbers(outs) else seen[l]
  {
    assert Numbers([]) == {};
  }

  /** Outputs that are new everywhere, or one file that comes from the level above. */
  ghost predicate Fresh(v: Levels, seen: seq<set<nat>>, level: nat, outs: seq<File>)
    requires |seen| == NUM_LEVELS
  {
    || (forall o, l | o in outs && 0 <= l < NUM_LEVELS :: o.number !in seen[l])
    || (forall o | o in outs :: FileAt(v, level, o))
  }

  lemma {:induction false} SwapTracks(st: State, st': State, seen: seq<set<nat>>, level: nat, in0: seq<File>,
                                      in1: seq<File>, outs: seq<File>)
    requires Tracks(st, seen) && level + 1 < NUM_LEVELS && DistinctNumbers(outs) && Fresh(st.files, seen, level, outs)
    requires st'.files == Replace(st.files, level, in0, in1, outs) && st.nextFile <= st'.nextFile && st'.pending.None?
    requires forall o | o in outs :: o.number < st'.nextFile
    requires forall l: int, k: int, g, h | FileAt(st'.files, l, g) && FileAt(st'.files, k, h)
             && g.number == h.number :: l == k
    ensures Adds(Swap(level, in0, in1, outs), seen) && Tracks(st', Grown(Swap(level, in0, in1, outs), seen))
  {
    var e := Swap(level, in0, in1, outs);
    var seen' := Grown(e, seen);
    forall l | 0 <= l < NUM_LEVELS ensures seen'[l] == if l == level + 1 then seen[l] + Numbers(outs) else seen[l] {
      SwapSeen(seen, level, in0, in1, outs, l);
    }
    forall o | o in outs ensures o.number !in seen[level + 1] && FileAt(st'.files, level + 1, o) {
      assert FileAt(st.files, level, o) && o.number in seen[level + 1] ==> level + 1 <= level;
    }
    forall k: int, g | FileAt(st'.files, k, g) ensures g.number in seen'[k] {
      MovedDown(st.files, level, in0, in1, outs, k, g);
    }
    forall l, k: int, g | 0 <= l < NUM_LEVELS && FileAt(st'.files, k, g) && g.number in seen'[l] ensures l <= k {
      if g.number in seen[l] {
        MovedDown(st.files, level, in0, in1, outs, k, g);
      } else {
        var o :| o in outs && o.number == g.number;
        assert FileAt(st'.files, level + 1, o);
      }
    }
  }

  /** A file of the new version was in its level, or is an output. */
  lemma {:induction false} MovedDown(v: Levels, level: nat, in0: seq<File>, in1: seq<File>, outs: seq<File>, k: int,
                                     g: File)
    requires level + 1 < |v| && FileAt(Replace(v, level, in0, in1, outs), k, g)
    ensures FileAt(v, k, g) || (k == level + 1 && g in outs)
  {
  }

  // ---- Every step -----------------------------------------------------------------------------

  /** The step's edit leads from one version to the other and adds only numbers new to their level. */
  ghost predicate Recorded(st: State, st': State, e: VB.Edit, seen: seq<set<nat>>)
    requires |e| == |seen| == NUM_LEVELS
  {
    && |st.files| == |st'.files| == NUM_LEVELS
       && (forall l | 0 <= l < NUM_LEVELS :: Installs(st.files, st'.files, e, l))
    && Adds(e, seen) && Tracks(st', Grown(e, seen))
  }

  lemma {:induction false} SwapRecorded(st: State, st': State, seen: seq<set<nat>>, level: nat, in0: seq<File>,
                                        in1: seq<File>, outs: seq<File>)
    requires VersionInv(st.files) && VersionInv(st'.files) && Tracks(st, seen) && level + 1 < NUM_LEVELS
    requires NewBelow(st.files, level, outs) && Fresh(st.files, seen, level, outs)
    requires st'.files == Replace(st.files, level, in0, in1, outs) && st.nextFile <= st'.nextFile && st'.pending.None?
    requires forall o | o in outs :: o.number < st'.nextFile
    ensures Recorded(st, st', Swap(level, in0, in1, outs), seen)
  {
    forall l | 0 <= l < NUM_LEVELS ensures Installs(st.files, st'.files, Swap(level, in0, in1, outs), l) {
      SwapInstalls(st.files, level, in0, in1, outs, l);
    }
    SwapTracks(st, st', seen, level, in0, in1, outs);
  }

  lemma {:induction false} FlushRecorded(st: State, step: Step, seen: seq<set<nat>>)
    requires Inv(st) && Enabled(st, step) && step.Flush? && st.imm.value != [] && Inv(Apply(st, step))
             && Tracks(st, seen)
    ensures Recorded(st, Apply(st, step), EditOf(st, step), seen)
  {
    var st' := Apply(st, step);
    var f := FlushedFile(st, step.size);
    var level := FlushLevel(st, step.size, step.overlapLimit);
    PickLevelAvoidsOverlap(st.files, f.Smallest().user, f.Largest().user, step.overlapLimit);
    forall l | 0 <= l < NUM_LEVELS ensures Installs(st.files, st'.files, Addition(level, f), l) {
      AdditionInstalls(st.files, level, f, l);
    }
    AdditionTracks(st, st', seen, level, f);
  }

  lemma {:induction false} MoveRecorded(st: State, step: Step, seen: seq<set<nat>>)
    requires Inv(st) && Enabled(st, step) && step.Move? && Inv(Apply(st, step)) && Tracks(st, seen)
    ensures Recorded(st, Apply(st, step), EditOf(st, step), seen)
  {
    assert step.file in [step.file];
    assert FileAt(st.files, step.level, step.file);
    SwapRecorded(st, Apply(st, step), seen, step.level, [step.file], [], [step.file]);
  }

  lemma {:induction false} InstallRecorded(st: State, step: Step, seen: seq<set<nat>>)
    requires Inv(st) && Enabled(st, step) && step.Install? && Inv(Apply(st, step)) && Tracks(st, seen)
    ensures Recorded(st, Apply(st, step), EditOf(st, step), seen)
  {
    var p := st.pending.value;
    assert OutputsOk(st.files, p.level, p.in0, p.in1, p.outs);
    SwapRecorded(st, Apply(st, step), seen, p.level, p.in0, p.in1, p.outs);
  }

  lemma {:induction false} QuietRecorded(st: State, st': State, seen: seq<set<nat>>, e: VB.Edit)
    requires VersionInv(st.files) && Tracks(st, seen) && |e| == NUM_LEVELS
             && (forall l | 0 <= l < NUM_LEVELS :: e[l] == NOTHING)
    requires st'.files == st.files && st.nextFile <= st'.nextFile
    requires st'.pending.Some? ==>
               st'.pending == st.pending || forall o | o in st'.pending.value.outs :: st.nextFile <= o.number
    ensures Recorded(st, st', e, seen)
  {
    forall l | 0 <= l < NUM_LEVELS ensures Installs(st.files, st'.files, e, l) {
      NothingInstalls(st.files[l]);
    }
    NothingTracks(st, st', seen, e);
  }

  lemma {:induction false} StepRecorded(st: State, step: Step, seen: seq<set<nat>>)
    requires Inv(st) && Enabled(st, step) && Harmless(st, step) && Tracks(st, seen)
    ensures Inv(Apply(st, step)) && Recorded(st, Apply(st, step), EditOf(st, step), seen)
  {
    StepKeepsInv(st, step);
    if step.Flush? && st.imm.value != [] {
      FlushRecorded(st, step, seen);
    } else if step.Move? {
      MoveRecorded(st, step, seen);
    } else if step.Install? {
      InstallRecorded(st, step, seen);
    } else {
      QuietRecorded(st, Apply(st, step), seen, EditOf(st, step));
    }
  }

  // ---- Whole runs -----------------------------------------------------------------------------

  /** The edits logged between two states of a run. */
  ghost function Logged(run: seq<State>, steps: seq<Step>, m: nat, n: nat): (es: seq<VB.Edit>)
    requires IsRun(run, steps) && m <= n < |run|
    ensures |es| == n - m && forall e | e in es :: |e| == NUM_LEVELS
  {
    if m == n then [] else Logged(run, steps, m, n - 1) + [EditOf(run[n - 1], steps[n - 1])]
  }

  /** The numbers a level has had: those of its base and those added to it. */
  function Seen(base: seq<File>, cs: seq<VB.Change>): set<nat> {
    if cs == [] then Numbers(base) else Seen(base, cs[..|cs| - 1]) + Numbers(cs[|cs| - 1].added)
  }

  lemma {:induction false} SeenHas(base: seq<File>, cs: seq<VB.Change>, f: File)
    requires f in base || exists k | 0 <= k < |cs| :: f in cs[k].added
    ensures f.number in Seen(base, cs)
  {
    if cs != [] {
      var front := cs[..|cs| - 1];
      if f !in cs[|cs| - 1].added {
        if f !in base {
          var k :| 0 <= k < |cs| && f in cs[k].added;
          assert f in front[k].added;
        }
        SeenHas(base, front, f);
      }
    }
  }

  lemma {:induction false} AddedOnceMore(base: seq<File>, cs: seq<VB.Change>, c: VB.Change)
    requires VB.AddedOnce(base, cs) && DistinctNumbers(c.added) && Numbers(c.added) !! Seen(base, cs)
    ensures VB.AddedOnce(base, cs + [c])
  {
    var all := cs + [c];
    forall f, g | (f in base || exists k | 0 <= k < |cs| :: f in cs[k].added)
      && g in c.added ensures f.number != g.number {
      SeenHas(base, cs, f);
      assert g.number in Numbers(c.added);
    }
    forall k | 0 <= k < |all| ensures DistinctNumbers(all[k].added) && ClearOf(base, all[k].added) {
      assert k < |cs| ==> all[k] == cs[k];
    }
    forall k, l | 0 <= k < l < |all| ensures ClearOf(all[k].added, all[l].added) {
      assert all[k] == cs[k] && (l < |cs| ==> all[l] == cs[l]);
    }
  }

  /** What holds of the edits logged so far. */
  ghost predicate Replays(v: Levels, es: seq<VB.Edit>, w: Levels, l: nat)
    requires |v| == |w| == NUM_LEVELS && l < NUM_LEVELS && forall e | e in es :: |e| == NUM_LEVELS
  {
    VB.AddedOnce(v[l], VB.At(es, l)) && VB.Install(v[l], VB.At(es, l)) == w[l]
  }

  function AllSeen(v: Levels, es: seq<VB.Edit>): seq<set<nat>>
    requires |v| == NUM_LEVELS && forall e | e in es :: |e| == NUM_LEVELS
  {
    seq(NUM_LEVELS, l requires 0 <= l < NUM_LEVELS => Seen(v[l], VB.At(es, l)))
  }

  lemma {:induction false} AtLast(es: seq<VB.Edit>, e: VB.Edit, l: nat)
    requires (forall x | x in es :: |x| == NUM_LEVELS) && |e| == NUM_LEVELS && l < NUM_LEVELS
    ensures VB.At(es + [e], l) == VB.At(es, l) + [e[l]]
  {
    assert forall x | x in es + [e] :: |x| == NUM_LEVELS;
  }

  lemma {:induction false} OneMore(base: seq<File>, cs: seq<VB.Change>, c: VB.Change, all: seq<VB.Change>)
    requires VB.AddedOnce(base, cs) && DistinctNumbers(c.added) && Numbers(c.added) !! Seen(base, cs) && all == cs + [c]
    ensures VB.AddedOnce(base, all) && Seen(base, all) == Seen(base, cs) + Numbers(c.added)
    ensures VB.Install(base, all) == VB.Save(VB.Install(base, cs), VB.Apply(VB.EMPTY, c))
  {
    AddedOnceMore(base, cs, c);
    assert all[..|all| - 1] == cs;
  }

  lemma {:induction false} ReplaysMore(v: Levels, es: seq<VB.Edit>, st: State, st': State, e: VB.Edit, l: nat)
    requires |v| == |st.files| == |st'.files| == |e| == NUM_LEVELS && l < NUM_LEVELS
             && forall x | x in es :: |x| == NUM_LEVELS
    requires Replays(v, es, st.files, l) && Installs(st.files, st'.files, e, l)
    requires DistinctNumbers(e[l].added) && Numbers(e[l].added) !! Seen(v[l], VB.At(es, l))
    ensures Replays(v, es + [e], st'.files, l)
    ensures Seen(v[l], VB.At(es + [e], l)) == Seen(v[l], VB.At(es, l)) + Numbers(e[l].added)
  {
    AtLast(es, e, l);
    OneMore(v[l], VB.At(es, l), e[l], VB.At(es + [e], l));
  }

  /** A version whose numbers are tracked can be the base of a new log. */
  lemma {:induction false} StartTracks(st: State, before: seq<set<nat>>)
    requires Inv(st) && Tracks(st, before)
    ensures Tracks(st, AllSeen(st.files, [])) && forall l | 0 <= l < NUM_LEVELS :: Replays(st.files, [], st.files, l)
  {
    var seen := AllSeen(st.files, []);
    forall l | 0 <= l < NUM_LEVELS ensures Replays(st.files, [], st.files, l) {
      LevelNumbersDistinct(st.files, l);
    }
    forall l, n | 0 <= l < NUM_LEVELS && n in seen[l] ensures n in before[l]
      && exists f :: FileAt(st.files, l, f) && f.number == n {
      var f :| f in st.files[l] && f.number == n;
      assert FileAt(st.files, l, f);
    }
  }

  lemma {:induction false} RunTracks(run: seq<State>, steps: seq<Step>, n: nat) returns (seen: seq<set<nat>>)
    requires IsRun(run, steps) && n < |run| && Careful(run, steps, n)
    ensures Tracks(run[n], seen)
  {
    if n == 0 {
      seen := seq(NUM_LEVELS, _ => {});
      assert forall l | 0 <= l < NUM_LEVELS :: run[0].files[l] == [];
    } else {
      var before := RunTracks(run, steps, n - 1);
      RunKeepsInv(run, steps, n - 1);
      StepRecorded(run[n - 1], steps[n - 1], before);
      seen := Grown(EditOf(run[n - 1], steps[n - 1]), before);
    }
  }

  lemma {:induction false} LoggedReplays(run: seq<State>, steps: seq<Step>, m: nat, n: nat)
    requires IsRun(run, steps) && m <= n < |run| && Careful(run, steps, n)
    ensures forall l | 0 <= l < NUM_LEVELS :: Replays(run[m].files, Logged(run, steps, m, n), run[n].files, l)
    ensures Tracks(run[n], AllSeen(run[m].files, Logged(run, steps, m, n)))
    decreases n
  {
    if m == n {
      RunKeepsInv(run, steps, n);
      var before := RunTracks(run, steps, n);
      StartTracks(run[n], before);
    } else {
      LoggedReplays(run, steps, m, n - 1);
      RunKeepsInv(run, steps, n - 1);
      LoggedMore(run[m].files, Logged(run, steps, m, n - 1), run[n - 1], steps[n - 1]);
    }
  }

  lemma {:induction false} LoggedMore(v: Levels, es: seq<VB.Edit>, st: State, step: Step)
    requires |v| == NUM_LEVELS && (forall e | e in es :: |e| == NUM_LEVELS) && Inv(st) && Enabled(st, step)
             && Harmless(st, step)
    requires (forall l | 0 <= l < NUM_LEVELS :: Replays(v, es, st.files, l)) && Tracks(st, AllSeen(v, es))
    ensures var st' := Apply(st, step);
            var es' := es + [EditOf(st, step)];
            |st'.files| == NUM_LEVELS && (forall e | e in es' :: |e| == NUM_LEVELS) &&
            (forall l | 0 <= l < NUM_LEVELS :: Replays(v, es', st'.files, l)) && Tracks(st', AllSeen(v, es'))
  {
    var st' := Apply(st, step);
    var e := EditOf(st, step);
    var seen := AllSeen(v, es);
    StepRecorded(st, step, seen);
    forall l | 0 <= l < NUM_LEVELS ensures Replays(v, es + [e], st'.files, l)
      && AllSeen(v, es + [e])[l] == Grown(e, seen)[l] {
      ReplaysMore(v, es, st, st', e, l);
    }
    assert AllSeen(v, es + [e]) == Grown(e, seen);
  }

  /** Whatever a careful run did since the snapshot was written, recovery gives the version it had reached. */
  lemma {:induction false} RecoveryIsExact(run: seq<State>, steps: seq<Step>, m: nat, n: nat)
    requires IsRun(run, steps) && m <= n < |run| && Careful(run, steps, n)
    ensures VB.Recovered(run[m].files, Logged(run, steps, m, n)) == run[n].files
  {
    LoggedReplays(run, steps, m, n);
    ReplaysRecover(run[m].files, Logged(run, steps, m, n), run[n].files);
  }

  lemma {:induction false} ReplaysRecover(v: Levels, es: seq<VB.Edit>, w: Levels)
    requires |v| == |w| == NUM_LEVELS && (forall e | e in es :: |e| == NUM_LEVELS)
    requires forall l | 0 <= l < NUM_LEVELS :: Replays(v, es, w, l)
    ensures VB.Recovered(v, es) == w
  {
    forall l | 0 <= l < NUM_LEVELS ensures VB.AddedOnce(v[l], VB.At(es, l)) && VB.Install(v[l], VB.At(es, l)) == w[l] {
      assert Replays(v, es, w, l);
    }
    VB.RecoveredIsInstalled(v, es);
  }
}
