/**
 The steps of the database and the theorem over whole runs. Writes, memtable switches,
 flushes and snapshots may all happen between the start of a compaction, picked or manual,
 and the installation of its outputs. A flush in that time can do harm; see `Harmless`.
 */
module DbSteps {
  import opened DbFormat
  import opened Version
  import opened Inputs
  import opened Picking
  import opened Edits
  import opened Compaction
  import opened DbState

  datatype Step =
    | Insert(w: Write)                       // one record of the leader's batch enters the memtable
    | Skip                                   // or is lost to an error, with its sequence number
    | Publish                                // SetLastSequence after the whole batch
    | Switch                                 // the full memtable becomes immutable
    | Flush(size: nat, overlapLimit: int)    // the immutable memtable becomes a table
    | Move(level: nat, file: File)           // trivial move
    | Begin(p: Pending, nextFile: nat)       // a compaction, picked or manual, reads its inputs
    | Install                                // and installs its outputs
    | Snapshot
    | Release(i: nat)

  function Tables(outs: seq<File>): seq<seq<Entry>> { seq(|outs|, i requires 0 <= i < |outs| => outs[i].entries) }

  /** What DoCompactionWork produces from closed inputs, with fresh file numbers. */
  ghost predicate Prepared(st: State, p: Pending, nextFile: nat) {
    && Selected(st.files, p.level, p.in0, p.in1)
    && Sorted(p.merged) && (forall e :: e in p.merged <==> InFiles(p.in0 + p.in1, e))
    && p.smallest == Floor(st)
    && NonEmptyTables(Tables(p.outs))
    && Flatten(Tables(p.outs)) == Kept(st.files, p.level, p.merged, p.smallest, |p.merged|)
    && DistinctNumbers(p.outs) && st.nextFile <= nextFile
    && (forall o | o in p.outs :: st.nextFile <= o.number < nextFile)
  }

  ghost predicate Enabled(st: State, step: Step) {
    match step
    case Insert(w) => w.Write? && |st.history| + 1 < MAX_SEQUENCE
    case Skip => |st.history| + 1 < MAX_SEQUENCE
    case Publish => true
    case Switch => st.imm.None?
    case Flush(_, _) => st.imm.Some?
    case Move(level, file) => st.pending.None? && Selected(st.files, level, [file], [])
    case Begin(p, nextFile) => st.pending.None? && Prepared(st, p, nextFile)
    case Install => st.pending.Some?
    case Snapshot => true
    case Release(i) => i < |st.snapshots|
  }

  function FlushedFile(st: State, size: nat): File
    requires st.imm.Some?
  {
    File(st.nextFile, size, st.imm.value)
  }

  function FlushLevel(st: State, size: nat, overlapLimit: int): nat
    requires st.imm.Some? && |st.files| == NUM_LEVELS
  {
    var f := FlushedFile(st, size);
    PickLevel(st.files, f.Smallest().user, f.Largest().user, overlapLimit)
  }

  ghost function Apply(st: State, step: Step): State
    requires Enabled(st, step) && |st.files| == NUM_LEVELS
  {
    match step
    case Insert(w) =>
      st.(history := st.history + [w], mem := InsertSorted(st.mem, Entry(w.key, |st.history| + 1, w.op)))
    case Skip => st.(history := st.history + [Unused])
    case Publish => st.(published := |st.history|)
    case Switch => st.(imm := Some(st.mem), mem := [])
    case Flush(size, overlapLimit) =>
      if st.imm.value == [] then st.(imm := None, nextFile := st.nextFile + 1)
      else
        var l := FlushLevel(st, size, overlapLimit);
        PickLevelAvoidsOverlap(st.files, FlushedFile(st, size).Smallest().user, FlushedFile(st, size).Largest().user,
            overlapLimit);
        st.(imm := None, nextFile := st.nextFile + 1, files := AddFile(st.files, l, FlushedFile(st, size)))
    case Move(level, file) => st.(files := Replace(st.files, level, [file], [], [file]))
    case Begin(p, nextFile) => st.(pending := Some(p), nextFile := nextFile)
    case Install =>
      var p := st.pending.value;
      if p.level + 1 < NUM_LEVELS then
          st.(files := Replace(st.files, p.level, p.in0, p.in1, p.outs), pending := None) else st
    case Snapshot => st.(snapshots := st.snapshots + [st.published])
    case Release(i) => st.(snapshots := st.snapshots[..i] + st.snapshots[i + 1..])
  }

  // ---- Writes, publication, switch and snapshots -----------------------------------------

  lemma {:induction false} InsertKeepsInv(st: State, w: Write)
    requires Inv(st) && Enabled(st, Insert(w))
    ensures Inv(Apply(st, Insert(w)))
  {
    var e := Entry(w.key, |st.history| + 1, w.op);
    var st' := Apply(st, Insert(w));
    forall x | InStore(st, x) ensures x.num < e.num && InHistory(st'.history, x) { assert InHistory(st.history, x); }
    forall x | x in st.mem ensures x.IK() != e.IK() { assert InStore(st, x); }
    InsertSortedKeepsOrder(st.mem, e);
    InsertSortedMembers(st.mem, e);
    assert forall x :: InStore(st', x) <==> InStore(st, x) || x == e;
    forall x | InVersion(st.files, x) || (st.imm.Some? && x in st.imm.value) ensures x.num < e.num {
      assert InStore(st, x);
    }
    InsertKeepsCoverage(st, w);
  }

  lemma {:induction false} InsertKeepsCoverage(st: State, w: Write)
    requires Coverage(st) && SnapshotsOk(st) && Enabled(st, Insert(w)) && |st.files| == NUM_LEVELS
    requires forall x :: InStore(Apply(st, Insert(w)), x) <==>
               InStore(st, x) || x == Entry(w.key, |st.history| + 1, w.op)
    ensures Coverage(Apply(st, Insert(w)))
  {
    var st' := Apply(st, Insert(w));
    forall e | InHistory(st'.history, e) && !InStore(st', e) ensures Dispensable(st', Floor(st'), e) {
      assert InHistory(st.history, e) && !InStore(st, e);
      assert Dispensable(st, Floor(st), e);
      if x :| InHistory(st.history, x) && x.key == e.key && Newer(x, e) && x.num <= Floor(st) {
        assert InHistory(st'.history, x);
      }
    }
  }

  /** Raising the floor and keeping store and history keeps coverage. */
  lemma {:induction false} SameStoreKeepsCoverage(st: State, st': State)
    requires Coverage(st) && st'.history == st.history && Floor(st) <= Floor(st')
    requires forall x :: InStore(st', x) <==> InStore(st, x)
    ensures Coverage(st')
  {
    forall e | InHistory(st'.history, e) && !InStore(st', e) ensures Dispensable(st', Floor(st'), e) {
      assert Dispensable(st, Floor(st), e);
    }
  }

  lemma {:induction false} SkipKeepsInv(st: State)
    requires Inv(st) && Enabled(st, Skip)
    ensures Inv(Apply(st, Skip))
  {
    var st' := Apply(st, Skip);
    assert forall x :: InStore(st', x) <==> InStore(st, x);
    assert forall x :: InHistory(st'.history, x) <==> InHistory(st.history, x);
    forall e | InHistory(st'.history, e) && !InStore(st', e) ensures Dispensable(st', Floor(st'), e) {
      assert Dispensable(st, Floor(st), e);
    }
  }

  lemma {:induction false} PublishKeepsInv(st: State)
    requires Inv(st)
    ensures Inv(Apply(st, Publish))
  {
    var st' := Apply(st, Publish);
    assert forall x :: InStore(st', x) <==> InStore(st, x);
    SameStoreKeepsCoverage(st, st');
  }

  lemma {:induction false} SwitchKeepsInv(st: State)
    requires Inv(st) && Enabled(st, Switch)
    ensures Inv(Apply(st, Switch))
  {
    var st' := Apply(st, Switch);
    assert forall x :: InStore(st', x) <==> InStore(st, x);
    SameStoreKeepsCoverage(st, st');
  }

  lemma {:induction false} SnapshotKeepsInv(st: State)
    requires Inv(st)
    ensures Inv(Apply(st, Snapshot))
  {
    var st' := Apply(st, Snapshot);
    assert forall x :: InStore(st', x) <==> InStore(st, x);
    SameStoreKeepsCoverage(st, st');
  }

  lemma {:induction false} ReleaseKeepsInv(st: State, i: nat)
    requires Inv(st) && Enabled(st, Release(i))
    ensures Inv(Apply(st, Release(i)))
  {
    var st' := Apply(st, Release(i));
    assert forall x :: InStore(st', x) <==> InStore(st, x);
    ReleaseKeepsSnapshots(st, i);
    SameStoreKeepsCoverage(st, st');
  }

  lemma {:induction false} ReleaseKeepsSnapshots(st: State, i: nat)
    requires SnapshotsOk(st) && i < |st.snapshots|
    ensures var st' := st.(snapshots := st.snapshots[..i] + st.snapshots[i + 1..]);
            SnapshotsOk(st') && Floor(st) <= Floor(st')
  {
    var r := st.snapshots[..i] + st.snapshots[i + 1..];
    assert forall j | 0 <= j < |r| :: r[j] == st.snapshots[if j < i then j else j + 1];
  }

  // ---- Flush -----------------------------------------------------------------------------

  /** A flush that does not put its table among the outputs of the running compaction, over the range of one of them. */
  ghost predicate Harmless(st: State, step: Step)
    requires |st.files| == NUM_LEVELS
  {
    step.Flush? && st.imm.Some? && st.imm.value != [] && st.pending.Some?
      && FlushLevel(st, step.size, step.overlapLimit) == st.pending.value.level + 1 ==>
      forall o | o in st.pending.value.outs :: Disjoint(FlushedFile(st, step.size), o)
  }

  /** While a compaction of inputs that cover their range runs, every flush is harmless. */
  lemma {:induction false} ConnectedIsHarmless(st: State, step: Step)
    requires Inv(st) && Enabled(st, step)
    requires st.pending.Some? ==> Connected(st.pending.value.in0 + st.pending.value.in1)
    ensures Harmless(st, step)
  {
    if step.Flush? && st.imm.value != [] && st.pending.Some? {
      var f, l, p := FlushedFile(st, step.size), FlushLevel(st, step.size, step.overlapLimit), st.pending.value;
      FlushedFileFits(st, step.size, step.overlapLimit);
      if l == p.level + 1 {
        FlushOutsideInputs(st.files, l, f, p);
        InputsOk(st.files, p);
        forall o | o in p.outs ensures Disjoint(f, o) {
          OutputVersusStaying(p.in0 + p.in1, o, f);
        }
      }
    }
  }

  lemma {:induction false} InputsOk(v: Levels, p: Pending)
    requires VersionInv(v) && Chosen(v, p.level, p.in0, p.in1)
    ensures AllOk(p.in0 + p.in1)
  {
    forall f | f in p.in0 + p.in1 ensures f.Ok() {
      assert FileAt(v, p.level, f) || FileAt(v, p.level + 1, f);
    }
  }

  /** A file that overlaps no input lies outside a range the inputs cover without gaps. */
  lemma {:induction false} OutsideConnected(f: File, inputs: seq<File>)
    requires f.Ok() && AllOk(inputs) && Connected(inputs)
    requires forall g | g in inputs :: !Overlaps(g, Some(f.Smallest().user), Some(f.Largest().user))
    ensures Outside(f, inputs)
  {
    LargestAfterSmallest(f);
    var x := f.Smallest().user;
    if l, r :| l in inputs && r in inputs && l.Largest().user < x && f.Largest().user < r.Smallest().user {
      LargestAfterSmallest(l);
      LargestAfterSmallest(r);
      assert CoveredBy(inputs, x);
      var h :| h in inputs && MayContain(h, x);
    }
  }

  lemma {:induction false} FlushKeepsBase(v: Levels, level: nat, f: File, p: Pending, k: UserKey)
    requires VersionInv(v) && level < NUM_LEVELS && f.Ok() && FitsAt(v, level, f) && Chosen(v, p.level, p.in0, p.in1)
    requires IsBase(v, p.level, k) && exists g | g in p.in0 + p.in1 :: MayContain(g, k)
    ensures IsBase(AddFile(v, level, f), p.level, k)
  {
    var g :| g in p.in0 + p.in1 && MayContain(g, k);
    if p.level + 2 <= level {
      assert FileAt(v, p.level, g) || FileAt(v, p.level + 1, g);
      assert !MayContain(f, k);
    }
  }

  lemma {:induction false} FlushOutsideInputs(v: Levels, level: nat, f: File, p: Pending)
    requires VersionInv(v) && f.Ok() && level == p.level + 1 && FitsAt(v, level, f)
    requires Chosen(v, p.level, p.in0, p.in1) && Connected(p.in0 + p.in1)
    ensures Outside(f, p.in0 + p.in1)
  {
    forall g | g in p.in0 + p.in1 ensures g.Ok() && !Overlaps(g, Some(f.Smallest().user), Some(f.Largest().user)) {
      assert FileAt(v, p.level, g) || FileAt(v, p.level + 1, g);
    }
    OutsideConnected(f, p.in0 + p.in1);
  }

  lemma {:induction false} FlushKeepsDropped(v: Levels, level: nat, f: File, p: Pending, e: Entry)
    requires VersionInv(v) && level < NUM_LEVELS && f.Ok() && FitsAt(v, level, f) && Chosen(v, p.level, p.in0, p.in1)
    requires InFiles(p.in0 + p.in1, e) && Dropped(v, p.level, p.merged, p.smallest, e)
    ensures Dropped(AddFile(v, level, f), p.level, p.merged, p.smallest, e)
  {
    if IsBase(v, p.level, e.key) {
      var g :| g in p.in0 + p.in1 && e in g.entries;
      assert g.Ok() by { assert FileAt(v, p.level, g) || FileAt(v, p.level + 1, g); }
      InRange(g, e);
      FlushKeepsBase(v, level, f, p, e.key);
    }
  }

  lemma {:induction false} FlushKeepsClear(v: Levels, level: nat, f: File, p: Pending)
    requires level < |v| && (level == p.level + 1 ==> forall o | o in p.outs :: Disjoint(f, o))
    requires forall l: int, g | FileAt(v, l, g) :: NewerFile(f, g)
    requires Chosen(v, p.level, p.in0, p.in1) && Clear(v, p.level, p.in0, p.in1, p.outs)
    ensures Chosen(AddFile(v, level, f), p.level, p.in0, p.in1)
    ensures Clear(AddFile(v, level, f), p.level, p.in0, p.in1, p.outs)
  {
    assert forall g | g in p.in0 :: FileAt(v, p.level, g);
    assert forall g | g in p.in1 :: FileAt(v, p.level + 1, g);
  }

  /** A flush in the middle of a compaction leaves it installable, if its table meets no output in their level. */
  lemma {:induction false} FlushKeepsPending(v: Levels, level: nat, f: File, p: Pending)
    requires VersionInv(v) && level < NUM_LEVELS && f.Ok() && FitsAt(v, level, f)
    requires level == p.level + 1 ==> forall o | o in p.outs :: Disjoint(f, o)
    requires forall l: int, g | FileAt(v, l, g) :: NewerFile(f, g)
    requires PendingOk(v, p) && forall o | o in p.outs :: o.number != f.number
    ensures PendingOk(AddFile(v, level, f), p)
  {
    FlushKeepsClear(v, level, f, p);
    AddFileAt(v, level, f);
    forall e | e in p.merged && !InFiles(p.outs, e)
      ensures Dropped(AddFile(v, level, f), p.level, p.merged, p.smallest, e)
    {
      FlushKeepsDropped(v, level, f, p, e);
    }
  }

  lemma {:induction false} FlushedFileFits(st: State, size: nat, overlapLimit: int)
    requires Inv(st) && st.imm.Some? && st.imm.value != []
    ensures var f := FlushedFile(st, size); var l := FlushLevel(st, size, overlapLimit);
            && f.Ok() && l < NUM_LEVELS && FitsAt(st.files, l, f)
            && forall m: int, g | FileAt(st.files, m, g) :: NewerFile(f, g) && g.number < f.number
  {
    var f := FlushedFile(st, size);
    forall e | e in f.entries ensures e.num <= MAX_SEQUENCE { assert InStore(st, e); }
    PickLevelAvoidsOverlap(st.files, f.Smallest().user, f.Largest().user, overlapLimit);
    forall m: int, g | FileAt(st.files, m, g) ensures NewerFile(f, g) {
      forall a, b | a in f.entries && b in g.entries && a.key == b.key ensures Newer(a, b) {
        assert InVersion(st.files, b);
        assert Older(b, a);
      }
    }
  }

  lemma {:induction false} FlushSameStore(st: State, size: nat, overlapLimit: int)
    requires Inv(st) && st.imm.Some?
    ensures var st' := Apply(st, Flush(size, overlapLimit));
            && (forall x :: InStore(st', x) <==> InStore(st, x))
            && (forall x | InVersion(st'.files, x) :: InVersion(st.files, x) || x in st.imm.value)
  {
    var st' := Apply(st, Flush(size, overlapLimit));
    if st.imm.value != [] {
      var f, l := FlushedFile(st, size), FlushLevel(st, size, overlapLimit);
      FlushedFileFits(st, size, overlapLimit);
      AddFileAt(st.files, l, f);
      assert st'.files == AddFile(st.files, l, f);
      forall x ensures InVersion(st'.files, x) <==> InVersion(st.files, x) || x in st.imm.value {
        if x in st.imm.value {
          assert FileAt(st'.files, l, f);
        }
      }
    }
  }

  lemma {:induction false} FlushKeepsInv(st: State, size: nat, overlapLimit: int)
    requires Inv(st) && Enabled(st, Flush(size, overlapLimit)) && Harmless(st, Flush(size, overlapLimit))
    ensures Inv(Apply(st, Flush(size, overlapLimit)))
  {
    var st' := Apply(st, Flush(size, overlapLimit));
    FlushSameStore(st, size, overlapLimit);
    SameStoreKeepsCoverage(st, st');
    if st.imm.value != [] {
      var f, l := FlushedFile(st, size), FlushLevel(st, size, overlapLimit);
      FlushedFileFits(st, size, overlapLimit);
      AddFileKeepsInv(st.files, l, f);
      AddFileAt(st.files, l, f);
      if st.pending.Some? {
        FlushKeepsPending(st.files, l, f, st.pending.value);
      }
    }
  }

  // ---- Compactions -----------------------------------------------------------------------

  /** Installing outputs brings no entry in. */
  lemma {:induction false} ReplaceShrinks(v: Levels, p: Pending, e: Entry)
    requires VersionInv(v) && Chosen(v, p.level, p.in0, p.in1) && OutputsOk(v, p.level, p.in0, p.in1, p.outs)
    requires InVersion(Replace(v, p.level, p.in0, p.in1, p.outs), e)
    ensures InVersion(v, e)
  {
    var w := Replace(v, p.level, p.in0, p.in1, p.outs);
    ReplaceAt(v, p.level, p.in0, p.in1, p.outs);
    var l: int, g :| FileAt(w, l, g) && e in g.entries;
    if !FileAt(v, l, g) {
      InputInVersion(v, p.level, p.in0, p.in1, e);
    }
  }

  /** And takes only entries of the inputs out, those that no output has. */
  lemma {:induction false} ReplaceLosesInputs(v: Levels, p: Pending, e: Entry)
    requires VersionInv(v) && Chosen(v, p.level, p.in0, p.in1)
    requires InVersion(v, e) && !InVersion(Replace(v, p.level, p.in0, p.in1, p.outs), e)
    ensures InFiles(p.in0 + p.in1, e) && !InFiles(p.outs, e)
  {
    var w := Replace(v, p.level, p.in0, p.in1, p.outs);
    ReplaceAt(v, p.level, p.in0, p.in1, p.outs);
    var l: int, g :| FileAt(v, l, g) && e in g.entries;
    assert !FileAt(w, l, g);
    assert forall f | f in p.outs :: FileAt(w, p.level + 1, f);
  }

  /** A tombstone dropped for want of deeper data leaves nothing older of its key behind. */
  lemma {:induction false} NothingOlderStays(v: Levels, p: Pending, e: Entry, x: Entry)
    requires VersionInv(v) && Chosen(v, p.level, p.in0, p.in1) && Clear(v, p.level, p.in0, p.in1, p.outs)
             && IsBase(v, p.level, e.key)
    requires InFiles(p.in0 + p.in1, e) && e in p.merged && e.num <= p.smallest
    requires forall y | InFiles(p.outs, y) :: !Superseded(p.merged, y, p.smallest)
    requires InVersion(Replace(v, p.level, p.in0, p.in1, p.outs), x) && x.key == e.key
    ensures !Newer(e, x)
  {
    var w := Replace(v, p.level, p.in0, p.in1, p.outs);
    ReplaceAt(v, p.level, p.in0, p.in1, p.outs);
    var l: int, g :| FileAt(w, l, g) && x in g.entries;
    if l == p.level + 1 && g in p.outs {
      assert InFiles(p.outs, x);
    } else {
      StayingIsNewer(v, p, e, l, g, x);
    }
  }

  lemma {:induction false} StayingIsNewer(v: Levels, p: Pending, e: Entry, l: int, g: File, x: Entry)
    requires VersionInv(v) && Chosen(v, p.level, p.in0, p.in1) && Clear(v, p.level, p.in0, p.in1, p.outs)
             && IsBase(v, p.level, e.key)
    requires InFiles(p.in0 + p.in1, e)
    requires FileAt(v, l, g) && !(l == p.level && g in p.in0) && !(l == p.level + 1 && g in p.in1)
    requires x in g.entries && x.key == e.key
    ensures Newer(x, e)
  {
    var f :| f in p.in0 + p.in1 && e in f.entries;
    assert f in p.in0 ==> FileAt(v, p.level, f);
    assert f in p.in1 ==> FileAt(v, p.level + 1, f);
    InRange(g, x);
    InRange(f, e);
    if l <= p.level + 1 {
      assert NewerFile(g, f);
    }
  }

  /** What installing loses, entry by entry. */
  ghost predicate LosesOnlyDropped(v: Levels, p: Pending)
    requires p.level + 1 < |v|
  {
    && (forall e | InVersion(Replace(v, p.level, p.in0, p.in1, p.outs), e) :: InVersion(v, e))
    && (forall e | InVersion(v, e) && !InVersion(Replace(v, p.level, p.in0, p.in1, p.outs), e) ::
          e in p.merged && InFiles(p.in0 + p.in1, e) && Dropped(v, p.level, p.merged, p.smallest, e))
  }

  lemma {:induction false} ReplaceLosesOnlyDropped(v: Levels, p: Pending)
    requires VersionInv(v) && PendingOk(v, p)
    ensures LosesOnlyDropped(v, p)
  {
    forall e
      ensures InVersion(Replace(v, p.level, p.in0, p.in1, p.outs), e) ==> InVersion(v, e)
      ensures InVersion(v, e) && !InVersion(Replace(v, p.level, p.in0, p.in1, p.outs), e) ==>
                e in p.merged && InFiles(p.in0 + p.in1, e) && Dropped(v, p.level, p.merged, p.smallest, e)
    {
      if InVersion(Replace(v, p.level, p.in0, p.in1, p.outs), e) {
        ReplaceShrinks(v, p, e);
      } else if InVersion(v, e) {
        ReplaceLosesInputs(v, p, e);
      }
    }
  }

  lemma {:induction false} ReplaceKeepsCoverage(st: State, p: Pending, st': State)
    requires VersionInv(st.files) && Chosen(st.files, p.level, p.in0, p.in1)
             && Clear(st.files, p.level, p.in0, p.in1, p.outs) && p.smallest <= Floor(st)
    requires LosesOnlyDropped(st.files, p) && Windows(st) && Coverage(st)
    requires forall y | y in p.merged :: InHistory(st.history, y)
    requires forall y | InFiles(p.outs, y) :: !Superseded(p.merged, y, p.smallest)
    requires st'.mem == st.mem && st'.imm == st.imm && st'.history == st.history && Floor(st') == Floor(st)
    requires st'.files == Replace(st.files, p.level, p.in0, p.in1, p.outs)
    ensures Coverage(st')
  {
    forall e | InHistory(st'.history, e) && !InStore(st', e) ensures Dispensable(st', Floor(st'), e) {
      if InStore(st, e) {
        DroppedIsDispensable(st, p, st', e);
      } else {
        assert Dispensable(st, Floor(st), e);
      }
    }
  }

  lemma {:induction false} MergedInStore(st: State, p: Pending)
    requires PendingOk(st.files, p)
    ensures forall y | y in p.merged :: InStore(st, y)
  {
    forall y | y in p.merged ensures InStore(st, y) { InputInVersion(st.files, p.level, p.in0, p.in1, y); }
  }

  lemma {:induction false} NothingOlderInStore(st: State, p: Pending, st': State, e: Entry, x: Entry)
    requires VersionInv(st.files) && Chosen(st.files, p.level, p.in0, p.in1)
             && Clear(st.files, p.level, p.in0, p.in1, p.outs) && IsBase(st.files, p.level, e.key)
    requires InFiles(p.in0 + p.in1, e) && e in p.merged && e.num <= p.smallest
    requires forall y | InFiles(p.outs, y) :: !Superseded(p.merged, y, p.smallest)
    requires Windows(st) && InVersion(st.files, e)
    requires st'.mem == st.mem && st'.imm == st.imm && st'.files == Replace(st.files, p.level, p.in0, p.in1, p.outs)
    requires InStore(st', x) && x.key == e.key
    ensures !Newer(e, x)
  {
    if InVersion(st'.files, x) {
      NothingOlderStays(st.files, p, e, x);
    } else {
      assert Older(e, x);
    }
  }

  /** An entry that the loop drops is one that no read from the smallest snapshot up needs. */
  lemma {:induction false} DroppedIsDispensable(st: State, p: Pending, st': State, e: Entry)
    requires VersionInv(st.files) && Chosen(st.files, p.level, p.in0, p.in1)
             && Clear(st.files, p.level, p.in0, p.in1, p.outs) && p.smallest <= Floor(st')
    requires InFiles(p.in0 + p.in1, e) && e in p.merged && InVersion(st.files, e)
    requires forall y | y in p.merged :: InHistory(st'.history, y)
    requires forall y | InFiles(p.outs, y) :: !Superseded(p.merged, y, p.smallest)
    requires st'.mem == st.mem && st'.imm == st.imm && st'.files == Replace(st.files, p.level, p.in0, p.in1, p.outs)
    requires Windows(st) && Dropped(st.files, p.level, p.merged, p.smallest, e)
    ensures Dispensable(st', Floor(st'), e)
  {
    if !Superseded(p.merged, e, p.smallest) {
      forall x | InStore(st', x) && x.key == e.key ensures !Newer(e, x) {
        NothingOlderInStore(st, p, st', e, x);
      }
    }
  }

  lemma {:induction false} InputInVersion(v: Levels, level: nat, in0: seq<File>, in1: seq<File>, e: Entry)
    requires level + 1 < |v| && (forall f | f in in0 :: f in v[level]) && (forall f | f in in1 :: f in v[level + 1])
    requires InFiles(in0 + in1, e)
    ensures InVersion(v, e)
  {
    var f :| f in in0 + in1 && e in f.entries;
    assert FileAt(v, level, f) || FileAt(v, level + 1, f);
  }

  /** Replacing prepared inputs by their outputs keeps the whole invariant. */
  lemma {:induction false} ReplaceKeepsStateInv(st: State, p: Pending, nextFile: nat)
    requires Inv(st) && PendingOk(st.files, p) && p.smallest <= Floor(st)
    requires st.nextFile <= nextFile && forall o | o in p.outs :: o.number < nextFile
    ensures Inv(st.(files := Replace(st.files, p.level, p.in0, p.in1, p.outs), nextFile := nextFile, pending := None))
  {
    var w := Replace(st.files, p.level, p.in0, p.in1, p.outs);
    var st' := st.(files := w, nextFile := nextFile, pending := None);
    ReplaceKeepsInv(st.files, p.level, p.in0, p.in1, p.outs);
    ReplaceLosesOnlyDropped(st.files, p);
    MergedInStore(st, p);
    ReplaceKeepsCoverage(st, p, st');
    ReplaceAt(st.files, p.level, p.in0, p.in1, p.outs);
    assert forall e | InStore(st', e) :: InStore(st, e);
  }

  lemma {:induction false} MoveKeepsInv(st: State, level: nat, file: File)
    requires Inv(st) && Enabled(st, Move(level, file))
    ensures Inv(Apply(st, Move(level, file)))
  {
    var p := Pending(level, [file], [], file.entries, 0, [file]);
    assert FileAt(st.files, level, file);
    assert [file] + [] == [file];
    MoveIsPending(st, p, file);
    ReplaceKeepsStateInv(st, p, st.nextFile);
  }

  lemma {:induction false} MoveIsPending(st: State, p: Pending, file: File)
    requires Inv(st) && p == Pending(p.level, [file], [], file.entries, 0, [file])
    requires Selected(st.files, p.level, [file], []) && FileAt(st.files, p.level, file) && [file] + [] == [file]
    ensures PendingOk(st.files, p)
  {
    assert forall e :: InFiles([file], e) <==> e in file.entries;
    forall x | x in file.entries ensures x.num >= 1 {
      assert InVersion(st.files, x) && InStore(st, x);
    }
    SelectedIsClear(st.files, p.level, p.in0, p.in1, p.outs);
  }

  // ---- From the compaction loop's tables to output files ---------------------------------

  lemma {:induction false} FlattenParts(ts: seq<seq<Entry>>, i: nat)
    requires Sorted(Flatten(ts)) && NonEmptyTables(ts) && i < |ts|
    ensures Sorted(ts[i]) && (forall e | e in ts[i] :: e in Flatten(ts))
    ensures forall j | i < j < |ts| :: Less(ts[i][|ts[i]| - 1].IK(), ts[j][0].IK())
  {
    var init, last := ts[..|ts| - 1], ts[|ts| - 1];
    var front := Flatten(init);
    assert Flatten(ts) == front + last;
    assert forall j | 0 <= j < |front| :: Flatten(ts)[j] == front[j];
    assert forall j | 0 <= j < |last| :: Flatten(ts)[|front| + j] == last[j];
    if i < |ts| - 1 {
      FlattenParts(init, i);
      var x := ts[i][|ts[i]| - 1];
      assert x in front;
      var j :| 0 <= j < |front| && front[j] == x;
      assert Less(Flatten(ts)[j].IK(), Flatten(ts)[|front|].IK());
    }
  }

  lemma {:induction false} FlattenMembers(ts: seq<seq<Entry>>, e: Entry)
    ensures e in Flatten(ts) <==> exists t | t in ts :: e in t
  {
    if ts != [] {
      var init, last := ts[..|ts| - 1], ts[|ts| - 1];
      FlattenMembers(init, e);
      assert ts == init + [last];
    }
  }

  lemma {:induction false} TableMembers(outs: seq<File>, e: Entry)
    ensures InFiles(outs, e) <==> e in Flatten(Tables(outs))
  {
    var ts := Tables(outs);
    FlattenMembers(ts, e);
    if InFiles(outs, e) {
      var f :| f in outs && e in f.entries;
      var i :| 0 <= i < |outs| && outs[i] == f;
      assert ts[i] in ts && e in ts[i];
    }
    if t :| t in ts && e in t {
      var i :| 0 <= i < |ts| && ts[i] == t;
      assert outs[i] in outs && e in outs[i].entries;
    }
  }

  lemma {:induction false} PreparedTableOk(st: State, p: Pending, i: nat)
    requires VersionInv(st.files) && Chosen(st.files, p.level, p.in0, p.in1) && i < |p.outs|
    requires NonEmptyTables(Tables(p.outs)) && Sorted(Flatten(Tables(p.outs)))
    requires forall e | e in Flatten(Tables(p.outs)) :: InFiles(p.in0 + p.in1, e)
    ensures p.outs[i].Ok() && forall j | i < j < |p.outs| :: Before(p.outs[i], p.outs[j])
  {
    var ts := Tables(p.outs);
    FlattenParts(ts, i);
    forall e: Entry | e in ts[i] ensures e.num <= MAX_SEQUENCE {
      var g :| g in p.in0 + p.in1 && e in g.entries;
      assert FileAt(st.files, p.level, g) || FileAt(st.files, p.level + 1, g);
    }
    assert forall j | i <= j < |p.outs| :: p.outs[j].entries == ts[j];
  }

  /** The tables of the compaction loop are well-formed, ordered output files holding the kept entries. */
  lemma {:induction false} PreparedOutputs(st: State, p: Pending, nextFile: nat)
    requires VersionInv(st.files) && Prepared(st, p, nextFile)
    ensures AllOk(p.outs) && LevelSorted(p.outs)
    ensures forall e :: InFiles(p.outs, e) <==> e in p.merged && !Dropped(st.files, p.level, p.merged, p.smallest, e)
  {
    assert p.merged[..|p.merged|] == p.merged;
    KeptIsSorted(st.files, p.level, p.merged, p.smallest, |p.merged|);
    forall e ensures InFiles(p.outs, e) <==> e in Flatten(Tables(p.outs)) { TableMembers(p.outs, e); }
    forall i | 0 <= i < |p.outs|
      ensures p.outs[i].Ok() && forall j | i < j < |p.outs| :: Before(p.outs[i], p.outs[j])
    {
      PreparedTableOk(st, p, i);
    }
  }

  lemma {:induction false} PreparedIsPendingOk(st: State, p: Pending, nextFile: nat)
    requires Inv(st) && Prepared(st, p, nextFile)
    ensures PendingOk(st.files, p)
  {
    PreparedOutputs(st, p, nextFile);
    forall o, e | o in p.outs && e in o.entries ensures InFiles(p.in0 + p.in1, e) { assert InFiles(p.outs, e); }
    SelectedIsClear(st.files, p.level, p.in0, p.in1, p.outs);
  }

  lemma {:induction false} InstallKeepsInv(st: State)
    requires Inv(st) && Enabled(st, Install)
    ensures Inv(Apply(st, Install))
  {
    ReplaceKeepsStateInv(st, st.pending.value, st.nextFile);
  }

  lemma {:induction false} BeginKeepsInv(st: State, p: Pending, nextFile: nat)
    requires Inv(st) && Enabled(st, Begin(p, nextFile))
    ensures Inv(Apply(st, Begin(p, nextFile)))
  {
    PreparedIsPendingOk(st, p, nextFile);
    var st' := Apply(st, Begin(p, nextFile));
    assert forall x :: InStore(st', x) <==> InStore(st, x);
    SameStoreKeepsCoverage(st, st');
  }

  /** At every snapshot from the compaction's smallest up, installing its outputs changes no read. */
  lemma {:induction false} InstallPreservesReads(st: State, k: UserKey, s: nat)
    requires Inv(st) && st.pending.Some? && st.pending.value.smallest <= s
    ensures Outcome(DbGet(st, k, s)) == Outcome(DbGet(Apply(st, Install), k, s))
  {
    var p, st' := st.pending.value, Apply(st, Install);
    InstallKeepsInv(st);
    DbGetIsAnswer(st, k, s);
    DbGetIsAnswer(st', k, s);
    var r, r' := DbGet(st, k, s), DbGet(st', k, s);
    ReplaceLosesOnlyDropped(st.files, p);
    if r.Some? && !InStore(st', r.value) {
      MergedInStore(st, p);
      LostAnswerIsTombstone(st, p, st', k, s, r.value);
    } else {
      AnswerUnique(StoreSet(st'), k, s, r, r');
    }
  }

  lemma {:induction false} LostAnswerIsTombstone(st: State, p: Pending, st': State, k: UserKey, s: nat, e: Entry)
    requires VersionInv(st.files) && Chosen(st.files, p.level, p.in0, p.in1)
             && Clear(st.files, p.level, p.in0, p.in1, p.outs) && p.smallest <= s
    requires InFiles(p.in0 + p.in1, e) && e in p.merged && InVersion(st.files, e)
    requires forall y | y in p.merged :: InStore(st, y)
    requires forall y | InFiles(p.outs, y) :: !Superseded(p.merged, y, p.smallest)
    requires st'.mem == st.mem && st'.imm == st.imm && st'.files == Replace(st.files, p.level, p.in0, p.in1, p.outs)
    requires Windows(st) && Dropped(st.files, p.level, p.merged, p.smallest, e)
    requires IsAnswer(StoreSet(st), k, s, Some(e)) && !InStore(st', e) && forall x | InStore(st', x) :: InStore(st, x)
    ensures e.op.Delete? && forall x | InStore(st', x) :: !Visible(x, k, s)
  {
    assert forall x | x in p.merged && x.num <= p.smallest && x.key == k :: Visible(x, k, s);
    forall x | InStore(st', x) && x.key == k ensures !Newer(e, x) {
      NothingOlderInStore(st, p, st', e, x);
    }
  }

  // ---- Whole runs ------------------------------------------------------------------------

  lemma {:induction false} StepKeepsInv(st: State, step: Step)
    requires Inv(st) && Enabled(st, step) && Harmless(st, step)
    ensures Inv(Apply(st, step))
    ensures st.history <= Apply(st, step).history
  {
    match step
    case Insert(w) => InsertKeepsInv(st, w);
    case Skip => SkipKeepsInv(st);
    case Publish => PublishKeepsInv(st);
    case Switch => SwitchKeepsInv(st);
    case Flush(size, overlapLimit) => FlushKeepsInv(st, size, overlapLimit);
    case Move(level, file) => MoveKeepsInv(st, level, file);
    case Begin(p, nextFile) => BeginKeepsInv(st, p, nextFile);
    case Install => InstallKeepsInv(st);
    case Snapshot => SnapshotKeepsInv(st);
    case Release(i) => ReleaseKeepsInv(st, i);
  }

  /** `run` is a run of the database: it starts empty and each state follows by one enabled step. */
  ghost predicate IsRun(run: seq<State>, steps: seq<Step>) {
    && |run| == |steps| + 1 && Init(run[0])
    && (forall i | 0 <= i < |run| :: |run[i].files| == NUM_LEVELS)
    && (forall i | 0 <= i < |steps| :: Enabled(run[i], steps[i]) && run[i + 1] == Apply(run[i], steps[i]))
  }

  /** The first `n` steps hold only harmless flushes. */
  ghost predicate Careful(run: seq<State>, steps: seq<Step>, n: nat)
    requires IsRun(run, steps) && n < |run|
  {
    forall i | 0 <= i < n :: Harmless(run[i], steps[i])
  }

  /** Every state of every careful run has the invariant. */
  lemma {:induction false} RunKeepsInv(run: seq<State>, steps: seq<Step>, n: nat)
    requires IsRun(run, steps) && n < |run| && Careful(run, steps, n)
    ensures Inv(run[n])
    ensures forall i | 0 <= i <= n :: run[i].history <= run[n].history
  {
    if n == 0 {
      InitInv(run[0]);
    } else {
      RunKeepsInv(run, steps, n - 1);
      assert run[n] == Apply(run[n - 1], steps[n - 1]) && Harmless(run[n - 1], steps[n - 1]);
      StepKeepsInv(run[n - 1], steps[n - 1]);
    }
  }

  /** In every state of every careful run, a read at a live snapshot returns what the write history says. */
  lemma {:induction false} RunGetRefinesHistory(run: seq<State>, steps: seq<Step>, n: nat, k: UserKey, s: nat)
    requires IsRun(run, steps) && n < |run| && Careful(run, steps, n) && Floor(run[n]) <= s <= run[n].published
    ensures s <= |run[n].history| && Outcome(DbGet(run[n], k, s)) == SpecGet(run[n].history, k, s)
  {
    RunKeepsInv(run, steps, n);
    GetRefinesHistory(run[n], k, s);
  }

  /** A snapshot reads the same at any two moments of a careful run at which it is live. */
  lemma {:induction false} SnapshotReadsAreStable(run: seq<State>, steps: seq<Step>, m: nat, n: nat, k: UserKey, s: nat)
    requires IsRun(run, steps) && m <= n < |run| && Careful(run, steps, n)
    requires Floor(run[m]) <= s <= run[m].published && Floor(run[n]) <= s <= run[n].published
    ensures Outcome(DbGet(run[m], k, s)) == Outcome(DbGet(run[n], k, s))
  {
    RunGetRefinesHistory(run, steps, m, k, s);
    RunGetRefinesHistory(run, steps, n, k, s);
    RunKeepsInv(run, steps, n);
    NewestStable(run[m].history, run[n].history, k, s);
  }

  /** A run is careful if each of its compactions reads inputs that cover their range, as picked ones do. */
  lemma {:induction false} PickedRunsAreCareful(run: seq<State>, steps: seq<Step>, n: nat)
    requires IsRun(run, steps) && n < |run|
    requires forall i | 0 <= i < n && steps[i].Begin? :: Connected(steps[i].p.in0 + steps[i].p.in1)
    ensures Careful(run, steps, n)
    ensures run[n].pending.Some? ==> Connected(run[n].pending.value.in0 + run[n].pending.value.in1)
  {
    if n > 0 {
      PickedRunsAreCareful(run, steps, n - 1);
      RunKeepsInv(run, steps, n - 1);
      ConnectedIsHarmless(run[n - 1], steps[n - 1]);
    }
  }
}
