/**
 The database object. Its methods carry out the steps of the state machine, so each keeps
 the invariant, and its reads return what the write history says.
 */
module DBImpl {
  import opened Guard
  import opened DbFormat
  import opened Version
  import opened Inputs
  import opened Picking
  import opened Edits
  import opened Compaction
  import opened DbState
  import opened DbSteps

  /** The limits that only steer which compaction is done, never what it means. */
  datatype Options = Options(overlapLimit: int, expandLimit: int, sizeLimit: nat, tableSize: seq<Entry> -> nat)

  /** Merge the entries of the input files into one sorted run, as the input iterator yields them. */
  method MergeInputs(files: seq<File>) returns (merged: seq<Entry>)
    requires forall a, b | InFiles(files, a) && InFiles(files, b) && a.IK() == b.IK() :: a == b
    ensures Sorted(merged)
    ensures forall e :: e in merged <==> InFiles(files, e)
  {
    merged := [];
    var i := 0;
    while i < |files|
      invariant 0 <= i <= |files| && Sorted(merged)
      invariant forall e :: e in merged <==> InFiles(files[..i], e)
    {
      assert forall e | InFiles(files[..i], e) :: InFiles(files, e);
      merged := MergeRun(merged, files[i].entries, files);
      MembersOneMore(files, i);
      i := i + 1;
    }
    assert files[..|files|] == files;
  }

  lemma {:induction false} MembersOneMore(files: seq<File>, i: nat)
    requires i < |files|
    ensures forall e :: InFiles(files[..i + 1], e) <==> InFiles(files[..i], e) || e in files[i].entries
  {
    assert files[..i + 1] == files[..i] + [files[i]];
  }

  method MergeRun(run: seq<Entry>, more: seq<Entry>, ghost files: seq<File>) returns (merged: seq<Entry>)
    requires Sorted(run) && forall e | e in run || e in more :: InFiles(files, e)
    requires forall a, b | InFiles(files, a) && InFiles(files, b) && a.IK() == b.IK() :: a == b
    ensures Sorted(merged)
    ensures forall e :: e in merged <==> e in run || e in more
  {
    merged := run;
    var j := 0;
    while j < |more|
      invariant 0 <= j <= |more| && Sorted(merged)
      invariant forall e :: e in merged <==> e in run || e in more[..j]
    {
      var e := more[j];
      assert more[..j + 1] == more[..j] + [e];
      if e !in merged {
        forall x | x in merged ensures x.IK() != e.IK() { assert InFiles(files, x) && InFiles(files, e); }
        InsertSortedKeepsOrder(merged, e);
        InsertSortedMembers(merged, e);
        merged := InsertSorted(merged, e);
      }
      j := j + 1;
    }
    assert more[..|more|] == more;
  }

  /** Give the output tables the next file numbers. */
  method NameOutputs(tables: seq<seq<Entry>>, size: seq<Entry> -> nat, next: nat) returns (outs: seq<File>, next': nat)
    ensures Tables(outs) == tables && DistinctNumbers(outs) && next <= next'
    ensures forall o | o in outs :: next <= o.number < next'
  {
    outs, next' := [], next;
    var i := 0;
    while i < |tables|
      invariant 0 <= i <= |tables| && |outs| == i && next' == next + i
      invariant forall j | 0 <= j < i :: outs[j].entries == tables[j] && outs[j].number == next + j
    {
      outs := outs + [File(next', size(tables[i]), tables[i])];
      next' := next' + 1;
      i := i + 1;
    }
  }

  /** The invariant, unfolded only where its parts matter. */
  ghost predicate Sound(st: State) { |st.files| == NUM_LEVELS && forall n | Unfolded(n) :: Inv(st) }

  lemma {:induction false} StepSound(st: State, step: Step)
    requires Sound(st) && Enabled(st, step) && Harmless(st, step)
    ensures Sound(Apply(st, step))
  {
    assert Unfolded(0);
    StepKeepsInv(st, step);
  }

  lemma {:induction false} SoundVersion(st: State)
    requires Sound(st)
    ensures VersionInv(st.files)
  {
    assert Unfolded(0);
  }

  lemma {:induction false} SoundFloor(st: State)
    requires Sound(st)
    ensures Floor(st) < MAX_SEQUENCE
  {
    assert Unfolded(0);
  }

  /** What a flush does, once the level is known. */
  lemma {:induction false} FlushIs(st: State, size: nat, limit: int, f: File, level: nat, st': State)
    requires Sound(st) && st.imm.Some? && st.imm.value != [] && f == File(st.nextFile, size, st.imm.value)
    requires level < NUM_LEVELS && level == PickLevel(st.files, f.Smallest().user, f.Largest().user, limit)
    requires st' == st.(imm := None, nextFile := st.nextFile + 1, files := AddFile(st.files, level, f))
    ensures st' == Apply(st, Flush(size, limit)) && (Harmless(st, Flush(size, limit)) ==> Sound(st'))
  {
    if Harmless(st, Flush(size, limit)) {
      StepSound(st, Flush(size, limit));
    }
  }

  lemma {:induction false} EmptyFlushIs(st: State, size: nat, limit: int, st': State)
    requires Sound(st) && st.imm == Some([]) && st' == st.(imm := None, nextFile := st.nextFile + 1)
    ensures Sound(st') && st' == Apply(st, Flush(size, limit))
  {
    StepSound(st, Flush(size, limit));
  }

  lemma {:induction false} SoundPending(st: State)
    requires Sound(st) && st.pending.Some?
    ensures st.pending.value.level + 1 < NUM_LEVELS
  {
    assert Unfolded(0);
  }

  lemma {:induction false} SoundGet(st: State, k: UserKey, s: nat)
    requires Sound(st) && (s == st.published || s in st.snapshots)
    ensures st.published <= |st.history| && s <= |st.history| && Outcome(DbGet(st, k, s)) == SpecGet(st.history, k, s)
  {
    assert Unfolded(0);
    GetRefinesHistory(st, k, s);
  }

  /** The inputs of a compaction hold no two entries under one internal key. */
  lemma {:induction false} InputKeysUnique(st: State, level: nat, in0: seq<File>, in1: seq<File>)
    requires Sound(st) && Selected(st.files, level, in0, in1)
    ensures forall a, b | InFiles(in0 + in1, a) && InFiles(in0 + in1, b) && a.IK() == b.IK() :: a == b
  {
    assert Unfolded(0);
    forall a, b | InFiles(in0 + in1, a) && InFiles(in0 + in1, b) && a.IK() == b.IK() ensures a == b {
      InputInVersion(st.files, level, in0, in1, a);
      InputInVersion(st.files, level, in0, in1, b);
      assert InStore(st, a) && InStore(st, b);
      assert InHistory(st.history, a) && InHistory(st.history, b);
    }
  }

  lemma {:induction false} OneLess(s: seq<nat>, i: nat)
    requires i < |s|
    ensures multiset(s[..i] + s[i + 1..]) == multiset(s) - multiset{s[i]}
  {
    assert s == s[..i] + [s[i]] + s[i + 1..];
  }

  class DB {
    const options: Options
    var mem: seq<Entry>
    var imm: Option<seq<Entry>>
    var files: Levels
    var lastSequence: nat
    var snapshots: seq<nat>
    var nextFile: nat
    var pending: Option<Pending>
    ghost var history: seq<Write>

    ghost function Abs(): State
      reads this
    {
      State(mem, imm, files, history, lastSequence, snapshots, nextFile, pending)
    }

    ghost predicate Valid()
      reads this
    {
      Sound(Abs())
    }

    constructor (options: Options)
      ensures Valid() && Init(Abs()) && this.options == options
    {
      this.options := options;
      mem, imm, files, lastSequence, snapshots, nextFile, pending, history := [], None, EmptyLevels, 0, [], 2, None, [];
      new;
      InitInv(Abs());
    }

    /** One record of a batch enters the memtable under the next sequence number. */
    method AddToMemTable(key: UserKey, op: Op, num: nat)
      requires Valid() && num == |history| + 1 < MAX_SEQUENCE
      modifies this
      ensures Valid() && Abs() == Apply(old(Abs()), Insert(Write(key, op)))
    {
      StepSound(Abs(), Insert(Write(key, op)));
      mem := InsertSorted(mem, Entry(key, num, op));
      history := history + [Write(key, op)];
    }

    /** A record whose group failed: it leaves nothing but its sequence number, which is used up. */
    ghost method SkipRecord()
      requires Valid() && |history| + 1 < MAX_SEQUENCE
      modifies `history
      ensures Valid() && Abs() == Apply(old(Abs()), Skip)
    {
      StepSound(Abs(), Skip);
      history := history + [Unused];
    }

    /** The leader publishes its group by moving the last sequence number past all its records. */
    method SetLastSequence(s: nat)
      requires Valid() && s == |history|
      modifies this
      ensures Valid() && Abs() == Apply(old(Abs()), Publish)
    {
      StepSound(Abs(), Publish);
      lastSequence := s;
    }

    /** MakeRoomForWrite: the full memtable becomes immutable once the previous one is gone. */
    method SwitchMemTable()
      requires Valid() && imm.None?
      modifies this
      ensures Valid() && Abs() == Apply(old(Abs()), Switch)
    {
      StepSound(Abs(), Switch);
      imm := Some(mem);
      mem := [];
    }

    /** WriteLevel0Table: the level that the new table goes to. */
    method LevelFor(f: File) returns (level: nat)
      requires Valid() && f.entries != []
      ensures level == PickLevel(files, f.Smallest().user, f.Largest().user, options.overlapLimit) && level < NUM_LEVELS
    {
      SoundVersion(Abs());
      level := PickLevelForMemTableOutput(files, f.Smallest().user, f.Largest().user, options.overlapLimit);
      PickLevelAvoidsOverlap(files, f.Smallest().user, f.Largest().user, options.overlapLimit);
    }

    /** CompactMemTable; also called in the middle of a compaction. */
    method CompactMemTable()
      requires Valid() && imm.Some?
      modifies this
      ensures Abs() == Apply(old(Abs()), Flush(options.tableSize(old(imm).value), options.overlapLimit))
      ensures old(Harmless(Abs(), Flush(options.tableSize(imm.value), options.overlapLimit))) ==> Valid()
    {
      ghost var st := Abs();
      var size := options.tableSize(imm.value);
      if imm.value != [] {
        var f := File(nextFile, size, imm.value);
        var level := LevelFor(f);
        files, nextFile, imm := AddFile(files, level, f), nextFile + 1, None;
        FlushIs(st, size, options.overlapLimit, f, level, Abs());
      } else {
        nextFile, imm := nextFile + 1, None;
        EmptyFlushIs(st, size, options.overlapLimit, Abs());
      }
    }

    /** Read the chosen inputs and write the output tables; nothing is installed yet. */
    method PrepareCompaction(level: nat, in0: seq<File>, in1: seq<File>, stopBefore: nat -> bool, full: nat -> bool)
      returns (p: Pending, next: nat, ghost at: seq<seq<nat>>)
      requires Valid() && Selected(files, level, in0, in1)
      ensures Prepared(Abs(), p, next) && p.level == level && p.in0 == in0 && p.in1 == in1
      ensures ExactlyNeeded(files, level, p.merged, if snapshots == [] then lastSequence else snapshots[0],
                            Flatten(Tables(p.outs)))
      ensures Pieces(p.merged, Tables(p.outs), at, stopBefore, full)
    {
      var smallest := if snapshots == [] then lastSequence else snapshots[0];
      InputKeysUnique(Abs(), level, in0, in1);
      SoundVersion(Abs());
      SoundFloor(Abs());
      var merged := MergeInputs(in0 + in1);
      var cursor := new Cursor(files, level);
      var tables;
      tables, at := cursor.DoCompactionWork(merged, smallest, stopBefore, full);
      var outs;
      outs, next := NameOutputs(tables, options.tableSize, nextFile);
      p := Pending(level, in0, in1, merged, smallest, outs);
    }

    /**
     BackgroundCompaction around the file `seed`: a lone upper file with nothing below it is
     moved (when `mayMove`, the grandparent-overlap test, allows), otherwise the compaction starts.
     */
    method BackgroundCompaction(level: nat, seed: File, mayMove: bool, stopBefore: nat -> bool, full: nat -> bool)
      returns (ghost step: Step, ghost chosen: seq<File>)
      requires Valid() && pending.None? && level + 1 < NUM_LEVELS && seed in files[level]
      modifies this
      ensures Enabled(old(Abs()), step) && (step.Move? || step.Begin?)
      ensures step.Begin? ==> step.p.level == level && seed in step.p.in0 && Connected(step.p.in0 + step.p.in1)
      ensures step.Move? ==> mayMove && step.level == level && step.file == seed
      ensures step.Begin? && mayMove ==> |step.p.in0| != 1 || step.p.in1 != []
      ensures if level > 0 then chosen == [seed] else UpperInRange(old(files), level, [seed], chosen)
      ensures if step.Move? then Completed(old(files), level, chosen, options.expandLimit, [seed], [])
              else Completed(old(files), level, chosen, options.expandLimit, step.p.in0, step.p.in1)
      ensures Valid() && Abs() == Apply(old(Abs()), step)
    {
      SoundVersion(Abs());
      var in0, in1, c := PickCompaction(files, level, seed, options.expandLimit);
      chosen := c;
      if |in0| == 1 && |in1| == 0 && mayMove {
        assert in0 == [in0[0]] && in1 == [];
        step := Move(level, in0[0]);
        StepSound(Abs(), step);
        files := Replace(files, level, in0, in1, in0);
      } else {
        var p, next, _ := PrepareCompaction(level, in0, in1, stopBefore, full);
        step := Begin(p, next);
        StepSound(Abs(), step);
        pending, nextFile := Some(p), next;
      }
    }

    /** InstallCompactionResults: one version edit removes the inputs and adds the outputs. */
    method InstallCompactionResults()
      requires Valid() && pending.Some?
      modifies this
      ensures Valid() && Abs() == Apply(old(Abs()), Install)
    {
      ghost var st := Abs();
      SoundPending(st);
      StepSound(st, Install);
      var p := pending.value;
      files := Replace(files, p.level, p.in0, p.in1, p.outs);
      pending := None;
      assert Abs() == Apply(st, Install);
    }

    /** The start of a manual compaction of a key range of one level, whose inputs may leave gaps. */
    method ManualCompaction(level: nat, begin: Bound, end: Bound, stopBefore: nat -> bool, full: nat -> bool)
      returns (done: bool, ghost step: Step, ghost inputs: seq<File>, ghost chosen: seq<File>)
      requires Valid() && pending.None? && level + 1 < NUM_LEVELS
      modifies this
      ensures Valid() && done == !AnyOverlap(old(files)[level], begin, end)
      ensures done ==> Abs() == old(Abs())
      ensures !done ==> step.Begin? && Enabled(old(Abs()), step) && Abs() == Apply(old(Abs()), step)
      ensures !done ==> step.p.level == level && Overlapping(old(files), level, begin, end, inputs)
      ensures !done ==> if level == 0 then chosen == inputs else SizePrefix(inputs, options.sizeLimit, chosen)
      ensures !done ==> Completed(old(files), level, chosen, options.expandLimit, step.p.in0, step.p.in1)
    {
      step := Publish;
      SoundVersion(Abs());
      var found, in0, in1, all, c := CompactRange(files, level, begin, end, options.sizeLimit, options.expandLimit);
      inputs, chosen := all, c;
      done := !found;
      if found {
        var p, next, _ := PrepareCompaction(level, in0, in1, stopBefore, full);
        step := Begin(p, next);
        StepSound(Abs(), step);
        pending, nextFile := Some(p), next;
      }
    }

    method GetSnapshot() returns (s: nat)
      requires Valid()
      modifies this
      ensures Valid() && Abs() == Apply(old(Abs()), Snapshot) && s == lastSequence && s in snapshots
    {
      StepSound(Abs(), Snapshot);
      s := lastSequence;
      snapshots := snapshots + [s];
    }

    method ReleaseSnapshot(i: nat)
      requires Valid() && i < |snapshots|
      modifies this
      ensures Valid() && Abs() == Apply(old(Abs()), Release(i))
      ensures multiset(snapshots) == multiset(old(snapshots)) - multiset{old(snapshots)[i]}
    {
      StepSound(Abs(), Release(i));
      OneLess(snapshots, i);
      snapshots := snapshots[..i] + snapshots[i + 1..];
    }

    /** A read at a held snapshot, or at the last published sequence number when none is given. */
    method Get(k: UserKey, snapshot: Option<nat>) returns (value: Option<Value>)
      requires Valid() && (snapshot.Some? ==> snapshot.value in snapshots)
      ensures lastSequence <= |history|
      ensures snapshot.Some? ==> snapshot.value <= |history|
      ensures value == SpecGet(history, k, if snapshot.Some? then snapshot.value else lastSequence)
    {
      var s := if snapshot.Some? then snapshot.value else lastSequence;
      SoundGet(Abs(), k, s);
      SoundVersion(Abs());
      var r := RunGet(mem, k, s);
      if r.None? && imm.Some? {
        r := RunGet(imm.value, k, s);
      }
      if r.None? {
        r := Search(files, k, s);
      }
      value := if r.Some? && r.value.op.Put? then Some(r.value.op.value) else None;
    }
  }
}
