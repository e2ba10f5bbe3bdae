/**
 The database as a state machine: memtable, immutable memtable, levels of files, snapshots
 and at most one running compaction. The specification is the write history alone: a read
 of `k` at `s` returns the newest write of `k` with sequence at most `s`.
 */
module DbState {
  import opened DbFormat
  import opened Version
  import opened Inputs
  import opened Picking
  import opened Edits
  import opened Compaction

  /** A write, or a sequence number that a failed group used up. */
  datatype Write = Write(key: UserKey, op: Op) | Unused

  /** Sequence number `n` belongs to the n-th write. */
  predicate InHistory(h: seq<Write>, e: Entry) { 1 <= e.num <= |h| && h[e.num - 1] == Write(e.key, e.op) }

  ghost function HistorySet(h: seq<Write>): iset<Entry> { iset e | InHistory(h, e) }

  function Newest(h: seq<Write>, k: UserKey, s: nat): Option<Entry>
    requires s <= |h|
  {
    if s == 0 then None
    else if h[s - 1].Write? && h[s - 1].key == k then Some(Entry(k, s, h[s - 1].op))
    else Newest(h, k, s - 1)
  }

  /** What a reader is told: a deletion and an absent key look the same. */
  function Outcome(r: Option<Entry>): Option<Value> {
    if r.Some? && r.value.op.Put? then Some(r.value.op.value) else None
  }

  /** The specification of Get. */
  function SpecGet(h: seq<Write>, k: UserKey, s: nat): Option<Value>
    requires s <= |h|
  {
    Outcome(Newest(h, k, s))
  }

  lemma {:induction false} NewestIsNewest(h: seq<Write>, k: UserKey, s: nat)
    requires s <= |h|
    ensures IsAnswer(HistorySet(h), k, s, Newest(h, k, s))
  {
    if s > 0 && (h[s - 1].Unused? || h[s - 1].key != k) {
      NewestIsNewest(h, k, s - 1);
    }
  }

  lemma {:induction false} NewestStable(h: seq<Write>, h': seq<Write>, k: UserKey, s: nat)
    requires h <= h' && s <= |h|
    ensures Newest(h', k, s) == Newest(h, k, s)
  {
    if s > 0 {
      NewestStable(h, h', k, s - 1);
    }
  }

  /** A compaction between choosing its inputs and installing its outputs. */
  datatype Pending = Pending(level: nat, in0: seq<File>, in1: seq<File>, merged: seq<Entry>, smallest: nat,
      outs: seq<File>)

  datatype State = State(
    mem: seq<Entry>,
    imm: Option<seq<Entry>>,
    files: Levels,
    history: seq<Write>,
    published: nat,          // versions_->LastSequence()
    snapshots: seq<nat>,     // oldest first
    nextFile: nat,
    pending: Option<Pending>)

  const EmptyLevels: Levels := [[], [], [], [], [], [], []]

  predicate Init(st: State) { st == State([], None, EmptyLevels, [], 0, [], 2, None) }

  /** No reader asks below this sequence number. */
  function Floor(st: State): nat { if st.snapshots == [] then st.published else st.snapshots[0] }

  ghost predicate InStore(st: State, e: Entry) {
    e in st.mem || (st.imm.Some? && e in st.imm.value) || InVersion(st.files, e)
  }

  ghost function StoreSet(st: State): iset<Entry> { iset e | InStore(st, e) }

  // ---- Reads -----------------------------------------------------------------------------

  function ImmGet(st: State, k: UserKey, s: nat): Option<Entry> {
    if st.imm.Some? then RunGet(st.imm.value, k, s) else None
  }

  /** DBImpl::Get: memtable, immutable memtable, then the current version. */
  function DbGet(st: State, k: UserKey, s: nat): Option<Entry> {
    OrElse(RunGet(st.mem, k, s), OrElse(ImmGet(st, k, s), VersionGet(st.files, k, s)))
  }

  // ---- The invariant ---------------------------------------------------------------------

  /** Losing `e` changes no read at or above `floor`. */
  ghost predicate Dispensable(st: State, floor: nat, e: Entry) {
    || (exists x :: InHistory(st.history, x) && x.key == e.key && Newer(x, e) && x.num <= floor)
    || (e.op.Delete? && e.num <= floor && forall x | InStore(st, x) && x.key == e.key :: !Newer(e, x))
  }

  ghost predicate Coverage(st: State) {
    forall e | InHistory(st.history, e) && !InStore(st, e) :: Dispensable(st, Floor(st), e)
  }

  predicate Older(x: Entry, y: Entry) { x.num < y.num }

  /** Everything in a nearer source is younger: memtable, then immutable memtable, then files. */
  ghost predicate Windows(st: State) {
    && (forall x, y | x in st.mem && InVersion(st.files, y) :: Older(y, x))
    && (st.imm.Some? ==> forall x, y | x in st.mem && y in st.imm.value :: Older(y, x))
    && (st.imm.Some? ==> forall x, y | x in st.imm.value && InVersion(st.files, y) :: Older(y, x))
  }

  predicate SnapshotsOk(st: State) {
    && st.published <= |st.history| < MAX_SEQUENCE
    && (forall i | 0 <= i < |st.snapshots| :: st.snapshots[i] <= st.published)
    && (forall i, j | 0 <= i < j < |st.snapshots| :: st.snapshots[i] <= st.snapshots[j])
  }

  /** The running compaction can still be installed. */
  ghost predicate PendingOk(v: Levels, p: Pending) {
    && Replaceable(v, p.level, p.in0, p.in1, p.outs)
    && (forall e :: e in p.merged <==> InFiles(p.in0 + p.in1, e))
    && (forall e | InFiles(p.outs, e) :: e in p.merged && !Superseded(p.merged, e, p.smallest))
    && (forall e | e in p.merged && !InFiles(p.outs, e) :: Dropped(v, p.level, p.merged, p.smallest, e))
  }

  ghost predicate Inv(st: State) {
    && VersionInv(st.files)
    && Sorted(st.mem) && Sorted(ImmRun(st))
    && (forall e | InStore(st, e) :: InHistory(st.history, e))
    && Windows(st)
    && SnapshotsOk(st)
    && Coverage(st)
    && (forall l: int, f | FileAt(st.files, l, f) :: f.number < st.nextFile)
    && (st.pending.Some? ==>
          var p := st.pending.value;
          && PendingOk(st.files, p) && p.smallest <= Floor(st)
          && forall o | o in p.outs :: o.number < st.nextFile)
  }

  lemma {:induction false} InitInv(st: State)
    requires Init(st)
    ensures Inv(st)
  {
    assert forall l | 0 <= l < NUM_LEVELS :: st.files[l] == [];
  }

  // ---- Get refines the history -----------------------------------------------------------

  function ImmRun(st: State): seq<Entry> { if st.imm.Some? then st.imm.value else [] }

  ghost function OlderSources(st: State): iset<Entry> { Contents(ImmRun(st)) + VersionContents(st.files) }

  lemma {:induction false} SourcesAreLayered(st: State)
    requires Windows(st)
    ensures NewerSet(Contents(ImmRun(st)), VersionContents(st.files))
    ensures NewerSet(Contents(st.mem), OlderSources(st))
    ensures StoreSet(st) == Contents(st.mem) + OlderSources(st)
  {
  }

  lemma {:induction false} DbGetIsAnswer(st: State, k: UserKey, s: nat)
    requires VersionInv(st.files) && Sorted(st.mem) && Sorted(ImmRun(st)) && Windows(st)
    ensures IsAnswer(StoreSet(st), k, s, DbGet(st, k, s))
  {
    SourcesAreLayered(st);
    RunGetIsAnswer(st.mem, k, s);
    RunGetIsAnswer(ImmRun(st), k, s);
    assert IsAnswer(Contents(ImmRun(st)), k, s, ImmGet(st, k, s));
    VersionGetIsAnswer(st.files, k, s);
    LayeredAnswer(Contents(ImmRun(st)), VersionContents(st.files), k, s, ImmGet(st, k, s), VersionGet(st.files, k, s));
    LayeredAnswer(Contents(st.mem), OlderSources(st), k, s,
                  RunGet(st.mem, k, s), OrElse(ImmGet(st, k, s), VersionGet(st.files, k, s)));
  }

  /** What the store lost does not change what a reader at or above the floor is told. */
  lemma {:induction false} CoverageAnswers(st: State, k: UserKey, s: nat, r: Option<Entry>)
    requires (forall e | InStore(st, e) :: InHistory(st.history, e)) && Coverage(st)
    requires Floor(st) <= s <= |st.history| && IsAnswer(StoreSet(st), k, s, r)
    ensures Outcome(r) == SpecGet(st.history, k, s)
  {
    NewestIsNewest(st.history, k, s);
    var n := Newest(st.history, k, s);
    assert r.Some? ==> InHistory(st.history, r.value);
    if n.Some? && !InStore(st, n.value) {
      assert Dispensable(st, Floor(st), n.value);
      assert forall x | InHistory(st.history, x) && x.key == k && x.num <= Floor(st) :: Visible(x, k, s);
    }
  }

  /** In every state with the invariant, Get at a live snapshot is the newest write the history has. */
  lemma {:induction false} GetRefinesHistory(st: State, k: UserKey, s: nat)
    requires Inv(st) && Floor(st) <= s <= st.published
    ensures Outcome(DbGet(st, k, s)) == SpecGet(st.history, k, s)
  {
    DbGetIsAnswer(st, k, s);
    CoverageAnswers(st, k, s, DbGet(st, k, s));
  }
}
