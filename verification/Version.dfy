/**
 A version: seven levels of table files, and point lookup in it.

 Level 0 holds flushed memtables, which may overlap. In every other level the files are
 disjoint by internal key, so one user key may straddle two neighbouring files.
 */
module Version {
  import opened DbFormat

  datatype File = File(number: nat, size: nat, entries: seq<Entry>) {
    predicate Ok() { entries != [] && Sorted(entries) && forall e | e in entries :: e.num <= MAX_SEQUENCE }

    /** First and last internal key of the table, as recorded in its metadata. */
    function Smallest(): IKey { if entries == [] then IKey(0.0, 0) else entries[0].IK() }
    function Largest(): IKey { if entries == [] then IKey(0.0, 0) else entries[|entries| - 1].IK() }
  }

  type Levels = seq<seq<File>>

  lemma {:induction false} InRange(f: File, e: Entry)
    requires f.Ok() && e in f.entries
    ensures f.Smallest() == e.IK() || Less(f.Smallest(), e.IK())
    ensures e.IK() == f.Largest() || Less(e.IK(), f.Largest())
    ensures f.Smallest().user <= e.key <= f.Largest().user
  {
    var i :| 0 <= i < |f.entries| && f.entries[i] == e;
    assert i == 0 || Less(f.entries[0].IK(), f.entries[i].IK());
    assert i == |f.entries| - 1 || Less(f.entries[i].IK(), f.entries[|f.entries| - 1].IK());
  }

  predicate Before(f: File, g: File) { Less(f.Largest(), g.Smallest()) }

  predicate Disjoint(f: File, g: File) { Before(f, g) || Before(g, f) }

  /** For each user key, everything in `f` is newer than everything in `g`. */
  predicate NewerFile(f: File, g: File) {
    forall a, b | a in f.entries && b in g.entries && a.key == b.key :: Newer(a, b)
  }

  lemma {:induction false} BeforeIsNewer(f: File, g: File)
    requires f.Ok() && g.Ok() && Before(f, g)
    ensures NewerFile(f, g)
  {
    forall a, b | a in f.entries && b in g.entries && a.key == b.key ensures Newer(a, b) {
      InRange(f, a);
      InRange(g, b);
    }
  }

  /** The order of files within a level: by smallest key, ties by number. */
  predicate BySmallest(f: File, g: File) {
    Less(f.Smallest(), g.Smallest()) || (f.Smallest() == g.Smallest() && f.number < g.number)
  }

  predicate SortedBySmallest(files: seq<File>) {
    forall i, j | 0 <= i < j < |files| :: BySmallest(files[i], files[j])
  }

  predicate AllOk(files: seq<File>) { forall f | f in files :: f.Ok() }

  predicate PairwiseDisjoint(files: seq<File>) {
    forall f, g | f in files && g in files && f != g :: Disjoint(f, g)
  }

  predicate LevelSorted(files: seq<File>) {
    forall i, j | 0 <= i < j < |files| :: Before(files[i], files[j])
  }

  lemma {:induction false} LargestAfterSmallest(f: File)
    requires f.Ok()
    ensures f.Smallest() == f.Largest() || Less(f.Smallest(), f.Largest())
  {
    InRange(f, f.entries[0]);
  }

  lemma {:induction false} DisjointIsSorted(files: seq<File>)
    requires AllOk(files) && SortedBySmallest(files) && PairwiseDisjoint(files)
    ensures LevelSorted(files)
  {
    forall i, j | 0 <= i < j < |files| ensures Before(files[i], files[j]) {
      var f, g := files[i], files[j];
      assert BySmallest(f, g);
      LargestAfterSmallest(f);
      LargestAfterSmallest(g);
      assert f in files && g in files && f != g;
      assert Disjoint(f, g);
    }
  }

  // ---- Contents and the order of the levels ---------------------------------------------

  ghost predicate InFiles(files: seq<File>, e: Entry) { exists f :: f in files && e in f.entries }

  ghost function FilesContents(files: seq<File>): iset<Entry> { iset e | InFiles(files, e) }

  predicate FileAt(v: Levels, l: int, f: File) { 0 <= l < |v| && f in v[l] }

  ghost predicate InVersion(v: Levels, e: Entry) { exists l: int, f :: FileAt(v, l, f) && e in f.entries }

  ghost function VersionContents(v: Levels): iset<Entry> { iset e | InVersion(v, e) }

  /**
   What every version keeps: well-formed tables with distinct numbers, levels ordered by
   smallest key, levels from 1 up disjoint by internal key, and for each user key newer
   entries in higher-numbered level-0 files and in lower levels.
   */
  ghost predicate VersionInv(v: Levels) {
    && |v| == NUM_LEVELS
    && (forall l | 0 <= l < NUM_LEVELS :: AllOk(v[l]) && SortedBySmallest(v[l]))
    && (forall l | 1 <= l < NUM_LEVELS :: PairwiseDisjoint(v[l]))
    && (forall f, g | f in v[0] && g in v[0] && f.number > g.number :: NewerFile(f, g))
    && (forall l: int, m: int, f, g | FileAt(v, l, f) && FileAt(v, m, g) && l < m :: NewerFile(f, g))
    && (forall l: int, m: int, f, g | FileAt(v, l, f) && FileAt(v, m, g) && f.number == g.number :: l == m && f == g)
  }

  // ---- Lookup ----------------------------------------------------------------------------

  ghost predicate NewerSet(a: iset<Entry>, b: iset<Entry>) {
    forall x, y | x in a && y in b && x.key == y.key :: Newer(x, y)
  }

  function OrElse(r: Option<Entry>, q: Option<Entry>): Option<Entry> { if r.Some? then r else q }

  /** Searching a newer source first and an older one only on a miss finds the answer of both. */
  lemma {:induction false} LayeredAnswer(a: iset<Entry>, b: iset<Entry>, k: UserKey, s: nat, r: Option<Entry>,
                                         q: Option<Entry>)
    requires NewerSet(a, b)
    requires IsAnswer(a, k, s, r) && (r.None? ==> IsAnswer(b, k, s, q))
    ensures IsAnswer(a + b, k, s, OrElse(r, q))
  {
    var o := OrElse(r, q);
    if o.Some? {
      forall e | e in a + b && Visible(e, k, s) ensures e == o.value || Newer(o.value, e) {
        if r.Some? && e in b {
          assert r.value in a && r.value.key == e.key;
        }
      }
    }
  }

  /** FindFile as a function: first file whose largest key is at or after `t`. */
  function FindIndex(files: seq<File>, t: IKey): (i: nat)
    ensures i <= |files|
    ensures forall j | 0 <= j < i :: Less(files[j].Largest(), t)
    ensures i < |files| ==> !Less(files[i].Largest(), t)
  {
    if files == [] || !Less(files[0].Largest(), t) then 0 else 1 + FindIndex(files[1..], t)
  }

  /** Binary search over a sorted level finds the first file whose largest key is at or after `key`. */
  method FindFile(files: seq<File>, key: IKey) returns (index: nat)
    requires AllOk(files) && LevelSorted(files)
    ensures index == FindIndex(files, key)
    ensures forall i | index <= i < |files| :: !Less(files[i].Largest(), key)
  {
    var left, right := 0, |files|;
    while left < right
      invariant 0 <= left <= right <= |files|
      invariant forall i | 0 <= i < left :: Less(files[i].Largest(), key)
      invariant forall i | right <= i < |files| :: !Less(files[i].Largest(), key)
    {
      var mid := (left + right) / 2;
      if Less(files[mid].Largest(), key) {
        forall i | 0 <= i <= mid ensures Less(files[i].Largest(), key) { LargestRises(files, i, mid); }
        left := mid + 1;
      } else {
        forall i | mid <= i < |files| ensures !Less(files[i].Largest(), key) { LargestRises(files, mid, i); }
        right := mid;
      }
    }
    index := right;
    FindIndexIs(files, key, index);
  }

  lemma {:induction false} FindIndexIs(files: seq<File>, t: IKey, i: nat)
    requires i <= |files| && (forall j | 0 <= j < i :: Less(files[j].Largest(), t))
    requires i < |files| ==> !Less(files[i].Largest(), t)
    ensures FindIndex(files, t) == i
  {
    if i > 0 {
      FindIndexIs(files[1..], t, i - 1);
    }
  }

  lemma {:induction false} LargestRises(files: seq<File>, i: nat, j: nat)
    requires AllOk(files) && LevelSorted(files) && i <= j < |files|
    ensures i == j || Less(files[i].Largest(), files[j].Largest())
  {
    if i < j {
      assert Before(files[i], files[j]);
      assert files[j] in files;
      LargestAfterSmallest(files[j]);
    }
  }

  /** Search of one level from 1 up: at most one file is opened. */
  function LevelGet(files: seq<File>, k: UserKey, s: nat): Option<Entry> {
    var i := FindIndex(files, LookupKey(k, s));
    if i < |files| && files[i].Smallest().user <= k then RunGet(files[i].entries, k, s) else None
  }

  /** Opening only the first file that can hold the lookup key is enough, also when `k` straddles files. */
  lemma {:induction false} LevelGetIsAnswer(files: seq<File>, k: UserKey, s: nat)
    requires AllOk(files) && LevelSorted(files)
    ensures IsAnswer(FilesContents(files), k, s, LevelGet(files, k, s))
  {
    var t := LookupKey(k, s);
    var i := FindIndex(files, t);
    forall f, e | f in files && e in f.entries && Visible(e, k, s)
      ensures i < |files| && files[i].Smallest().user <= k
      ensures RunGet(files[i].entries, k, s).Some?
      ensures var x := RunGet(files[i].entries, k, s).value; e == x || Newer(x, e)
    {
      VisibleIsFound(files, k, s, f, e);
    }
    if i < |files| {
      assert files[i] in files;
      RunGetIsAnswer(files[i].entries, k, s);
    }
  }

  lemma {:induction false} VisibleIsFound(files: seq<File>, k: UserKey, s: nat, f: File, e: Entry)
    requires AllOk(files) && LevelSorted(files) && f in files && e in f.entries && Visible(e, k, s)
    ensures var i := FindIndex(files, LookupKey(k, s));
            && i < |files| && files[i].Smallest().user <= k
            && RunGet(files[i].entries, k, s).Some?
            && var x := RunGet(files[i].entries, k, s).value; e == x || Newer(x, e)
  {
    var t := LookupKey(k, s);
    var i := FindIndex(files, t);
    var j :| 0 <= j < |files| && files[j] == f;
    InRange(f, e);
    assert !Less(e.IK(), t);
    assert i <= j;
    var h := files[i];
    assert h in files;
    LargestAfterSmallest(h);
    RunGetIsAnswer(h.entries, k, s);
    if i < j {
      assert Before(h, f);
      // The last entry of h lies between the lookup key and e, so it is a version of k as well.
      var last := h.entries[|h.entries| - 1];
      assert last in h.entries && Visible(last, k, s);
      BeforeIsNewer(h, f);
      var x := RunGet(h.entries, k, s).value;
      assert x in h.entries;
    }
  }

  /** The level-0 files in the order they are searched. */
  function NewestFirst(files: seq<File>): (r: seq<File>)
    ensures |r| == |files|
    ensures forall f :: f in r <==> f in files
    ensures forall i, j | 0 <= i < j < |r| :: r[i].number >= r[j].number
  {
    if files == [] then [] else InsertNewestFirst(NewestFirst(files[1..]), files[0])
  }

  function InsertNewestFirst(r: seq<File>, f: File): (q: seq<File>)
    requires forall i, j | 0 <= i < j < |r| :: r[i].number >= r[j].number
    ensures |q| == |r| + 1
    ensures forall x :: x in q <==> x == f || x in r
    ensures forall i, j | 0 <= i < j < |q| :: q[i].number >= q[j].number
  {
    if r == [] || f.number >= r[0].number then [f] + r
    else
      var t := InsertNewestFirst(r[1..], f);
      assert r == [r[0]] + r[1..];
      assert forall x | x in t :: x == f || x in r[1..];
      assert forall i | 0 <= i < |t| :: t[i] in t;
      [r[0]] + t
  }

  predicate MayContain(f: File, k: UserKey) { f.Smallest().user <= k <= f.Largest().user }

  /** First hit in the searched order, opening only files whose user-key range covers `k`. */
  function FirstHit(files: seq<File>, k: UserKey, s: nat): Option<Entry> {
    if files == [] then None
    else
      OrElse(if MayContain(files[0], k) then RunGet(files[0].entries, k, s) else None, FirstHit(files[1..], k, s))
  }

  lemma {:induction false} FirstHitIsAnswer(files: seq<File>, k: UserKey, s: nat)
    requires AllOk(files)
    requires forall i, j | 0 <= i < j < |files| :: NewerFile(files[i], files[j])
    ensures IsAnswer(FilesContents(files), k, s, FirstHit(files, k, s))
  {
    if files != [] {
      var f, rest := files[0], files[1..];
      assert f in files && forall g | g in rest :: g in files;
      FirstHitIsAnswer(rest, k, s);
      var r := if MayContain(f, k) then RunGet(f.entries, k, s) else None;
      forall e | e in f.entries ensures f.Smallest().user <= e.key <= f.Largest().user { InRange(f, e); }
      RunGetIsAnswer(f.entries, k, s);
      assert IsAnswer(Contents(f.entries), k, s, r);
      forall x, y | x in f.entries && InFiles(rest, y) && x.key == y.key ensures Newer(x, y) {
        var g :| g in rest && y in g.entries;
        var j :| 0 <= j < |rest| && rest[j] == g;
        assert NewerFile(files[0], files[j + 1]);
      }
      LayeredAnswer(Contents(f.entries), FilesContents(rest), k, s, r, FirstHit(rest, k, s));
      assert FilesContents(files) == Contents(f.entries) + FilesContents(rest) by {
        assert files == [f] + rest;
      }
    }
  }

  /** Search levels `l`, `l + 1`, ... in order. */
  function DeeperGet(v: Levels, l: nat, k: UserKey, s: nat): Option<Entry>
    decreases |v| - l
  {
    if l >= |v| then None else OrElse(LevelGet(v[l], k, s), DeeperGet(v, l + 1, k, s))
  }

  /** Version::Get: level 0 newest first, then the other levels in order. */
  function VersionGet(v: Levels, k: UserKey, s: nat): Option<Entry> {
    if v == [] then None else OrElse(FirstHit(NewestFirst(v[0]), k, s), DeeperGet(v, 1, k, s))
  }

  ghost predicate InDeeper(v: Levels, l: nat, e: Entry) {
    exists m: int, f :: l <= m && FileAt(v, m, f) && e in f.entries
  }

  ghost function DeeperContents(v: Levels, l: nat): iset<Entry> { iset e | InDeeper(v, l, e) }

  lemma {:induction false} LevelNewerThanDeeper(v: Levels, l: nat)
    requires VersionInv(v) && l < NUM_LEVELS
    ensures NewerSet(FilesContents(v[l]), DeeperContents(v, l + 1))
    ensures DeeperContents(v, l) == FilesContents(v[l]) + DeeperContents(v, l + 1)
  {
    forall x, y | InFiles(v[l], x) && InDeeper(v, l + 1, y) && x.key == y.key ensures Newer(x, y) {
      var f :| f in v[l] && x in f.entries;
      var m: int, g :| l + 1 <= m && FileAt(v, m, g) && y in g.entries;
      assert FileAt(v, l, f) && NewerFile(f, g);
    }
    forall e ensures InDeeper(v, l, e) <==> InFiles(v[l], e) || InDeeper(v, l + 1, e) {
      if InFiles(v[l], e) {
        var f :| f in v[l] && e in f.entries;
        assert FileAt(v, l, f);
      }
      if InDeeper(v, l, e) {
        var m: int, f :| l <= m && FileAt(v, m, f) && e in f.entries;
        assert m == l || l + 1 <= m;
      }
    }
  }

  lemma {:induction false} DeeperGetIsAnswer(v: Levels, l: nat, k: UserKey, s: nat)
    requires VersionInv(v) && 1 <= l <= NUM_LEVELS
    ensures IsAnswer(DeeperContents(v, l), k, s, DeeperGet(v, l, k, s))
    decreases NUM_LEVELS - l
  {
    if l < NUM_LEVELS {
      DeeperGetIsAnswer(v, l + 1, k, s);
      DisjointIsSorted(v[l]);
      LevelGetIsAnswer(v[l], k, s);
      LevelNewerThanDeeper(v, l);
      LayeredAnswer(FilesContents(v[l]), DeeperContents(v, l + 1), k, s,
                    LevelGet(v[l], k, s), DeeperGet(v, l + 1, k, s));
    }
  }

  lemma {:induction false} SameFiles(a: seq<File>, b: seq<File>)
    requires forall f :: f in a <==> f in b
    ensures FilesContents(a) == FilesContents(b)
  {
  }

  /** Level 0 alone: newest number first, one seek per file whose range covers the key. */
  lemma {:induction false} Level0GetIsAnswer(files: seq<File>, k: UserKey, s: nat)
    requires AllOk(files) && DistinctNumbers(files)
    requires forall f, g | f in files && g in files && f.number > g.number :: NewerFile(f, g)
    ensures IsAnswer(FilesContents(files), k, s, FirstHit(NewestFirst(files), k, s))
  {
    var l0 := NewestFirst(files);
    NewestFirstFalls(files);
    forall i, j | 0 <= i < j < |l0| ensures NewerFile(l0[i], l0[j]) {
      assert l0[i] in l0 && l0[j] in l0;
    }
    FirstHitIsAnswer(l0, k, s);
    SameFiles(l0, files);
  }

  /** The whole search of a version finds the newest visible entry that any of its files holds. */
  lemma {:induction false} VersionGetIsAnswer(v: Levels, k: UserKey, s: nat)
    requires VersionInv(v)
    ensures IsAnswer(VersionContents(v), k, s, VersionGet(v, k, s))
  {
    LevelNumbersDistinct(v, 0);
    Level0GetIsAnswer(v[0], k, s);
    DeeperGetIsAnswer(v, 1, k, s);
    LevelNewerThanDeeper(v, 0);
    LayeredAnswer(FilesContents(v[0]), DeeperContents(v, 1), k, s,
                  FirstHit(NewestFirst(v[0]), k, s), DeeperGet(v, 1, k, s));
    WholeVersion(v);
  }

  lemma {:induction false} WholeVersion(v: Levels)
    ensures VersionContents(v) == DeeperContents(v, 0)
  {
    forall e ensures InVersion(v, e) <==> InDeeper(v, 0, e) {}
  }

  predicate DistinctNumbers(files: seq<File>) {
    forall i, j | 0 <= i < j < |files| :: files[i].number != files[j].number
  }

  predicate NumbersFall(files: seq<File>) {
    forall i, j | 0 <= i < j < |files| :: files[i].number > files[j].number
  }

  lemma {:induction false} InsertNewestFirstFalls(r: seq<File>, f: File)
    requires NumbersFall(r) && forall x | x in r :: x.number != f.number
    ensures NumbersFall(InsertNewestFirst(r, f))
  {
    if r != [] && f.number < r[0].number {
      var t := InsertNewestFirst(r[1..], f);
      InsertNewestFirstFalls(r[1..], f);
      forall i | 0 <= i < |t| ensures r[0].number > t[i].number {
        assert t[i] in t;
      }
    } else if r != [] {
      assert r[0] in r;
    }
  }

  lemma {:induction false} NewestFirstFalls(files: seq<File>)
    requires DistinctNumbers(files)
    ensures NumbersFall(NewestFirst(files))
  {
    if files != [] {
      NewestFirstFalls(files[1..]);
      InsertNewestFirstFalls(NewestFirst(files[1..]), files[0]);
    }
  }

  lemma {:induction false} LevelNumbersDistinct(v: Levels, l: nat)
    requires VersionInv(v) && l < NUM_LEVELS
    ensures DistinctNumbers(v[l])
  {
    forall i, j | 0 <= i < j < |v[l]| ensures v[l][i].number != v[l][j].number {
      assert BySmallest(v[l][i], v[l][j]);
      assert FileAt(v, l, v[l][i]) && FileAt(v, l, v[l][j]);
    }
  }

  /** Version::Get with ForEachOverlapping: stop at the first file that knows the key. */
  method Search(v: Levels, k: UserKey, s: nat) returns (r: Option<Entry>)
    requires VersionInv(v)
    ensures r == VersionGet(v, k, s)
  {
    var tmp := NewestFirst(v[0]);
    var i := 0;
    while i < |tmp|
      invariant 0 <= i <= |tmp|
      invariant FirstHit(tmp, k, s) == FirstHit(tmp[i..], k, s)
    {
      if MayContain(tmp[i], k) {
        r := RunGet(tmp[i].entries, k, s);
        if r.Some? {
          return;
        }
      }
      i := i + 1;
    }
    var level := 1;
    while level < NUM_LEVELS
      invariant 1 <= level <= NUM_LEVELS
      invariant VersionGet(v, k, s) == DeeperGet(v, level, k, s)
    {
      DisjointIsSorted(v[level]);
      var index := FindFile(v[level], LookupKey(k, s));
      if index < |v[level]| && !(k < v[level][index].Smallest().user) {
        r := RunGet(v[level][index].entries, k, s);
        if r.Some? {
          return;
        }
      }
      level := level + 1;
    }
    r := None;
  }
}
