/**
 Replaying version edits: one builder that takes in a whole sequence of edits and saves once
 yields the version that installing the edits one at a time yields.
 */
module VersionBuilder {
  import opened DbFormat
  import opened Version
  import opened Edits

  /** What an edit does to one level. */
  datatype Change = Change(deleted: set<nat>, added: seq<File>)

  type Edit = seq<Change>       // one change for each level

  /** A level of the builder: files to drop by number, and files to add, kept in order. */
  datatype LevelState = LevelState(deleted: set<nat>, added: seq<File>)

  /** Insertion into the ordered set of added files; a file that compares equal is already there. */
  function Insert(s: seq<File>, f: File): seq<File> {
    if s == [] then [f]
    else if BySmallest(f, s[0]) then [f] + s
    else if BySmallest(s[0], f) then [s[0]] + Insert(s[1..], f)
    else s
  }

  function InsertAll(s: seq<File>, fs: seq<File>): seq<File>
    decreases |fs|
  {
    if fs == [] then s else InsertAll(Insert(s, fs[0]), fs[1..])
  }

  /** Builder::Apply on one level: deletions first, then additions, which undo deletions of the same number. */
  function Apply(b: LevelState, c: Change): LevelState {
    LevelState(b.deleted + c.deleted - Numbers(c.added), InsertAll(b.added, c.added))
  }

  /** Builder::SaveTo on one level. */
  function Save(base: seq<File>, b: LevelState): seq<File> { Remove(MergeFiles(base, b.added), b.deleted) }

  const EMPTY: LevelState := LevelState({}, [])

  function Fold(b: LevelState, cs: seq<Change>): LevelState {
    if cs == [] then b else Apply(Fold(b, cs[..|cs| - 1]), cs[|cs| - 1])
  }

  /** One edit at a time, each through a builder of its own. */
  function Install(base: seq<File>, cs: seq<Change>): seq<File> {
    if cs == [] then base else Save(Install(base, cs[..|cs| - 1]), Apply(EMPTY, cs[|cs| - 1]))
  }

  // ---- Ordered lists ------------------------------------------------------------------------

  /** Files with different numbers are ordered one way or the other. */
  lemma {:induction false} InsertIs(s: seq<File>, f: File)
    requires SortedBySmallest(s) && forall g | g in s :: g.number != f.number
    ensures SortedBySmallest(Insert(s, f)) && forall g :: g in Insert(s, f) <==> g == f || g in s
  {
    if s != [] {
      assert s == [s[0]] + s[1..] && s[0] in s;
      if BySmallest(f, s[0]) {
        HeadFirst(f, s, [], s);
      } else {
        InsertIs(s[1..], f);
        HeadFirst(s[0], s[1..], [f], Insert(s[1..], f));
      }
    }
  }

  lemma {:induction false} InsertAllIs(s: seq<File>, fs: seq<File>)
    requires SortedBySmallest(s) && DistinctNumbers(fs) && ClearOf(s, fs)
    ensures SortedBySmallest(InsertAll(s, fs)) && forall g :: g in InsertAll(s, fs) <==> g in s || g in fs
    decreases |fs|
  {
    if fs != [] {
      assert fs == [fs[0]] + fs[1..] && fs[0] in fs;
      InsertIs(s, fs[0]);
      InsertAllIs(Insert(s, fs[0]), fs[1..]);
    }
  }

  /** A strictly ordered list is determined by its elements. */
  lemma {:induction false} SameElements(a: seq<File>, b: seq<File>)
    requires SortedBySmallest(a) && SortedBySmallest(b) && forall f :: f in a <==> f in b
    ensures a == b
  {
    assert |a| > 0 ==> a[0] in a && a[0] in b;
    assert |b| > 0 ==> b[0] in b && b[0] in a;
    if |a| > 0 && |b| > 0 {
      assert a[0] in a && b[0] in b;
      SameHead(a, b);
      TailElements(a);
      TailElements(b);
      SameElements(a[1..], b[1..]);
      assert a == [a[0]] + a[1..] && b == [b[0]] + b[1..];
    }
  }

  lemma {:induction false} TailElements(a: seq<File>)
    requires SortedBySmallest(a) && a != []
    ensures forall f :: f in a[1..] <==> f in a && f != a[0]
  {
    assert a == [a[0]] + a[1..];
    assert forall i | 0 < i < |a| :: BySmallest(a[0], a[i]);
  }

  lemma {:induction false} SameHead(a: seq<File>, b: seq<File>)
    requires SortedBySmallest(a) && SortedBySmallest(b) && a != [] && b != [] && a[0] in b && b[0] in a
    ensures a[0] == b[0]
  {
    var i :| 0 <= i < |b| && b[i] == a[0];
    var j :| 0 <= j < |a| && a[j] == b[0];
    assert i > 0 ==> BySmallest(b[0], a[0]);
    assert j > 0 ==> BySmallest(a[0], b[0]);
  }

  // ---- Replay -------------------------------------------------------------------------------

  /** No number is added twice at this level, and none that the base has. */
  ghost predicate AddedOnce(base: seq<File>, cs: seq<Change>) {
    && SortedBySmallest(base) && DistinctNumbers(base)
    && (forall k | 0 <= k < |cs| :: DistinctNumbers(cs[k].added) && ClearOf(base, cs[k].added))
    && (forall k, l | 0 <= k < l < |cs| :: ClearOf(cs[k].added, cs[l].added))
  }

  ghost predicate AddedBy(cs: seq<Change>, f: File) { exists k | 0 <= k < |cs| :: f in cs[k].added }

  /** The builder's added files are those of the edits, in order. */
  lemma {:induction false} FoldAdded(base: seq<File>, cs: seq<Change>)
    requires AddedOnce(base, cs)
    ensures SortedBySmallest(Fold(EMPTY, cs).added) && forall f :: f in Fold(EMPTY, cs).added <==> AddedBy(cs, f)
  {
    if cs != [] {
      var front, c := cs[..|cs| - 1], cs[|cs| - 1];
      FoldAdded(base, front);
      var b := Fold(EMPTY, front);
      forall f, g | f in b.added && g in c.added ensures f.number != g.number {
        var k :| 0 <= k < |front| && f in front[k].added;
        assert ClearOf(cs[k].added, cs[|cs| - 1].added);
      }
      assert DistinctNumbers(cs[|cs| - 1].added);
      InsertAllIs(b.added, c.added);
      forall f ensures AddedBy(cs, f) <==> AddedBy(front, f) || f in c.added {
        if AddedBy(front, f) {
          var k :| 0 <= k < |front| && f in front[k].added;
          assert f in cs[k].added;
        }
      }
    }
  }

  /** A file saved by the builder comes from the base or an edit, and is not marked deleted. */
  lemma {:induction false} SaveIs(base: seq<File>, cs: seq<Change>)
    requires AddedOnce(base, cs)
    ensures var b := Fold(EMPTY, cs);
            && SortedBySmallest(Save(base, b))
            && forall f :: f in Save(base, b) <==> (f in base || AddedBy(cs, f)) && f.number !in b.deleted
  {
    var b := Fold(EMPTY, cs);
    FoldAdded(base, cs);
    forall f, g | f in base && g in b.added ensures f.number != g.number {
      var k :| 0 <= k < |cs| && g in cs[k].added;
      assert ClearOf(base, cs[k].added);
    }
    MergeKeepsOrder(base, b.added);
    RemoveKeepsOrder(MergeFiles(base, b.added), b.deleted);
  }

  lemma {:induction false} LastEdit(base: seq<File>, cs: seq<Change>)
    requires AddedOnce(base, cs) && cs != []
    ensures var front := cs[..|cs| - 1];
            Save(base, Fold(EMPTY, cs)) == Save(Save(base, Fold(EMPTY, front)), Apply(EMPTY, cs[|cs| - 1]))
  {
    var front, c := cs[..|cs| - 1], cs[|cs| - 1];
    var v := Save(base, Fold(EMPTY, front));
    SaveIs(base, cs);
    SaveIs(base, front);
    forall f, g | f in v && g in c.added ensures f.number != g.number {
      OlderIsClear(base, cs, f);
      assert g.number in Numbers(c.added);
    }
    assert DistinctNumbers(cs[|cs| - 1].added);
    OneEdit(v, c);
    var w := Save(v, Apply(EMPTY, c));
    forall f ensures f in Save(base, Fold(EMPTY, cs)) <==> f in w {
      SameFate(base, cs, f);
    }
    SameElements(Save(base, Fold(EMPTY, cs)), w);
  }

  /** What one edit does to a version. */
  lemma {:induction false} OneEdit(v: seq<File>, c: Change)
    requires SortedBySmallest(v) && DistinctNumbers(c.added) && ClearOf(v, c.added)
    ensures SortedBySmallest(Save(v, Apply(EMPTY, c)))
    ensures forall f :: f in Save(v, Apply(EMPTY, c)) <==> f in c.added || (f in v && f.number !in c.deleted)
  {
    InsertAllIs([], c.added);
    var b := Apply(EMPTY, c);
    MergeKeepsOrder(v, b.added);
    RemoveKeepsOrder(MergeFiles(v, b.added), b.deleted);
    forall f ensures f in Save(v, b) <==> f in c.added || (f in v && f.number !in c.deleted) {
      if f in c.added {
        assert f.number in Numbers(c.added);
      } else if f in v {
        assert f.number !in Numbers(c.added);
      }
    }
  }

  lemma {:induction false} AddedByLast(cs: seq<Change>, f: File)
    requires cs != []
    ensures AddedBy(cs, f) <==> AddedBy(cs[..|cs| - 1], f) || f in cs[|cs| - 1].added
  {
    var front := cs[..|cs| - 1];
    if AddedBy(front, f) {
      var k :| 0 <= k < |front| && f in front[k].added;
      assert f in cs[k].added;
    }
    assert f in cs[|cs| - 1].added ==> AddedBy(cs, f);
  }

  /** A file that was there before the last edit has another number than those it adds. */
  lemma {:induction false} OlderIsClear(base: seq<File>, cs: seq<Change>, f: File)
    requires AddedOnce(base, cs) && cs != [] && (f in base || AddedBy(cs[..|cs| - 1], f))
    ensures f.number !in Numbers(cs[|cs| - 1].added)
  {
    var front := cs[..|cs| - 1];
    if f in base {
      assert ClearOf(base, cs[|cs| - 1].added);
    } else {
      var k :| 0 <= k < |front| && f in front[k].added;
      assert ClearOf(cs[k].added, cs[|cs| - 1].added);
    }
  }

  lemma {:induction false} SameFate(base: seq<File>, cs: seq<Change>, f: File)
    requires AddedOnce(base, cs) && cs != []
    ensures var (front, c) := (cs[..|cs| - 1], cs[|cs| - 1]);
            ((f in base || AddedBy(cs, f)) && f.number !in Fold(EMPTY, cs).deleted) <==>
            (f in c.added || ((f in base || AddedBy(front, f)) && f.number !in Fold(EMPTY, front).deleted
              && f.number !in c.deleted))
  {
    AddedByLast(cs, f);
    assert f in cs[|cs| - 1].added ==> f.number in Numbers(cs[|cs| - 1].added);
    if f in base || AddedBy(cs[..|cs| - 1], f) {
      OlderIsClear(base, cs, f);
    }
  }

  /** Folding edits through one builder is installing them one by one. */
  lemma {:induction false} FoldIsInstall(base: seq<File>, cs: seq<Change>)
    requires AddedOnce(base, cs)
    ensures Save(base, Fold(EMPTY, cs)) == Install(base, cs)
  {
    if cs == [] {
      assert Remove(base, {}) == base by {
        NothingRemoved(base);
      }
    } else {
      var front, c := cs[..|cs| - 1], cs[|cs| - 1];
      FoldIsInstall(base, front);
      LastEdit(base, cs);
    }
  }

  lemma {:induction false} NothingRemoved(files: seq<File>)
    ensures Remove(files, {}) == files
  {
    if files != [] {
      NothingRemoved(files[1..]);
    }
  }

  lemma {:induction false} InsertAllOne(s: seq<File>, f: File)
    ensures InsertAll(s, [f]) == Insert(s, f)
  {
    assert [f][1..] == [] && InsertAll(Insert(s, f), []) == Insert(s, f);
  }

  /** A number given to another file after a deletion brings the deleted file back. */
  lemma {:induction false} ReaddedNumberRevives() returns (cs: seq<Change>)
    ensures !AddedOnce([], cs) && Save([], Fold(EMPTY, cs)) != Install([], cs)
  {
    var f := File(1, 0, [Entry(1.0, 1, Delete)]);
    var g := File(1, 0, [Entry(2.0, 2, Delete)]);
    cs := [Change({}, [f]), Change({1}, []), Change({}, [g])];
    var one, two := [cs[0]], [cs[0], cs[1]];
    assert cs[..|cs| - 1] == two && two[..|two| - 1] == one && one[..|one| - 1] == [];
    InsertAllOne([], f);
    InsertAllOne([], g);
    InsertAllOne([f], g);
    assert [f][1..] == [];
    assert Insert([f], g) == [f] + Insert([], g);
    var b2 := Fold(EMPTY, two);
    assert Fold(EMPTY, one) == Apply(EMPTY, cs[0]) && b2 == Apply(Fold(EMPTY, one), cs[1]);
    assert b2.added == [f];
    assert g.number in Numbers(cs[2].added);
    assert f in Fold(EMPTY, cs).added && f.number !in Fold(EMPTY, cs).deleted;
    assert f in Save([], Fold(EMPTY, cs));
    assert f !in Install([], two) by {
      assert 1 in Apply(EMPTY, cs[1]).deleted;
    }
    assert f !in Install([], cs) by {
      assert Apply(EMPTY, cs[2]).added == [g];
    }
    assert f in cs[0].added && g in cs[2].added;
    assert !ClearOf(cs[0].added, cs[2].added);
  }

  // ---- All levels ---------------------------------------------------------------------------

  function At(edits: seq<Edit>, level: nat): seq<Change>
    requires forall e | e in edits :: level < |e|
  {
    seq(|edits|, k requires 0 <= k < |edits| => edits[k][level])
  }

  /** The edit that WriteSnapshot writes: every file of the version is added. */
  function Snapshot(v: Levels): Edit { seq(|v|, l requires 0 <= l < |v| => Change({}, v[l])) }

  /** What Recover builds from the manifest: a snapshot and the edits after it, through one builder, from nothing. */
  function Recovered(v: Levels, edits: seq<Edit>): Levels
    requires forall e | e in edits :: |e| == |v|
  {
    seq(|v|, l requires 0 <= l < |v| => Save([], Fold(EMPTY, At([Snapshot(v)] + edits, l))))
  }

  /** What the running database has after logging and installing each edit. */
  function Installed(v: Levels, edits: seq<Edit>): Levels
    requires forall e | e in edits :: |e| == |v|
  {
    seq(|v|, l requires 0 <= l < |v| => Install(v[l], At(edits, l)))
  }

  lemma {:induction false} SnapshotFirst(files: seq<File>, cs: seq<Change>)
    requires AddedOnce(files, cs)
    ensures Install([], [Change({}, files)] + cs) == Install(files, cs)
  {
    var all := [Change({}, files)] + cs;
    if cs == [] {
      assert all[..0] == [];
      OneEdit([], Change({}, files));
      SameElements(Save([], Apply(EMPTY, Change({}, files))), files);
    } else {
      assert all[..|all| - 1] == [Change({}, files)] + cs[..|cs| - 1];
      SnapshotFirst(files, cs[..|cs| - 1]);
    }
  }

  lemma {:induction false} AddedOnceAfterSnapshot(files: seq<File>, cs: seq<Change>)
    requires AddedOnce(files, cs)
    ensures AddedOnce([], [Change({}, files)] + cs)
  {
    var all := [Change({}, files)] + cs;
    forall k, l | 0 <= k < l < |all| ensures ClearOf(all[k].added, all[l].added) {
      assert all[l] == cs[l - 1];
    }
  }

  lemma {:induction false} RecoveredLevel(files: seq<File>, cs: seq<Change>)
    requires AddedOnce(files, cs)
    ensures Save([], Fold(EMPTY, [Change({}, files)] + cs)) == Install(files, cs)
  {
    AddedOnceAfterSnapshot(files, cs);
    FoldIsInstall([], [Change({}, files)] + cs);
    SnapshotFirst(files, cs);
  }

  lemma {:induction false} AtSnapshot(v: Levels, edits: seq<Edit>, l: nat)
    requires l < |v| && forall e | e in edits :: |e| == |v|
    ensures At([Snapshot(v)] + edits, l) == [Change({}, v[l])] + At(edits, l)
  {
  }

  /** Recovery gives back the version that was current when the last edit had been logged. */
  lemma {:induction false} RecoveredIsInstalled(v: Levels, edits: seq<Edit>)
    requires forall e | e in edits :: |e| == |v|
    requires forall l | 0 <= l < |v| :: AddedOnce(v[l], At(edits, l))
    ensures Recovered(v, edits) == Installed(v, edits)
  {
    forall l | 0 <= l < |v| ensures Recovered(v, edits)[l] == Installed(v, edits)[l] {
      AtSnapshot(v, edits, l);
      RecoveredLevel(v[l], At(edits, l));
    }
  }
}
