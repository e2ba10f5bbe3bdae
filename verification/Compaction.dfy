/**
 The compaction loop: which entries of the merged inputs are dropped, and where the output
 tables are cut.
 */
module Compaction {
  import opened Guard
  import opened DbFormat
  import opened Version

  /** A newer entry of the same user key is already visible at the smallest snapshot. */
  predicate Superseded(merged: seq<Entry>, e: Entry, smallest: nat) {
    exists x | x in merged :: x.key == e.key && Newer(x, e) && x.num <= smallest
  }

  /** No file from level + 2 down covers the user key. */
  predicate IsBase(v: Levels, level: nat, k: UserKey) {
    forall l | level + 2 <= l < |v| :: forall f | f in v[l] :: !MayContain(f, k)
  }

  /** The drop rule, said without the loop's running state. */
  predicate Dropped(v: Levels, level: nat, merged: seq<Entry>, smallest: nat, e: Entry) {
    || Superseded(merged, e, smallest)
    || (e.op.Delete? && e.num <= smallest && IsBase(v, level, e.key))
  }

  function Kept(v: Levels, level: nat, merged: seq<Entry>, smallest: nat, n: nat): (r: seq<Entry>)
    requires n <= |merged|
    ensures forall e :: e in r <==> e in merged[..n] && !Dropped(v, level, merged, smallest, e)
  {
    if n == 0 then []
    else
      var e := merged[n - 1];
      var r := Kept(v, level, merged, smallest, n - 1);
      assert merged[..n] == merged[..n - 1] + [e];
      if Dropped(v, level, merged, smallest, e) then r else r + [e]
  }

  lemma {:induction false} KeptIsSorted(v: Levels, level: nat, merged: seq<Entry>, smallest: nat, n: nat)
    requires Sorted(merged) && n <= |merged|
    ensures Sorted(Kept(v, level, merged, smallest, n))
  {
    if n > 0 {
      KeptIsSorted(v, level, merged, smallest, n - 1);
      var r := Kept(v, level, merged, smallest, n - 1);
      forall i | 0 <= i < |r| ensures Less(r[i].IK(), merged[n - 1].IK()) {
        assert r[i] in merged[..n - 1];
      }
    }
  }

  /** Looking at the entry just before is enough: it is the oldest of the newer ones of its key. */
  lemma {:induction false} SupersededByPrevious(merged: seq<Entry>, i: nat, smallest: nat)
    requires Sorted(merged) && i < |merged|
    ensures Superseded(merged, merged[i], smallest) <==>
              i > 0 && merged[i - 1].key == merged[i].key && merged[i - 1].num <= smallest
  {
    if Superseded(merged, merged[i], smallest) {
      var x :| x in merged && x.key == merged[i].key && Newer(x, merged[i]) && x.num <= smallest;
      var j :| 0 <= j < |merged| && merged[j] == x;
      if j < i {
        assert j == i - 1 || Less(merged[j].IK(), merged[i - 1].IK());
        assert Less(merged[i - 1].IK(), merged[i].IK());
      }
    }
    if i > 0 {
      assert merged[i - 1] in merged && Less(merged[i - 1].IK(), merged[i].IK());
    }
  }

  /** Some file two or more levels below `level` has the user key in its range. */
  ghost predicate CoveredBelow(v: Levels, level: nat, k: UserKey) {
    exists l: int, f :: level + 2 <= l && FileAt(v, l, f) && f.Smallest().user <= k <= f.Largest().user
  }

  /** No tombstone stays that every reader sees and that hides nothing. */
  ghost predicate TombstonesNeeded(v: Levels, level: nat, smallest: nat, out: seq<Entry>) {
    forall e | e in out && e.op.Delete? && e.num <= smallest :: CoveredBelow(v, level, e.key)
  }

  /** Nothing stays that a newer entry hides from every reader. */
  ghost predicate NoneHidden(input: seq<Entry>, smallest: nat, out: seq<Entry>) {
    forall e, x | e in out && x in input && x.key == e.key && x.num > e.num :: x.num > smallest
  }

  /** Whatever is missing is hidden from every reader, or a tombstone that hides nothing. */
  ghost predicate OnlyUselessLost(v: Levels, level: nat, input: seq<Entry>, smallest: nat, out: seq<Entry>) {
    forall e | e in input && e !in out ::
      || (exists x :: x in input && x.key == e.key && Newer(x, e) && x.num <= smallest)
      || (e.op.Delete? && e.num <= smallest && !CoveredBelow(v, level, e.key))
  }

  /** What a compaction writes: entries of its input in order, all that some reader may need and no others. */
  ghost predicate ExactlyNeeded(v: Levels, level: nat, input: seq<Entry>, smallest: nat, out: seq<Entry>) {
    && Sorted(out) && (forall e | e in out :: e in input)
    && TombstonesNeeded(v, level, smallest, out) && NoneHidden(input, smallest, out)
    && OnlyUselessLost(v, level, input, smallest, out)
  }

  lemma {:induction false} BaseIsUncovered(v: Levels, level: nat, k: UserKey)
    ensures IsBase(v, level, k) <==> !CoveredBelow(v, level, k)
  {
    if !IsBase(v, level, k) {
      var l, f :| level + 2 <= l < |v| && f in v[l] && MayContain(f, k);
      assert FileAt(v, l, f);
    }
  }

  lemma {:induction false} KeptIsNeeded(v: Levels, level: nat, input: seq<Entry>, smallest: nat)
    requires Sorted(input)
    ensures ExactlyNeeded(v, level, input, smallest, Kept(v, level, input, smallest, |input|))
  {
    var out := Kept(v, level, input, smallest, |input|);
    assert input[..|input|] == input;
    KeptIsSorted(v, level, input, smallest, |input|);
    forall k ensures IsBase(v, level, k) <==> !CoveredBelow(v, level, k) { BaseIsUncovered(v, level, k); }
  }

  /** At most one version of a user key that every reader sees. */
  lemma {:induction false} OneVisibleVersion(v: Levels, level: nat, input: seq<Entry>, smallest: nat, out: seq<Entry>,
                                             a: Entry, b: Entry)
    requires ExactlyNeeded(v, level, input, smallest, out)
    requires a in out && b in out && a.key == b.key && a.num <= smallest && b.num <= smallest
    ensures a.num == b.num
  {
  }

  /** These demands leave no choice. */
  lemma {:induction false} NeededIsUnique(v: Levels, level: nat, input: seq<Entry>, smallest: nat, e: Entry,
                                          out: seq<Entry>, out': seq<Entry>)
    requires ExactlyNeeded(v, level, input, smallest, out) && ExactlyNeeded(v, level, input, smallest, out')
    requires e in out && forall x, y | x in input && y in input && x.key == y.key && x.num == y.num :: x == y
    ensures e in out'
  {
  }

  /** Finish the table being built, if it has any entries. */
  method FinishTable(tables: seq<seq<Entry>>, builder: seq<Entry>) returns (r: seq<seq<Entry>>)
    requires NonEmptyTables(tables)
    ensures NonEmptyTables(r) && Flatten(r) == Flatten(tables) + builder
    ensures r == if builder == [] then tables else tables + [builder]
  {
    r := tables;
    if builder != [] {
      FlattenAppend(tables, builder);
      r := tables + [builder];
    }
  }

  predicate NonEmptyTables(tables: seq<seq<Entry>>) { forall i | 0 <= i < |tables| :: tables[i] != [] }

  /** Finishes the table being built, if asked to. */
  method CutTable(cut: bool, tables: seq<seq<Entry>>, builder: seq<Entry>) returns (ts: seq<seq<Entry>>, b: seq<Entry>)
    requires NonEmptyTables(tables)
    ensures NonEmptyTables(ts) && Flatten(ts) + b == Flatten(tables) + builder && b == (if cut then [] else builder)
    ensures ts == if cut && builder != [] then tables + [builder] else tables
  {
    ts, b := tables, builder;
    if cut {
      ts := FinishTable(tables, builder);
      b := [];
    }
  }

  // ---- Where the tables are cut -----------------------------------------------------------

  /** Between the entries `a` and `b` of the input a table ends: it is full with `a`, or one of those after `a` stops
      it. */
  ghost predicate CutBetween(stopBefore: nat -> bool, full: nat -> bool, a: nat, b: nat) {
    full(a) || exists k :: a < k <= b && stopBefore(k)
  }

  /** The table holds the input at these positions, and is cut nowhere between them. */
  ghost predicate Piece(input: seq<Entry>, table: seq<Entry>, at: seq<nat>, stopBefore: nat -> bool,
                        full: nat -> bool) {
    && |table| == |at| > 0 && (forall j | 0 <= j < |at| :: at[j] < |input| && table[j] == input[at[j]])
    && (forall j | 0 < j < |at| :: at[j - 1] < at[j] && !CutBetween(stopBefore, full, at[j - 1], at[j]))
  }

  /** The end of one table and the start of the next are cut apart. */
  ghost predicate Apart(a: seq<nat>, b: seq<nat>, stopBefore: nat -> bool, full: nat -> bool) {
    a != [] && b != [] && a[|a| - 1] < b[0] && CutBetween(stopBefore, full, a[|a| - 1], b[0])
  }

  /** Tables are cut exactly where `stopBefore` and `full` say. */
  ghost predicate Pieces(input: seq<Entry>, tables: seq<seq<Entry>>, at: seq<seq<nat>>, stopBefore: nat -> bool,
                         full: nat -> bool)
  {
    && |tables| == |at| && (forall t | 0 <= t < |at| :: Piece(input, tables[t], at[t], stopBefore, full))
    && (forall t | 0 < t < |at| :: Apart(at[t - 1], at[t], stopBefore, full))
  }

  /** The tables so far and the one being built, with the input looked at up to position `m`. */
  ghost predicate Laid(input: seq<Entry>, tables: seq<seq<Entry>>, at: seq<seq<nat>>, builder: seq<Entry>,
                       cur: seq<nat>,
                       m: int, stopBefore: nat -> bool, full: nat -> bool)
  {
    forall n | Unfolded(n) :: LaidOut(input, tables, at, builder, cur, m, stopBefore, full)
  }

  ghost predicate LaidOut(input: seq<Entry>, tables: seq<seq<Entry>>, at: seq<seq<nat>>, builder: seq<Entry>,
                          cur: seq<nat>,
                          m: int, stopBefore: nat -> bool, full: nat -> bool)
  {
    && Pieces(input, tables, at, stopBefore, full) && |builder| == |cur|
    && (cur != [] ==> Piece(input, builder, cur, stopBefore, full) && cur[|cur| - 1] <= m
                      && !CutBetween(stopBefore, full, cur[|cur| - 1], m))
    && (cur != [] && at != [] ==> Apart(at[|at| - 1], cur, stopBefore, full))
    && (cur == [] && at != [] ==> var a := at[|at| - 1]; a[|a| - 1] <= m && CutBetween(stopBefore, full, a[|a| - 1], m))
  }

  lemma {:induction false} PiecesMore(input: seq<Entry>, tables: seq<seq<Entry>>, at: seq<seq<nat>>,
                                      builder: seq<Entry>,
                                      cur: seq<nat>, stopBefore: nat -> bool, full: nat -> bool)
    requires Pieces(input, tables, at, stopBefore, full) && Piece(input, builder, cur, stopBefore, full)
    requires at != [] ==> Apart(at[|at| - 1], cur, stopBefore, full)
    ensures Pieces(input, tables + [builder], at + [cur], stopBefore, full)
  {
    var ts, bt := tables + [builder], at + [cur];
    forall t | 0 <= t < |bt| ensures Piece(input, ts[t], bt[t], stopBefore, full) {
      assert t < |at| ==> Piece(input, tables[t], at[t], stopBefore, full);
    }
    forall t | 0 < t < |bt| ensures Apart(bt[t - 1], bt[t], stopBefore, full) {
      assert t < |at| ==> Apart(at[t - 1], at[t], stopBefore, full);
    }
  }

  lemma {:induction false} LaidEndsHere(input: seq<Entry>, tables: seq<seq<Entry>>, at: seq<seq<nat>>,
                                        builder: seq<Entry>, cur: seq<nat>, i: nat, stopBefore: nat -> bool,
                                        full: nat -> bool)
    requires LaidOut(input, tables, at, builder, cur, i - 1, stopBefore, full) && stopBefore(i) && builder != []
    ensures LaidOut(input, tables + [builder], at + [cur], [], [], i, stopBefore, full) && Below(at + [cur], [], i)
  {
    PiecesMore(input, tables, at, builder, cur, stopBefore, full);
    assert CutBetween(stopBefore, full, cur[|cur| - 1], i);
  }

  lemma {:induction false} LaidGoesOn(input: seq<Entry>, tables: seq<seq<Entry>>, at: seq<seq<nat>>,
                                      builder: seq<Entry>, cur: seq<nat>, i: nat, stopBefore: nat -> bool,
                                      full: nat -> bool)
    requires LaidOut(input, tables, at, builder, cur, i - 1, stopBefore, full) && (builder == [] || !stopBefore(i))
    ensures LaidOut(input, tables, at, builder, cur, i, stopBefore, full) && Below(at, cur, i)
  {
    if cur != [] {
      StaysUncut(stopBefore, full, cur[|cur| - 1], i);
    } else if at != [] {
      StaysCut(stopBefore, full, at[|at| - 1][|at[|at| - 1]| - 1], i);
    }
  }

  /** The next entry is looked at, and stops the table being built or not. */
  lemma {:induction false} LaidStops(input: seq<Entry>, tables: seq<seq<Entry>>, at: seq<seq<nat>>, builder: seq<Entry>,
                                     cur: seq<nat>, i: nat, stopBefore: nat -> bool, full: nat -> bool)
    returns (at': seq<seq<nat>>, cur': seq<nat>)
    requires Laid(input, tables, at, builder, cur, i - 1, stopBefore, full)
    ensures Laid(input, if stopBefore(i) && builder != [] then tables + [builder] else tables, at',
                 if stopBefore(i) then [] else builder, cur', i, stopBefore, full)
    ensures Below(at', cur', i)
  {
    assert Unfolded(0);
    if stopBefore(i) && builder != [] {
      LaidEndsHere(input, tables, at, builder, cur, i, stopBefore, full);
      at', cur' := at + [cur], [];
    } else {
      LaidGoesOn(input, tables, at, builder, cur, i, stopBefore, full);
      at', cur' := at, cur;
    }
  }

  lemma {:induction false} StaysUncut(stopBefore: nat -> bool, full: nat -> bool, a: nat, b: nat)
    requires b > 0 && !CutBetween(stopBefore, full, a, b - 1) && !stopBefore(b)
    ensures !CutBetween(stopBefore, full, a, b)
  {
  }

  lemma {:induction false} StaysCut(stopBefore: nat -> bool, full: nat -> bool, a: nat, b: nat)
    requires b > 0 && CutBetween(stopBefore, full, a, b - 1)
    ensures CutBetween(stopBefore, full, a, b)
  {
    if !full(a) {
      var k :| a < k <= b - 1 && stopBefore(k);
      assert a < k <= b && stopBefore(k);
    }
  }

  /** All positions so far are below `i`. */
  predicate Below(at: seq<seq<nat>>, cur: seq<nat>, i: nat) {
    if cur != [] then cur[|cur| - 1] < i else at != [] ==> var a := at[|at| - 1]; a != [] ==> a[|a| - 1] < i
  }

  lemma {:induction false} PieceMore(input: seq<Entry>, builder: seq<Entry>, cur: seq<nat>, i: nat,
                                     stopBefore: nat -> bool, full: nat -> bool)
    requires i < |input| && |builder| == |cur|
    requires cur != [] ==> Piece(input, builder, cur, stopBefore, full) && cur[|cur| - 1] < i
                           && !CutBetween(stopBefore, full, cur[|cur| - 1], i)
    ensures Piece(input, builder + [input[i]], cur + [i], stopBefore, full)
  {
  }

  /** The entry joins the table being built, and fills it or not. */
  lemma {:induction false} LaidKeeps(input: seq<Entry>, tables: seq<seq<Entry>>, at: seq<seq<nat>>, builder: seq<Entry>,
                                     cur: seq<nat>, i: nat, stopBefore: nat -> bool, full: nat -> bool)
    returns (at': seq<seq<nat>>, cur': seq<nat>)
    requires Laid(input, tables, at, builder, cur, i, stopBefore, full) && i < |input| && Below(at, cur, i)
    ensures var b := builder + [input[i]];
            Laid(input, if full(i) then tables + [b] else tables, at', if full(i) then [] else b, cur', i,
                 stopBefore, full)
  {
    assert Unfolded(0);
    var b := builder + [input[i]];
    at', cur' := at, cur + [i];
    PieceMore(input, builder, cur, i, stopBefore, full);
    assert CutBetween(stopBefore, full, i, i) == full(i);
    assert at != [] ==> Apart(at[|at| - 1], cur', stopBefore, full);
    if full(i) {
      PiecesMore(input, tables, at, b, cur', stopBefore, full);
      at', cur' := at + [cur'], [];
    }
  }

  lemma {:induction false} LaidEnds(input: seq<Entry>, tables: seq<seq<Entry>>, at: seq<seq<nat>>, builder: seq<Entry>,
                                    cur: seq<nat>, m: int, stopBefore: nat -> bool, full: nat -> bool)
    returns (at': seq<seq<nat>>)
    requires Laid(input, tables, at, builder, cur, m, stopBefore, full)
    ensures Pieces(input, if builder == [] then tables else tables + [builder], at', stopBefore, full)
  {
    assert Unfolded(0);
    at' := at;
    if builder != [] {
      PiecesMore(input, tables, at, builder, cur, stopBefore, full);
      at' := at + [cur];
    }
  }

  /** ShouldStopBefore: the table being built may end before this entry. */
  method StopTable(input: seq<Entry>, i: nat, tables: seq<seq<Entry>>, builder: seq<Entry>, stopBefore: nat -> bool,
                   ghost full: nat -> bool, ghost at: seq<seq<nat>>, ghost cur: seq<nat>)
    returns (ts: seq<seq<Entry>>, b: seq<Entry>, ghost at': seq<seq<nat>>, ghost cur': seq<nat>)
    requires NonEmptyTables(tables) && Laid(input, tables, at, builder, cur, i - 1, stopBefore, full)
    ensures NonEmptyTables(ts) && Flatten(ts) + b == Flatten(tables) + builder
    ensures Laid(input, ts, at', b, cur', i, stopBefore, full) && Below(at', cur', i)
  {
    at', cur' := LaidStops(input, tables, at, builder, cur, i, stopBefore, full);
    ts, b := CutTable(stopBefore(i), tables, builder);
  }

  /** The entry goes into the table being built, which ends when it is full. */
  method PutEntry(input: seq<Entry>, i: nat, tables: seq<seq<Entry>>, builder: seq<Entry>,
                  ghost stopBefore: nat -> bool,
                  full: nat -> bool, ghost at: seq<seq<nat>>, ghost cur: seq<nat>)
    returns (ts: seq<seq<Entry>>, b: seq<Entry>, ghost at': seq<seq<nat>>, ghost cur': seq<nat>)
    requires NonEmptyTables(tables) && i < |input| && Laid(input, tables, at, builder, cur, i, stopBefore, full)
    requires Below(at, cur, i)
    ensures NonEmptyTables(ts) && Flatten(ts) + b == Flatten(tables) + (builder + [input[i]])
    ensures Laid(input, ts, at', b, cur', i, stopBefore, full)
  {
    at', cur' := LaidKeeps(input, tables, at, builder, cur, i, stopBefore, full);
    ts, b := CutTable(full(i), tables, builder + [input[i]]);
  }

  /**
   A running compaction: the version its inputs come from, and one forward-only cursor per
   level that answers whether a user key can occur below the output level.
   */
  class Cursor {
    const version: Levels
    const level: nat
    var levelPtrs: seq<nat>
    ghost var lastKey: Option<UserKey>

    /** Files behind a cursor end before every key still to be asked about. */
    ghost predicate Valid()
      reads this
    {
      && |version| == NUM_LEVELS && |levelPtrs| == NUM_LEVELS
      && (forall l | 1 <= l < NUM_LEVELS :: AllOk(version[l]) && LevelSorted(version[l]))
      && (forall l | 0 <= l < NUM_LEVELS :: levelPtrs[l] <= |version[l]|)
      && (forall l, i | level + 2 <= l < NUM_LEVELS && 0 <= i < levelPtrs[l] ::
            lastKey.Some? && version[l][i].Largest().user < lastKey.value)
    }

    constructor (version: Levels, level: nat)
      requires VersionInv(version)
      ensures Valid() && this.version == version && this.level == level && lastKey == None
    {
      this.version, this.level := version, level;
      levelPtrs := [0, 0, 0, 0, 0, 0, 0];
      lastKey := None;
      forall l | 1 <= l < NUM_LEVELS ensures LevelSorted(version[l]) { DisjointIsSorted(version[l]); }
    }

    /** For keys asked in non-decreasing order the cursors answer as a full scan would. */
    method IsBaseLevelForKey(k: UserKey) returns (base: bool)
      requires Valid() && (lastKey.Some? ==> lastKey.value <= k)
      modifies this
      ensures Valid() && lastKey == Some(k)
      ensures base == IsBase(version, level, k)
    {
      lastKey := Some(k);
      var lvl := level + 2;
      while lvl < NUM_LEVELS
        invariant level + 2 <= lvl && Valid() && lastKey == Some(k)
        invariant forall l | level + 2 <= l < lvl && l < NUM_LEVELS :: forall f | f in version[l] :: !MayContain(f, k)
      {
        var found := AdvanceLevel(lvl, k);
        if found {
          return false;
        }
        lvl := lvl + 1;
      }
      base := true;
    }

    /** Advance one level's cursor to the first file that does not end before `k`. */
    method AdvanceLevel(lvl: nat, k: UserKey) returns (found: bool)
      requires Valid() && level + 2 <= lvl < NUM_LEVELS && lastKey == Some(k)
      modifies this
      ensures Valid() && lastKey == Some(k)
      ensures found == exists f | f in version[lvl] :: MayContain(f, k)
    {
      var files := version[lvl];
      while levelPtrs[lvl] < |files|
        invariant Valid() && lastKey == Some(k)
        decreases |files| - levelPtrs[lvl]
      {
        var f := files[levelPtrs[lvl]];
        if k <= f.Largest().user {
          if f.Smallest().user <= k {
            assert f in files && MayContain(f, k);
            return true;
          }
          ghost var p := levelPtrs[lvl];
          LargestAfterSmallest(f);
          forall i | 0 <= i < |files| ensures !MayContain(files[i], k) {
            if p < i {
              assert Before(files[p], files[i]);
            }
          }
          return false;
        }
        levelPtrs := levelPtrs[lvl := levelPtrs[lvl] + 1];
      }
      return false;
    }

    /** The drop decision at entry `i`, from the sequence of the previous entry of its key. */
    method DecideDrop(input: seq<Entry>, i: nat, lastSequence: nat, smallest: nat) returns (drop: bool)
      requires Valid() && Sorted(input) && i < |input| && smallest < MAX_SEQUENCE
      requires lastSequence == if i > 0 && input[i - 1].key == input[i].key then input[i - 1].num else MAX_SEQUENCE
      requires lastKey.Some? ==> lastKey.value <= input[i].key
      modifies this
      ensures Valid() && (lastKey.Some? ==> lastKey.value <= input[i].key)
      ensures drop == Dropped(version, level, input, smallest, input[i])
    {
      SupersededByPrevious(input, i, smallest);
      var e := input[i];
      drop := false;
      if lastSequence <= smallest {
        drop := true;
      } else if e.op.Delete? && e.num <= smallest {
        drop := IsBaseLevelForKey(e.key);
      }
    }

    /**
     The loop of DoCompactionWork over the merged inputs. `stopBefore` and `full` are the
     answers of ShouldStopBefore and of the output size test at each entry. Running state is
     the current user key and the sequence of its previous entry; the tables written hold,
     in order, exactly the entries that the drop rule keeps.
     */
    method DoCompactionWork(input: seq<Entry>, smallest: nat, stopBefore: nat -> bool, full: nat -> bool)
      returns (tables: seq<seq<Entry>>, ghost at: seq<seq<nat>>)
      requires Valid() && lastKey == None && Sorted(input)
      requires smallest < MAX_SEQUENCE
      modifies this
      ensures Flatten(tables) == Kept(version, level, input, smallest, |input|)
      ensures ExactlyNeeded(version, level, input, smallest, Flatten(tables))
      ensures NonEmptyTables(tables) && Pieces(input, tables, at, stopBefore, full)
    {
      tables, at := [], [];
      var builder: seq<Entry> := [];
      ghost var cur: seq<nat> := [];
      var current: Option<UserKey> := None;
      var lastSequence := MAX_SEQUENCE;
      var i := 0;
      while i < |input|
        invariant 0 <= i <= |input| && Valid()
        invariant current == if i > 0 then Some(input[i - 1].key) else None
        invariant i > 0 ==> lastSequence == input[i - 1].num
        invariant lastKey.Some? ==> i > 0 && lastKey.value <= input[i - 1].key
        invariant NonEmptyTables(tables)
        invariant Flatten(tables) + builder == Kept(version, level, input, smallest, i)
        invariant Laid(input, tables, at, builder, cur, i - 1, stopBefore, full)
      {
        var e := input[i];
        tables, builder, at, cur := StopTable(input, i, tables, builder, stopBefore, full, at, cur);
        assert i > 0 ==> Less(input[i - 1].IK(), e.IK());
        if current != Some(e.key) {
          current, lastSequence := Some(e.key), MAX_SEQUENCE;
        }
        var drop := DecideDrop(input, i, lastSequence, smallest);
        lastSequence := e.num;
        if !drop {
          tables, builder, at, cur := PutEntry(input, i, tables, builder, stopBefore, full, at, cur);
        }
        i := i + 1;
      }
      at := LaidEnds(input, tables, at, builder, cur, i - 1, stopBefore, full);
      tables := FinishTable(tables, builder);
      KeptIsNeeded(version, level, input, smallest);
    }
  }
}
