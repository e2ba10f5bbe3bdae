/**
 Internal keys, entries and sorted runs of entries.

 A user key is a `real`: every countable total order embeds in the reals, so `<` here stands
 for an arbitrary user comparator that is a total order, and `==` for "compares equal".
 */
module DbFormat {

  datatype Option<+T> = None | Some(value: T)

  const NUM_LEVELS: nat := 7
  const WORD: nat := 0x1_0000_0000      // the bound of a 32-bit word

  type UserKey = real
  type Value = string

  datatype Op = Put(value: Value) | Delete

  /** The largest sequence number: eight of the 64 tag bits hold the value type. */
  const MAX_SEQUENCE: nat := 0xFF_FFFF_FFFF_FFFF

  /** An internal key: user key and the packed (sequence, type) tag. */
  datatype IKey = IKey(user: UserKey, tag: nat)

  datatype Entry = Entry(key: UserKey, num: nat, op: Op) {
    function Tag(): nat { num * 256 + if op.Put? then 1 else 0 }
    function IK(): IKey { IKey(key, Tag()) }
  }

  /** Increasing user key, then decreasing tag. */
  predicate Less(a: IKey, b: IKey) {
    a.user < b.user || (a.user == b.user && a.tag > b.tag)
  }

  /** The internal key that a lookup of `k` at snapshot `s` seeks to (type kValueTypeForSeek). */
  function LookupKey(k: UserKey, s: nat): IKey { IKey(k, s * 256 + 1) }

  /** Of two entries of one user key, the first is the more recent. */
  predicate Newer(a: Entry, b: Entry) { a.Tag() > b.Tag() }

  predicate Visible(e: Entry, k: UserKey, s: nat) { e.key == k && e.num <= s }

  predicate Sorted(run: seq<Entry>) {
    forall i, j | 0 <= i < j < |run| :: Less(run[i].IK(), run[j].IK())
  }

  /** `r` is the newest entry of `store` for `k` that a reader at `s` may see. */
  ghost predicate IsAnswer(store: iset<Entry>, k: UserKey, s: nat, r: Option<Entry>) {
    match r
    case None => forall e | e in store :: !Visible(e, k, s)
    case Some(x) => x in store && Visible(x, k, s) && forall e | e in store && Visible(e, k, s) :: e == x || Newer(x, e)
  }

  lemma {:induction false} AnswerUnique(store: iset<Entry>, k: UserKey, s: nat, r: Option<Entry>, q: Option<Entry>)
    requires IsAnswer(store, k, s, r) && IsAnswer(store, k, s, q)
    ensures r == q
  {
    if r.Some? && q.Some? {
      assert r.value in store && q.value in store;
    }
  }

  ghost function Contents(run: seq<Entry>): iset<Entry> { iset e | e in run }

  /** Index of the first entry at or after `t`: what Seek on a table or memtable iterator finds. */
  function SeekIndex(run: seq<Entry>, t: IKey): (i: nat)
    ensures i <= |run|
    ensures forall j | 0 <= j < i :: Less(run[j].IK(), t)
    ensures i < |run| ==> !Less(run[i].IK(), t)
  {
    if run == [] || !Less(run[0].IK(), t) then 0 else 1 + SeekIndex(run[1..], t)
  }

  /** Seek to the lookup key and accept the entry found there if it has the user key. */
  function RunGet(run: seq<Entry>, k: UserKey, s: nat): Option<Entry> {
    var i := SeekIndex(run, LookupKey(k, s));
    if i < |run| && run[i].key == k then Some(run[i]) else None
  }

  /** One seek in one sorted run finds the newest visible entry of the run, or that there is none. */
  lemma {:induction false} RunGetIsAnswer(run: seq<Entry>, k: UserKey, s: nat)
    requires Sorted(run)
    ensures IsAnswer(Contents(run), k, s, RunGet(run, k, s))
  {
    var t := LookupKey(k, s);
    var i := SeekIndex(run, t);
    forall j | 0 <= j < |run| && Visible(run[j], k, s)
      ensures i < |run| && run[i].key == k && (run[j] == run[i] || Newer(run[i], run[j]))
    {
      assert !Less(run[j].IK(), t);
      assert i <= j;
      if i < j {
        assert Less(run[i].IK(), run[j].IK());
      }
    }
    if i < |run| && run[i].key == k {
      assert Visible(run[i], k, s);
    }
  }

  /** Insert into a sorted run at the position of the entry's internal key (MemTable::Add). */
  function InsertSorted(run: seq<Entry>, e: Entry): seq<Entry> {
    var i := SeekIndex(run, e.IK());
    run[..i] + [e] + run[i..]
  }

  lemma {:induction false} InsertSortedMembers(run: seq<Entry>, e: Entry)
    ensures forall x :: x in InsertSorted(run, e) <==> x == e || x in run
  {
    var i := SeekIndex(run, e.IK());
    assert run == run[..i] + run[i..];
  }

  lemma {:induction false} InsertSortedKeepsOrder(run: seq<Entry>, e: Entry)
    requires Sorted(run)
    requires forall x | x in run :: x.IK() != e.IK()
    ensures Sorted(InsertSorted(run, e))
  {
    var i := SeekIndex(run, e.IK());
    forall j | i <= j < |run| ensures Less(e.IK(), run[j].IK()) {
      assert run[i].IK() != e.IK();
    }
    SpliceKeepsOrder(run, i, e);
  }

  lemma {:induction false} SpliceKeepsOrder(run: seq<Entry>, i: nat, e: Entry)
    requires Sorted(run) && i <= |run|
    requires forall j | 0 <= j < i :: Less(run[j].IK(), e.IK())
    requires forall j | i <= j < |run| :: Less(e.IK(), run[j].IK())
    ensures Sorted(run[..i] + [e] + run[i..])
  {
    var r := run[..i] + [e] + run[i..];
    forall a, b | 0 <= a < b < |r| ensures Less(r[a].IK(), r[b].IK()) {
      assert a < i ==> r[a] == run[a];
      assert b > i ==> r[b] == run[b - 1];
      assert a > i ==> r[a] == run[a - 1];
      assert b < i ==> r[b] == run[b];
    }
  }

  function Flatten(tables: seq<seq<Entry>>): seq<Entry> {
    if tables == [] then [] else Flatten(tables[..|tables| - 1]) + tables[|tables| - 1]
  }

  lemma {:induction false} FlattenAppend(tables: seq<seq<Entry>>, t: seq<Entry>)
    ensures Flatten(tables + [t]) == Flatten(tables) + t
  {
    assert (tables + [t])[..|tables|] == tables;
  }
}
