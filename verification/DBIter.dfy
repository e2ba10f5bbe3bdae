/**
 The user-facing iterator. It walks an internal iterator over all versions of all keys, in
 either direction, and shows each live user key once, with its newest visible value.
 */
module DBIter {
  import opened DbFormat
  import opened Iterator

  /** Among the entries from index `c` on, the one at `i` is the newest of its key visible at `s`. */
  predicate FirstVisible(data: seq<Entry>, s: nat, c: nat, i: nat) {
    && c <= i < |data| && data[i].num <= s
    && forall j | c <= j < i :: data[j].key == data[i].key ==> data[j].num > s
  }

  predicate LiveFrom(data: seq<Entry>, s: nat, c: nat, i: nat) { FirstVisible(data, s, c, i) && data[i].op.Put? }

  /** The entry at `i` is what a reader at `s` sees of its user key, and it is not a deletion. */
  predicate Live(data: seq<Entry>, s: nat, i: nat) { LiveFrom(data, s, 0, i) }

  lemma {:induction false} KeysRise(data: seq<Entry>, i: nat, j: nat)
    requires Sorted(data) && i <= j < |data|
    ensures data[i].key <= data[j].key
  {
    assert i == j || Less(data[i].IK(), data[j].IK());
  }

  /** Live keys are exactly the keys with a value at the snapshot. */
  lemma {:induction false} LiveIsValue(data: seq<Entry>, s: nat, k: UserKey, v: Value)
    requires Sorted(data)
    ensures (exists i | 0 <= i < |data| :: Live(data, s, i) && data[i].key == k && data[i].op == Put(v)) <==>
              (RunGet(data, k, s).Some? && RunGet(data, k, s).value.op == Put(v))
  {
    RunGetIsAnswer(data, k, s);
    var n := SeekIndex(data, LookupKey(k, s));
    if RunGet(data, k, s).Some? {
      assert Visible(data[n], k, s);
      assert FirstVisible(data, s, 0, n);
    }
    forall i | 0 <= i < |data| && Live(data, s, i) && data[i].key == k ensures RunGet(data, k, s) == Some(data[i]) {
      assert Visible(data[i], k, s) && data[i] in Contents(data);
    }
  }

  /** Which live keys a positioning call is after: all, those from a bound on, or those past one. */
  datatype Range = All | From(k: UserKey) | Past(k: UserKey)

  predicate InRange(r: Range, k: UserKey) {
    match r
    case All => true
    case From(b) => b <= k
    case Past(b) => b < k
  }

  /** The least live key in range, if there is one, is where the iterator must stand. */
  predicate StandsAtLeast(data: seq<Entry>, s: nat, r: Range, at: Option<nat>) {
    match at
    case None => forall i | 0 <= i < |data| && Live(data, s, i) :: !InRange(r, data[i].key)
    case Some(p) =>
      p < |data| && Live(data, s, p) && InRange(r, data[p].key)
      && forall i | 0 <= i < |data| && Live(data, s, i) && InRange(r, data[i].key) :: data[p].key <= data[i].key
  }

  predicate BelowBound(k: UserKey, bound: Option<UserKey>) { bound.Some? ==> k < bound.value }

  /** The greatest live key below the bound, with its value, or None. */
  predicate StandsAtGreatest(data: seq<Entry>, s: nat, bound: Option<UserKey>, at: Option<nat>) {
    match at
    case None => forall i | 0 <= i < |data| && Live(data, s, i) :: !BelowBound(data[i].key, bound)
    case Some(p) =>
      p < |data| && Live(data, s, p) && BelowBound(data[p].key, bound)
      && forall i | 0 <= i < |data| && Live(data, s, i) && BelowBound(data[i].key, bound) :: data[i].key <= data[p].key
  }

  // ---- Forward scan ----------------------------------------------------------------------

  /** What FindNextUserEntry knows before looking at the entry at `p`. */
  predicate ForwardInv(data: seq<Entry>, s: nat, r: Range, p: nat, skip: Option<UserKey>) {
    && p <= |data|
    && (forall i | 0 <= i < |data| && Live(data, s, i) && InRange(r, data[i].key) ::
          p <= i && (skip.Some? ==> skip.value < data[i].key))
    && (forall i | p <= i < |data| && data[i].num <= s :: skip.Some? ==> skip.value <= data[i].key)
    && (forall i | p <= i < |data| && (skip.Some? ==> skip.value < data[i].key) ::
          InRange(r, data[i].key) || data[i].num > s)
    && (forall i, j | 0 <= j < p <= i < |data| && data[j].key == data[i].key
       && (skip.Some? ==> skip.value < data[i].key) ::
          data[j].num > s)
  }

  lemma {:induction false} ForwardFound(data: seq<Entry>, s: nat, r: Range, p: nat, skip: Option<UserKey>)
    requires Sorted(data) && ForwardInv(data, s, r, p, skip) && p < |data| && data[p].num <= s && data[p].op.Put?
    requires skip.Some? ==> skip.value < data[p].key
    ensures StandsAtLeast(data, s, r, Some(p))
  {
    assert Live(data, s, p);
    forall i | 0 <= i < |data| && Live(data, s, i) && InRange(r, data[i].key) ensures data[p].key <= data[i].key {
      KeysRise(data, p, i);
    }
  }

  lemma {:induction false} ForwardSkip(data: seq<Entry>, s: nat, r: Range, p: nat, skip: Option<UserKey>)
    requires Sorted(data) && ForwardInv(data, s, r, p, skip) && p < |data|
    requires data[p].num > s || (skip.Some? && data[p].key <= skip.value)
    ensures ForwardInv(data, s, r, p + 1, skip)
  {
  }

  lemma {:induction false} ForwardDelete(data: seq<Entry>, s: nat, r: Range, p: nat, skip: Option<UserKey>)
    requires Sorted(data) && ForwardInv(data, s, r, p, skip) && p < |data| && data[p].num <= s && data[p].op.Delete?
    ensures ForwardInv(data, s, r, p + 1, Some(data[p].key))
  {
    var k := data[p].key;
    forall i | 0 <= i < |data| && Live(data, s, i) && InRange(r, data[i].key) ensures p + 1 <= i && k < data[i].key {
      KeysRise(data, p, i);
    }
    forall i | p + 1 <= i < |data| ensures k <= data[i].key { KeysRise(data, p, i); }
    forall j | 0 <= j < p + 1 ensures data[j].key <= k { KeysRise(data, j, p); }
  }

  // ---- Backward scan ---------------------------------------------------------------------

  /**
   What FindPrevUserEntry knows when the entries below index `c` are still to be looked at:
   `saved` is the one live candidate below the bound among those from `c` on, if any.
   */
  predicate BackwardInv(data: seq<Entry>, s: nat, bound: Option<UserKey>, c: nat, saved: Option<nat>) {
    && c <= |data|
    && (forall i | 0 <= i < c :: BelowBound(data[i].key, bound))
    && match saved
       case None => forall i | c <= i < |data| && LiveFrom(data, s, c, i) :: !BelowBound(data[i].key, bound)
       case Some(x) =>
         && LiveFrom(data, s, c, x) && BelowBound(data[x].key, bound)
         && (forall j | c <= j < x :: data[j].num > s)
         && forall i | c <= i < |data| && LiveFrom(data, s, c, i) && BelowBound(data[i].key, bound) :: i == x
  }

  /** An entry the reader cannot see changes nothing. */
  lemma {:induction false} BackwardInvisible(data: seq<Entry>, s: nat, bound: Option<UserKey>, c: nat,
                                             saved: Option<nat>)
    requires BackwardInv(data, s, bound, c, saved) && c > 0 && data[c - 1].num > s
    ensures BackwardInv(data, s, bound, c - 1, saved)
  {
    forall i | c <= i < |data| ensures LiveFrom(data, s, c - 1, i) <==> LiveFrom(data, s, c, i) {}
  }

  /** A visible entry of the saved key, or of any key when none is saved, replaces the candidate. */
  lemma {:induction false} BackwardVisible(data: seq<Entry>, s: nat, bound: Option<UserKey>, c: nat, saved: Option<nat>)
    requires BackwardInv(data, s, bound, c, saved) && c > 0 && data[c - 1].num <= s
    requires saved.Some? ==> data[c - 1].key == data[saved.value].key
    ensures BackwardInv(data, s, bound, c - 1, if data[c - 1].op.Put? then Some(c - 1) else None)
  {
    forall i | c <= i < |data| && LiveFrom(data, s, c - 1, i) && BelowBound(data[i].key, bound) ensures false {
      assert LiveFrom(data, s, c, i);
    }
  }

  /** At a visible entry of a smaller key, or at the front, the candidate is the answer. */
  lemma {:induction false} BackwardDone(data: seq<Entry>, s: nat, bound: Option<UserKey>, c: nat, saved: Option<nat>)
    requires Sorted(data) && BackwardInv(data, s, bound, c, saved)
    requires c == 0 || (saved.Some? && data[c - 1].key < data[saved.value].key)
    ensures StandsAtGreatest(data, s, bound, saved)
    ensures saved.Some? ==> Parked(data, s, saved.value, c)
  {
    forall i | 0 <= i < c ensures saved.Some? && data[i].key < data[saved.value].key { KeysRise(data, i, c - 1); }
    forall i | 0 <= i < |data| && Live(data, s, i) && BelowBound(data[i].key, bound)
      ensures saved.Some? && data[i].key <= data[saved.value].key
    {
      if i >= c {
        assert LiveFrom(data, s, c, i);
      }
    }
  }

  /** The internal iterator stands just below `c`, before the versions of the key it shows in reverse. */
  predicate Parked(data: seq<Entry>, s: nat, x: nat, c: nat) {
    && x < |data| && Live(data, s, x) && c <= x
    && (forall i | 0 <= i < c :: data[i].key < data[x].key)
    && (forall i | c <= i < |data| && data[i].num <= s :: data[x].key <= data[i].key)
  }

  /** Turning forward from a parked position: everything past the shown key is still ahead. */
  lemma {:induction false} ParkedIsForward(data: seq<Entry>, s: nat, x: nat, c: nat)
    requires Sorted(data) && Parked(data, s, x, c)
    ensures ForwardInv(data, s, Past(data[x].key), c, Some(data[x].key))
  {
    var k := data[x].key;
    forall i, j | 0 <= j < c <= i < |data| && data[j].key == data[i].key ensures data[i].key < k {}
  }

  /** Stepping off a shown entry: later keys have no version behind it. */
  lemma {:induction false} ShownIsForward(data: seq<Entry>, s: nat, p: nat)
    requires Sorted(data) && p < |data| && Live(data, s, p)
    ensures ForwardInv(data, s, Past(data[p].key), p + 1, Some(data[p].key))
  {
    forall i | p <= i < |data| ensures data[p].key <= data[i].key { KeysRise(data, p, i); }
    forall i | 0 <= i <= p ensures data[i].key <= data[p].key { KeysRise(data, i, p); }
  }

  lemma {:induction false} SoughtIsForward(data: seq<Entry>, s: nat, t: UserKey)
    requires Sorted(data)
    ensures ForwardInv(data, s, From(t), SeekIndex(data, LookupKey(t, s)), None)
  {
    var p := SeekIndex(data, LookupKey(t, s));
    forall i | p <= i < |data| ensures !Less(data[i].IK(), LookupKey(t, s)) {
      assert i == p || Less(data[p].IK(), data[i].IK());
    }
  }

  lemma {:induction false} LastIsBackward(data: seq<Entry>, s: nat)
    ensures BackwardInv(data, s, None, |data|, None)
  {
  }

  lemma {:induction false} ShownIsBackward(data: seq<Entry>, s: nat, x: nat, c: nat)
    requires Sorted(data) && x < |data| && c <= x && Live(data, s, x)
    requires forall i | 0 <= i < c :: data[i].key < data[x].key
    requires forall i | c <= i < |data| && data[i].num <= s :: data[x].key <= data[i].key
    ensures BackwardInv(data, s, Some(data[x].key), c, None)
  {
  }

  // ---- The iterator object ---------------------------------------------------------------

  class DBIterator {
    const iter: Iter
    const sequence: nat
    var savedKey: Option<UserKey>
    var savedValue: Value
    var forward: bool
    var valid: bool
    ghost var shown: Option<nat>   // index of the entry shown

    /** The number of internal entries at or before the internal iterator. */
    ghost function Cut(): nat
      reads this, iter
    {
      if iter.pos.Some? then iter.pos.value + 1 else 0
    }

    ghost predicate Inv()
      reads this, iter
    {
      && iter.Ok() && valid == shown.Some?
      && (valid && forward ==> iter.pos == shown && Live(iter.data, sequence, shown.value))
      && (valid && !forward ==>
            && Parked(iter.data, sequence, shown.value, Cut())
            && savedKey == Some(iter.data[shown.value].key) && iter.data[shown.value].op == Put(savedValue))
    }

    constructor (iter: Iter, sequence: nat)
      requires iter.Ok()
      ensures Inv() && this.iter == iter && this.sequence == sequence && !valid
    {
      this.iter, this.sequence := iter, sequence;
      savedKey, savedValue, forward, valid, shown := None, "", true, false, None;
    }

    function Key(): UserKey
      reads this, iter
      requires Inv() && valid
    {
      if forward then iter.Current().key else savedKey.value
    }

    function Val(): Value
      reads this, iter
      requires Inv() && valid
    {
      if forward then iter.Current().op.value else savedValue
    }

    /** What Key and Val show is a live entry. */
    lemma {:induction false} ShowsLive()
      requires Inv() && valid
      ensures shown.value < |iter.data| && Live(iter.data, sequence, shown.value)
      ensures Key() == iter.data[shown.value].key && iter.data[shown.value].op == Put(Val())
    {
    }

    ghost function SkipKey(skip: bool): Option<UserKey>
      reads this
    {
      if skip then savedKey else None
    }

    /** One round of FindNextUserEntry: yield the entry, remember a deletion, or pass it over. */
    method ExamineForward(skipping: bool, ghost r: Range) returns (found: bool, skip: bool)
      requires iter.Ok() && iter.Valid() && (skipping ==> savedKey.Some?)
      requires ForwardInv(iter.data, sequence, r, iter.pos.value, SkipKey(skipping))
      modifies this`savedKey
      ensures found ==> StandsAtLeast(iter.data, sequence, r, iter.pos)
      ensures !found ==>
                (skip ==> savedKey.Some?) && ForwardInv(iter.data, sequence, r, iter.pos.value + 1, SkipKey(skip))
    {
      found, skip := false, skipping;
      var e := iter.Current();
      ghost var p, k := iter.pos.value, SkipKey(skipping);
      if e.num <= sequence && e.op.Delete? {
        ForwardDelete(iter.data, sequence, r, p, k);
        savedKey, skip := Some(e.key), true;
      } else if e.num <= sequence && !(skip && e.key <= savedKey.value) {
        ForwardFound(iter.data, sequence, r, p, k);
        found := true;
      } else {
        ForwardSkip(iter.data, sequence, r, p, k);
      }
    }

    method FindNextUserEntry(skipping: bool, ghost r: Range)
      requires iter.Ok() && iter.Valid() && forward && (skipping ==> savedKey.Some?)
      requires ForwardInv(iter.data, sequence, r, iter.pos.value, SkipKey(skipping))
      modifies this, iter
      ensures Inv() && forward && StandsAtLeast(iter.data, sequence, r, shown)
    {
      var skip := skipping;
      while iter.Valid()
        invariant iter.Ok() && forward && (skip ==> savedKey.Some?)
        invariant ForwardInv(iter.data, sequence, r, if iter.Valid() then iter.pos.value
                  else |iter.data|, SkipKey(skip))
        decreases if iter.Valid() then |iter.data| - iter.pos.value else 0
      {
        var found;
        found, skip := ExamineForward(skip, r);
        if found {
          valid, savedKey, shown := true, None, iter.pos;
          return;
        }
        iter.Next();
      }
      savedKey, valid, shown := None, false, None;
    }

    /** The saved key and value are those of the candidate. */
    ghost predicate Saves(deletion: bool, saved: Option<nat>)
      reads this
    {
      && deletion == saved.None?
      && (saved.Some? ==> saved.value < |iter.data| && savedKey == Some(iter.data[saved.value].key)
                          && iter.data[saved.value].op == Put(savedValue))
    }

    /** One round of FindPrevUserEntry: stop at a smaller visible key, or take the entry into account. */
    method ExamineBackward(deletion: bool, ghost saved: Option<nat>, ghost bound: Option<UserKey>)
      returns (stop: bool, deletion': bool, ghost saved': Option<nat>)
      requires iter.Ok() && iter.Valid() && Saves(deletion, saved)
      requires BackwardInv(iter.data, sequence, bound, iter.pos.value + 1, saved)
      modifies this`savedKey, this`savedValue
      ensures Saves(deletion', saved')
      ensures stop ==> saved' == saved && saved.Some? && iter.data[iter.pos.value].key < iter.data[saved.value].key
      ensures !stop ==> BackwardInv(iter.data, sequence, bound, iter.pos.value, saved')
    {
      stop, deletion', saved' := false, deletion, saved;
      var e := iter.Current();
      ghost var c := iter.pos.value + 1;
      if e.num <= sequence {
        if !deletion && e.key < savedKey.value {
          stop := true;
          return;
        }
        if saved.Some? {
          BackwardOrder(iter.data, sequence, bound, c, saved.value);
        }
        BackwardVisible(iter.data, sequence, bound, c, saved);
        deletion' := e.op.Delete?;
        if deletion' {
          savedKey, savedValue, saved' := None, "", None;
        } else {
          savedKey, savedValue, saved' := Some(e.key), e.op.value, Some(c - 1);
        }
      } else {
        BackwardInvisible(iter.data, sequence, bound, c, saved);
      }
    }

    /** One round of the loop: without a stop, the iterator moves back. */
    method RoundBackward(deletion: bool, ghost saved: Option<nat>, ghost bound: Option<UserKey>)
      returns (stop: bool, deletion': bool, ghost saved': Option<nat>)
      requires iter.Ok() && iter.Valid() && Saves(deletion, saved)
               && BackwardInv(iter.data, sequence, bound, Cut(), saved)
      modifies this`savedKey, this`savedValue, iter
      ensures iter.Ok() && Saves(deletion', saved') && BackwardInv(iter.data, sequence, bound, Cut(), saved')
      ensures stop ==> 0 < Cut() && saved'.Some? && iter.data[Cut() - 1].key < iter.data[saved'.value].key
      ensures !stop ==> Cut() < old(Cut())
    {
      stop, deletion', saved' := ExamineBackward(deletion, saved, bound);
      if !stop {
        iter.Prev();
      }
    }

    /** The loop of FindPrevUserEntry. */
    method ScanBackward(ghost bound: Option<UserKey>) returns (deletion: bool, ghost saved: Option<nat>)
      requires iter.Ok() && BackwardInv(iter.data, sequence, bound, Cut(), None)
      modifies this`savedKey, this`savedValue, iter
      ensures iter.Ok() && Saves(deletion, saved) && BackwardInv(iter.data, sequence, bound, Cut(), saved)
      ensures Cut() == 0 || (saved.Some? && iter.data[Cut() - 1].key < iter.data[saved.value].key)
    {
      deletion, saved := true, None;
      while iter.Valid()
        invariant iter.Ok() && BackwardInv(iter.data, sequence, bound, Cut(), saved)
        invariant Saves(deletion, saved)
        decreases Cut()
      {
        var stop;
        stop, deletion, saved := RoundBackward(deletion, saved, bound);
        if stop {
          break;
        }
      }
    }

    method FindPrevUserEntry(ghost bound: Option<UserKey>)
      requires iter.Ok() && !forward && BackwardInv(iter.data, sequence, bound, Cut(), None)
      modifies this, iter
      ensures Inv() && StandsAtGreatest(iter.data, sequence, bound, shown)
    {
      var deletion, saved := ScanBackward(bound);
      BackwardDone(iter.data, sequence, bound, Cut(), saved);
      valid, shown := !deletion, saved;
      if deletion {
        savedKey, savedValue, forward := None, "", true;
      }
    }

    method Next()
      requires Inv() && valid
      modifies this, iter
      ensures Inv() && StandsAtLeast(iter.data, sequence, Past(old(Key())), shown)
    {
      ghost var x := shown.value;
      if !forward {
        ParkedIsForward(iter.data, sequence, x, Cut());
        forward := true;
        if !iter.Valid() {
          iter.SeekToFirst();
        } else {
          iter.Next();
        }
      } else {
        ShownIsForward(iter.data, sequence, x);
        savedKey := Some(iter.Current().key);
        iter.Next();
      }
      if !iter.Valid() {
        valid, savedKey, shown := false, None, None;
        return;
      }
      FindNextUserEntry(true, Past(iter.data[x].key));
    }

    method Prev()
      requires Inv() && valid
      modifies this, iter
      ensures Inv() && StandsAtGreatest(iter.data, sequence, Some(old(Key())), shown)
    {
      ghost var x := shown.value;
      if forward {
        savedKey := Some(iter.Current().key);
        while true
          invariant iter.Ok() && iter.Valid() && iter.pos.value <= x
                    && iter.data[iter.pos.value].key == iter.data[x].key
          invariant savedKey == Some(iter.data[x].key)
          decreases iter.pos.value
        {
          ghost var p := iter.pos.value;
          iter.Prev();
          if !iter.Valid() {
            forall i | 0 <= i < |iter.data| ensures iter.data[x].key <= iter.data[i].key { KeysRise(iter.data, 0, i); }
            valid, savedKey, savedValue, shown := false, None, "", None;
            return;
          }
          if iter.Current().key < savedKey.value {
            break;
          }
          KeysRise(iter.data, iter.pos.value, p);
        }
        forall i | 0 <= i < Cut() ensures iter.data[i].key < iter.data[x].key {
          KeysRise(iter.data, i, iter.pos.value);
        }
        forall i | Cut() <= i < |iter.data| ensures iter.data[x].key <= iter.data[i].key {
          KeysRise(iter.data, Cut(), i);
        }
        forward := false;
      }
      ShownIsBackward(iter.data, sequence, x, Cut());
      FindPrevUserEntry(Some(iter.data[x].key));
    }

    method Seek(target: UserKey)
      requires Inv()
      modifies this, iter
      ensures Inv() && StandsAtLeast(iter.data, sequence, From(target), shown)
    {
      forward, savedValue, savedKey := true, "", None;
      SoughtIsForward(iter.data, sequence, target);
      iter.Seek(LookupKey(target, sequence));
      if iter.Valid() {
        FindNextUserEntry(false, From(target));
      } else {
        valid, shown := false, None;
      }
    }

    method SeekToFirst()
      requires Inv()
      modifies this, iter
      ensures Inv() && StandsAtLeast(iter.data, sequence, All, shown)
    {
      forward, savedValue := true, "";
      iter.SeekToFirst();
      if iter.Valid() {
        FindNextUserEntry(false, All);
      } else {
        valid, shown := false, None;
      }
    }

    method SeekToLast()
      requires Inv()
      modifies this, iter
      ensures Inv() && StandsAtGreatest(iter.data, sequence, None, shown)
    {
      forward, savedValue := false, "";
      iter.SeekToLast();
      LastIsBackward(iter.data, sequence);
      FindPrevUserEntry(None);
    }
  }

  lemma {:induction false} BackwardOrder(data: seq<Entry>, s: nat, bound: Option<UserKey>, c: nat, x: nat)
    requires Sorted(data) && BackwardInv(data, s, bound, c, Some(x)) && c > 0
    ensures data[c - 1].key <= data[x].key
  {
    KeysRise(data, c - 1, x);
  }
}
