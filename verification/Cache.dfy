/**
 One shard of the LRU cache: handles counted by reference, kept on one of two lists while
 they are in the cache, found through the hash table and evicted oldest first.
 */
module Cache {
  import opened DbFormat
  import opened Guard
  import opened HandleTable

  datatype Handle = Handle(key: Key, value: string, charge: nat, inCache: bool, refs: nat)

  /** `lru` is oldest first. `finished` lists the handles whose deleter has run, in order. */
  datatype Shard = Shard(handles: map<nat, Handle>, lru: seq<nat>, inUse: seq<nat>, usage: int,
                         finished: seq<nat>, next: nat)

  /** What the clients hold: how many unreleased references each handle has outside the cache. */
  type Clients = map<nat, nat>

  function Without(s: seq<nat>, x: nat): (r: seq<nat>)
    ensures |r| <= |s| && (s != [] && s[0] == x ==> |r| < |s|)
  {
    if |s| == 0 then [] else if s[0] == x then Without(s[1..], x) else [s[0]] + Without(s[1..], x)
  }

  predicate Distinct(s: seq<nat>) { forall i, j | 0 <= i < j < |s| :: s[i] != s[j] }

  function Charges(hs: map<nat, Handle>, s: seq<nat>): nat {
    if |s| == 0 then 0 else (if s[0] in hs then hs[s[0]].charge else 0) + Charges(hs, s[1..])
  }

  // ---- The operations on handles ----------------------------------------------------------

  function LruRemove(s: Shard, id: nat): Shard {
    s.(lru := Without(s.lru, id), inUse := Without(s.inUse, id))
  }

  function Ref(s: Shard, id: nat): Shard
    requires id in s.handles
  {
    var e := s.handles[id];
    var m := if e.refs == 1 && e.inCache then (var r := LruRemove(s, id); r.(inUse := r.inUse + [id])) else s;
    m.(handles := m.handles[id := e.(refs := e.refs + 1)])
  }

  function Unref(s: Shard, id: nat): Shard
    requires id in s.handles && s.handles[id].refs > 0
  {
    var e := s.handles[id].(refs := s.handles[id].refs - 1);
    if e.refs == 0 then s.(handles := s.handles - {id}, finished := s.finished + [id])
    else
      var m := if e.inCache && e.refs == 1 then (var r := LruRemove(s, id); r.(lru := r.lru + [id])) else s;
      m.(handles := m.handles[id := e])
  }

  function Detach(s: Shard, id: nat): Shard
    requires id in s.handles
  {
    var e := s.handles[id];
    var r := LruRemove(s, id);
    r.(handles := r.handles[id := e.(inCache := false)], usage := r.usage - e.charge)
  }

  /** The handle has left the table: take it off its list and drop the cache's reference. */
  function FinishErase(s: Shard, id: nat): Shard
    requires id in s.handles && s.handles[id].refs > 0
  {
    Unref(Detach(s, id), id)
  }

  /** Evict oldest first until the shard fits or nothing is left that no client holds. */
  function Evict(s: Shard, capacity: nat): Shard
    decreases |s.lru|
  {
    if s.usage > capacity && s.lru != [] && s.lru[0] in s.handles && s.handles[s.lru[0]].refs > 0
    then Evict(FinishErase(s, s.lru[0]), capacity)
    else s
  }

  /** A new handle, held by the caller and by the cache. */
  function Enter(s: Shard, key: Key, value: string, charge: nat): Shard {
    s.(handles := s.handles[s.next := Handle(key, value, charge, true, 2)],
       inUse := s.inUse + [s.next], usage := s.usage + charge, next := s.next + 1)
  }

  /** With capacity 0 nothing is cached: the caller alone holds the handle. */
  function EnterUncached(s: Shard, key: Key, value: string, charge: nat): Shard {
    s.(handles := s.handles[s.next := Handle(key, value, charge, false, 1)], next := s.next + 1)
  }

  // ---- The invariant ----------------------------------------------------------------------

  predicate RefsOk(h: Handle, clients: nat) { h.refs == clients + (if h.inCache then 1 else 0) && h.refs >= 1 }

  /** In the cache and held by no client. */
  predicate Idle(s: Shard, id: nat) { id in s.handles && s.handles[id].inCache && s.handles[id].refs == 1 }

  /** In the cache and held by some client. */
  predicate Busy(s: Shard, id: nat) { id in s.handles && s.handles[id].inCache && s.handles[id].refs >= 2 }

  /** Created once and freed since. */
  predicate Gone(s: Shard, id: nat) { id < s.next && id !in s.handles }

  ghost predicate Listed(s: Shard) {
    && Distinct(s.lru) && Distinct(s.inUse)
    && (forall id: nat :: id in s.lru <==> Idle(s, id))
    && (forall id: nat :: id in s.inUse <==> Busy(s, id))
  }

  ghost predicate Counted(s: Shard, cl: Clients) {
    && cl.Keys == s.handles.Keys
    && (forall id | id in s.handles :: RefsOk(s.handles[id], cl[id]))
  }

  /** The deleter of a handle has run exactly once if the handle is gone, and not at all otherwise. */
  ghost predicate Finished(s: Shard) {
    && Distinct(s.finished)
    && (forall id: nat :: id in s.finished <==> Gone(s, id))
    && (forall id | id in s.handles :: id < s.next)
  }

  ghost predicate Ok(s: Shard, cl: Clients) {
    && Listed(s) && Counted(s, cl) && Finished(s)
    && s.usage == Charges(s.handles, s.lru) + Charges(s.handles, s.inUse)
  }

  /** The table maps exactly the keys of the cached handles, leaving aside the handle `x`. */
  ghost predicate Tabled(s: Shard, contents: map<Key, nat>, x: Option<nat>) {
    && (forall k | k in contents :: contents[k] in s.handles && s.handles[contents[k]].inCache
                                    && s.handles[contents[k]].key == k && x != Some(contents[k]))
    && (forall id | id in s.handles && s.handles[id].inCache && x != Some(id) ::
          s.handles[id].key in contents && contents[s.handles[id].key] == id)
  }

  // ---- Lists and sums ---------------------------------------------------------------------

  lemma {:induction false} WithoutIs(s: seq<nat>, x: nat)
    requires Distinct(s)
    ensures Distinct(Without(s, x)) && forall y :: y in Without(s, x) <==> y in s && y != x
    ensures x !in s ==> Without(s, x) == s
  {
    if s != [] {
      assert s == [s[0]] + s[1..] && s[0] !in s[1..];
      WithoutIs(s[1..], x);
      var t := Without(s[1..], x);
      assert forall j | 0 <= j < |t| :: t[j] in t;
    }
  }

  lemma {:induction false} ChargesWithout(hs: map<nat, Handle>, s: seq<nat>, x: nat)
    requires Distinct(s)
    ensures Charges(hs, s) == Charges(hs, Without(s, x)) + if x in s && x in hs then hs[x].charge else 0
  {
    if s != [] {
      assert s == [s[0]] + s[1..];
      ChargesWithout(hs, s[1..], x);
      if s[0] == x {
        WithoutIs(s[1..], x);
      }
    }
  }

  lemma {:induction false} ChargesAppend(hs: map<nat, Handle>, s: seq<nat>, x: nat)
    ensures Charges(hs, s + [x]) == Charges(hs, s) + if x in hs then hs[x].charge else 0
  {
    if s == [] {
      assert [x][1..] == [];
    } else {
      assert (s + [x])[1..] == s[1..] + [x];
      ChargesAppend(hs, s[1..], x);
    }
  }

  lemma {:induction false} ChargesSame(hs: map<nat, Handle>, gs: map<nat, Handle>, s: seq<nat>)
    requires forall id | id in s :: id in hs && id in gs && hs[id].charge == gs[id].charge
    ensures Charges(hs, s) == Charges(gs, s)
  {
    if s != [] {
      assert s[0] in s && forall id | id in s[1..] :: id in s;
      ChargesSame(hs, gs, s[1..]);
    }
  }

  // ---- Every operation keeps the invariant ------------------------------------------------

  /** A handle leaves its list. */
  lemma {:induction false} RemovedIs(s: Shard, id: nat)
    requires Listed(s)
    ensures var r := LruRemove(s, id);
            && Distinct(r.lru) && Distinct(r.inUse)
            && (forall x :: x in r.lru <==> x in s.lru && x != id)
               && (forall x :: x in r.inUse <==> x in s.inUse && x != id)
            && Charges(s.handles, s.lru) + Charges(s.handles, s.inUse) ==
               Charges(s.handles, r.lru) + Charges(s.handles, r.inUse) +
               (if id in s.handles && s.handles[id].inCache && s.handles[id].refs >= 1 then s.handles[id].charge else 0)
            && (id !in s.lru ==> r.lru == s.lru) && (id !in s.inUse ==> r.inUse == s.inUse)
  {
    WithoutIs(s.lru, id);
    WithoutIs(s.inUse, id);
    ChargesWithout(s.handles, s.lru, id);
    ChargesWithout(s.handles, s.inUse, id);
  }

  /** Changing one handle in place, its charge kept, changes no sum. */
  lemma {:induction false} ChargesKept(hs: map<nat, Handle>, id: nat, h: Handle, s: seq<nat>)
    requires id in hs && hs[id].charge == h.charge && forall x | x in s :: x in hs
    ensures Charges(hs[id := h], s) == Charges(hs, s)
  {
    ChargesSame(hs, hs[id := h], s);
  }

  ghost function Total(s: Shard): nat { Charges(s.handles, s.lru) + Charges(s.handles, s.inUse) }

  lemma {:induction false} AppendDistinct(s: seq<nat>, x: nat)
    requires Distinct(s) && x !in s
    ensures Distinct(s + [x])
  {
  }

  lemma {:induction false} RefListed(s: Shard, id: nat)
    requires Listed(s) && id in s.handles && s.handles[id].refs >= 1
    ensures Listed(Ref(s, id))
  {
    RemovedIs(s, id);
    AppendDistinct(Without(s.inUse, id), id);
  }

  /** A handle that is taken leaves the list of the idle ones. */
  lemma {:induction false} RefTakesOut(s: Shard, id: nat)
    requires Listed(s) && id in s.handles
    ensures Ref(s, id).lru == Without(s.lru, id)
  {
    WithoutIs(s.lru, id);
  }

  lemma {:induction false} RefTotal(s: Shard, id: nat)
    requires Listed(s) && id in s.handles && s.handles[id].refs >= 1
    ensures Total(Ref(s, id)) == Total(s)
  {
    var e, r := s.handles[id], Ref(s, id);
    RemovedIs(s, id);
    ChargesAppend(s.handles, Without(s.inUse, id), id);
    ChargesKept(s.handles, id, e.(refs := e.refs + 1), r.lru);
    ChargesKept(s.handles, id, e.(refs := e.refs + 1), r.inUse);
  }

  lemma {:induction false} RefCounted(s: Shard, cl: Clients, id: nat)
    requires Counted(s, cl) && id in s.handles
    ensures Counted(Ref(s, id), cl[id := cl[id] + 1])
  {
    assert RefsOk(s.handles[id], cl[id]);
  }

  lemma {:induction false} RefKeeps(s: Shard, cl: Clients, id: nat)
    requires Ok(s, cl) && id in s.handles
    ensures Ok(Ref(s, id), cl[id := cl[id] + 1])
  {
    assert RefsOk(s.handles[id], cl[id]);
    RefCounted(s, cl, id);
    RefListed(s, id);
    RefTotal(s, id);
  }

  /** A handle that no list has is freed. */
  lemma {:induction false} FreedListed(s: Shard, id: nat)
    requires Listed(s) && id in s.handles && !s.handles[id].inCache
    ensures Listed(s.(handles := s.handles - {id}, finished := s.finished + [id]))
  {
  }

  /** The cache alone keeps the handle: it goes to the end of the list. */
  lemma {:induction false} IdleListed(s: Shard, id: nat)
    requires Listed(s) && id in s.handles && s.handles[id].inCache && s.handles[id].refs == 2
    ensures Listed(Unref(s, id))
  {
    RemovedIs(s, id);
    AppendDistinct(Without(s.lru, id), id);
  }

  lemma {:induction false} UnrefListed(s: Shard, id: nat)
    requires Listed(s) && id in s.handles && s.handles[id].refs >= if s.handles[id].inCache then 2 else 1
    ensures Listed(Unref(s, id))
  {
    if s.handles[id].refs == 1 {
      FreedListed(s, id);
    } else if s.handles[id].inCache && s.handles[id].refs == 2 {
      IdleListed(s, id);
    }
  }

  lemma {:induction false} UnrefTotal(s: Shard, id: nat)
    requires Listed(s) && id in s.handles && s.handles[id].refs >= if s.handles[id].inCache then 2 else 1
    ensures Total(Unref(s, id)) == Total(s)
  {
    var e, r := s.handles[id].(refs := s.handles[id].refs - 1), Unref(s, id);
    if e.refs == 0 {
      ChargesSame(s.handles, r.handles, s.lru);
      ChargesSame(s.handles, r.handles, s.inUse);
    } else {
      RemovedIs(s, id);
      ChargesAppend(s.handles, Without(s.lru, id), id);
      ChargesKept(s.handles, id, e, r.lru);
      ChargesKept(s.handles, id, e, r.inUse);
    }
  }

  function Acquired(cl: Clients, id: nat): Clients { if id in cl then cl[id := cl[id] + 1] else cl }

  /** The clients' view after one of them lets go of `id`; the handle may be gone. */
  function Released(s: Shard, cl: Clients, id: nat): Clients
    requires id in s.handles && id in cl && cl[id] >= 1
  {
    if s.handles[id].refs == 1 then cl - {id} else cl[id := cl[id] - 1]
  }

  lemma {:induction false} FinishedAppend(s: Shard, id: nat)
    requires Finished(s) && id in s.handles
    ensures Finished(s.(handles := s.handles - {id}, finished := s.finished + [id]))
  {
    AppendDistinct(s.finished, id);
  }

  lemma {:induction false} UnrefCounted(s: Shard, cl: Clients, id: nat)
    requires Counted(s, cl) && id in s.handles && cl[id] >= 1
    ensures Counted(Unref(s, id), Released(s, cl, id))
  {
    assert RefsOk(s.handles[id], cl[id]);
  }

  lemma {:induction false} UnrefKeeps(s: Shard, cl: Clients, id: nat)
    requires Ok(s, cl) && id in s.handles && cl[id] >= 1
    ensures Ok(Unref(s, id), Released(s, cl, id))
  {
    assert RefsOk(s.handles[id], cl[id]);
    UnrefCounted(s, cl, id);
    UnrefListed(s, id);
    UnrefTotal(s, id);
    FinishedAppend(s, id);
  }

  lemma {:induction false} DetachTotal(s: Shard, id: nat)
    requires Listed(s) && id in s.handles && s.handles[id].inCache && s.handles[id].refs >= 1
    ensures Total(Detach(s, id)) == Total(s) - s.handles[id].charge && Listed(Detach(s, id))
  {
    var e, r := s.handles[id], Detach(s, id);
    RemovedIs(s, id);
    ChargesKept(s.handles, id, e.(inCache := false), r.lru);
    ChargesKept(s.handles, id, e.(inCache := false), r.inUse);
  }

  /** Once detached, the cache's reference counts as a client's. */
  lemma {:induction false} DetachKeeps(s: Shard, cl: Clients, id: nat)
    requires Ok(s, cl) && id in s.handles && s.handles[id].inCache
    ensures Ok(Detach(s, id), cl[id := cl[id] + 1])
  {
    assert RefsOk(s.handles[id], cl[id]);
    DetachTotal(s, id);
  }

  /** The clients' view after the cache lets go of `id`. */
  function Dropped(s: Shard, cl: Clients, id: nat): Clients
    requires id in s.handles
  {
    if s.handles[id].refs == 1 then cl - {id} else cl
  }

  lemma {:induction false} DropIsRelease(s: Shard, cl: Clients, id: nat)
    requires id in s.handles && id in cl
    ensures Released(Detach(s, id), cl[id := cl[id] + 1], id) == Dropped(s, cl, id)
  {
  }

  lemma {:induction false} FinishEraseKeeps(s: Shard, cl: Clients, id: nat)
    requires Ok(s, cl) && id in s.handles && s.handles[id].inCache
    ensures s.handles[id].refs > 0 && Ok(FinishErase(s, id), Dropped(s, cl, id))
  {
    assert RefsOk(s.handles[id], cl[id]);
    DetachKeeps(s, cl, id);
    UnrefKeeps(Detach(s, id), cl[id := cl[id] + 1], id);
    DropIsRelease(s, cl, id);
  }

  lemma {:induction false} EnterTotal(s: Shard, key: Key, value: string, charge: nat)
    requires Listed(s) && s.next !in s.handles
    ensures Total(Enter(s, key, value, charge)) == Total(s) + charge && Listed(Enter(s, key, value, charge))
  {
    var r := Enter(s, key, value, charge);
    AppendDistinct(s.inUse, s.next);
    ChargesAppend(r.handles, s.inUse, s.next);
    ChargesSame(s.handles, r.handles, s.inUse);
    ChargesSame(s.handles, r.handles, s.lru);
  }

  lemma {:induction false} EnterKeeps(s: Shard, cl: Clients, key: Key, value: string, charge: nat)
    requires Ok(s, cl)
    ensures Ok(Enter(s, key, value, charge), cl[s.next := 1])
  {
    EnterTotal(s, key, value, charge);
  }

  lemma {:induction false} EnterUncachedKeeps(s: Shard, cl: Clients, key: Key, value: string, charge: nat)
    requires Ok(s, cl)
    ensures Ok(EnterUncached(s, key, value, charge), cl[s.next := 1])
  {
    var r := EnterUncached(s, key, value, charge);
    assert s.next !in s.handles;
    ChargesSame(s.handles, r.handles, s.inUse);
    ChargesSame(s.handles, r.handles, s.lru);
  }

  // ---- The table follows ------------------------------------------------------------------

  /** Referencing and releasing change no key and no membership in the cache. */
  lemma {:induction false} TabledUnref(s: Shard, contents: map<Key, nat>, id: nat)
    requires Tabled(s, contents, None) && id in s.handles
    requires s.handles[id].refs >= if s.handles[id].inCache then 2 else 1
    ensures Tabled(Unref(s, id), contents, None)
  {
  }

  lemma {:induction false} TabledFinishErase(s: Shard, contents: map<Key, nat>, id: nat)
    requires Tabled(s, contents, Some(id)) && id in s.handles && s.handles[id].refs > 0
    ensures Tabled(FinishErase(s, id), contents, None)
  {
    var d := Detach(s, id);
    assert Tabled(d, contents, None);
    TabledUnref(d, contents, id);
  }

  lemma {:induction false} TabledRemove(s: Shard, contents: map<Key, nat>, key: Key)
    requires Tabled(s, contents, None) && key in contents
    ensures Tabled(s, contents - {key}, Some(contents[key]))
  {
  }

  lemma {:induction false} TabledEnter(s: Shard, contents: map<Key, nat>, key: Key, value: string, charge: nat)
    requires Tabled(s, contents, None) && s.next !in s.handles
    ensures Tabled(Enter(s, key, value, charge), contents[key := s.next], if key in contents then
              Some(contents[key]) else None)
  {
  }

  // ---- Eviction -----------------------------------------------------------------------------

  /** What erasing an unreferenced handle on the list comes to. */
  lemma {:induction false} EvictedIs(s: Shard, id: nat)
    requires Distinct(s.lru) && s.lru != [] && id == s.lru[0] && Distinct(s.inUse) && id !in s.inUse
    requires id in s.handles && s.handles[id].refs == 1
    ensures FinishErase(s, id) == s.(handles := s.handles - {id}, lru := s.lru[1..],
                                     usage := s.usage - s.handles[id].charge, finished := s.finished + [id])
  {
    WithoutIs(s.inUse, id);
    WithoutIs(s.lru[1..], id);
    assert Without(s.lru, id) == s.lru[1..] by {
      assert id !in s.lru[1..];
    }
    assert s.handles[id := s.handles[id].(inCache := false)] - {id} == s.handles - {id};
  }

  lemma {:induction false} OldestIs(s: Shard, cl: Clients)
    requires Ok(s, cl) && s.lru != []
    ensures var id := s.lru[0];
            id in s.handles && s.handles[id].inCache && s.handles[id].refs == 1 && id in cl && cl[id] == 0
              && id !in s.inUse
  {
    assert s.lru[0] in s.lru;
    assert RefsOk(s.handles[s.lru[0]], cl[s.lru[0]]);
  }

  /** Evicting the oldest unreferenced handle: it alone leaves, and its deleter runs. */
  lemma {:induction false} EvictOldest(s: Shard, cl: Clients)
    requires Ok(s, cl) && s.lru != []
    ensures var id := s.lru[0];
            && id in s.handles && s.handles[id].refs == 1
            && FinishErase(s, id) == s.(handles := s.handles - {id}, lru := s.lru[1..],
                                        usage := s.usage - s.handles[id].charge, finished := s.finished + [id])
            && Ok(FinishErase(s, id), cl - {id})
  {
    var id := s.lru[0];
    OldestIs(s, cl);
    FinishEraseKeeps(s, cl, id);
    EvictedIs(s, id);
  }

  /** `r` is `s` after evicting the first `m` of its list, the fewest that meet the capacity if any number does. */
  ghost predicate EvictedPrefix(s: Shard, r: Shard, capacity: nat, m: nat) {
    && m <= |s.lru| && r.lru == s.lru[m..] && r.inUse == s.inUse && r.next == s.next
    && r.finished == s.finished + s.lru[..m]
    && (forall id | id in r.handles :: id in s.handles && r.handles[id] == s.handles[id])
    && r.usage == s.usage - Charges(s.handles, s.lru[..m])
    && (r.usage <= capacity || m == |s.lru|)
    && (m > 0 ==> s.usage - Charges(s.handles, s.lru[..m - 1]) > capacity)
  }

  lemma {:induction false} EvictedPrefixStep(s: Shard, t: Shard, r: Shard, capacity: nat, n: nat)
    requires Listed(s) && s.lru != [] && s.usage > capacity && s.lru[0] in s.handles
    requires t == s.(handles := s.handles - {s.lru[0]}, lru := s.lru[1..],
                     usage := s.usage - s.handles[s.lru[0]].charge, finished := s.finished + [s.lru[0]])
    requires EvictedPrefix(t, r, capacity, n)
    ensures EvictedPrefix(s, r, capacity, n + 1)
  {
    assert s.lru[..n + 1] == [s.lru[0]] + t.lru[..n];
    assert s.lru[..n + 1][1..] == t.lru[..n];
    ChargesAfter(s, n);
    if n > 0 {
      assert s.lru[..n][1..] == t.lru[..n - 1];
      ChargesAfter(s, n - 1);
    }
  }

  lemma {:induction false} ChargesAfter(s: Shard, n: nat)
    requires Listed(s) && s.lru != [] && n < |s.lru|
    ensures Charges(s.handles - {s.lru[0]}, s.lru[1..][..n]) == Charges(s.handles, s.lru[1..][..n])
  {
    var rest := s.lru[1..][..n];
    forall x | x in rest ensures x in s.handles && x != s.lru[0] {
      var i :| 0 <= i < |rest| && rest[i] == x;
      assert s.lru[i + 1] == x && x in s.lru;
    }
    ChargesSame(s.handles - {s.lru[0]}, s.handles, rest);
  }

  /** Eviction drops a prefix of the list, oldest first, as short as the capacity allows, and nothing a client holds. */
  lemma {:induction false} EvictIsLeastPrefix(s: Shard, cl: Clients, capacity: nat) returns (m: nat)
    requires Ok(s, cl)
    ensures EvictedPrefix(s, Evict(s, capacity), capacity, m)
    decreases |s.lru|
  {
    if s.usage > capacity && s.lru != [] {
      EvictOldest(s, cl);
      var t := FinishErase(s, s.lru[0]);
      var n := EvictIsLeastPrefix(t, cl - {s.lru[0]}, capacity);
      EvictedPrefixStep(s, t, Evict(t, capacity), capacity, n);
      m := n + 1;
    } else {
      m := 0;
    }
  }

  // ---- What is stored stays as it was given -----------------------------------------------

  predicate Same(g: Handle, h: Handle) { g.key == h.key && g.value == h.value && g.charge == h.charge }

  /** No handle is new, and those that stay have the key, value and charge they had. */
  ghost predicate Shrinks(s: Shard, t: Shard) {
    forall id | id in t.handles :: id in s.handles && Same(s.handles[id], t.handles[id])
  }

  lemma {:induction false} RefShrinks(s: Shard, id: nat)
    requires id in s.handles
    ensures Shrinks(s, Ref(s, id)) && Shrinks(Ref(s, id), s)
  {
  }

  lemma {:induction false} UnrefShrinks(s: Shard, id: nat)
    requires id in s.handles && s.handles[id].refs > 0
    ensures Shrinks(s, Unref(s, id))
  {
  }

  lemma {:induction false} FinishEraseShrinks(s: Shard, id: nat)
    requires id in s.handles && s.handles[id].refs > 0
    ensures Shrinks(s, FinishErase(s, id))
  {
    UnrefShrinks(Detach(s, id), id);
  }

  /** Taking an element out of a list leaves the others in their order. */
  lemma {:induction false} WithoutSplices(s: seq<nat>, i: nat)
    requires Distinct(s) && i < |s|
    ensures Without(s, s[i]) == s[..i] + s[i + 1..]
  {
    if i == 0 {
      WithoutIs(s[1..], s[0]);
      assert s[0] !in s[1..];
    } else {
      WithoutSplices(s[1..], i - 1);
      assert s[1..][..i - 1] == s[1..i] && s[..i] == [s[0]] + s[1..i];
    }
  }

  /** Clients keep what they hold. */
  predicate Holders(cl: Clients, cl': Clients) {
    forall id | id in cl && cl[id] >= 1 :: id in cl' && cl'[id] == cl[id]
  }

  /** The cached values by key. */
  function Values(s: Shard, contents: map<Key, nat>): map<Key, string> {
    map k | k in contents && contents[k] in s.handles :: s.handles[contents[k]].value
  }

  /** Every key of `a` has in `b` the value it has in `a`. */
  predicate Within(a: map<Key, string>, b: map<Key, string>) { forall k | k in a :: k in b && a[k] == b[k] }

  // ---- The shard --------------------------------------------------------------------------

  /** Lists, counts, charges, deleters and the table all agree. */
  ghost predicate Consistent(s: Shard, cl: Clients, contents: map<Key, nat>) {
    forall n | Unfolded(n) :: Ok(s, cl) && Tabled(s, contents, None)
  }

  lemma {:induction false} OldestConsistent(s: Shard, cl: Clients, contents: map<Key, nat>)
    requires Consistent(s, cl, contents) && s.lru != []
    ensures var id := s.lru[0];
            && id in s.handles && s.handles[id].inCache && s.handles[id].refs == 1
            && s.handles[id].key in contents && contents[s.handles[id].key] == id && !Taken(cl, id)
            && (forall k | k in contents && contents[k] == id :: k == s.handles[id].key)
            && FinishErase(s, id) == s.(handles := s.handles - {id}, lru := s.lru[1..],
                                        usage := s.usage - s.handles[id].charge, finished := s.finished + [id])
  {
    assert Unfolded(0);
    OldestIs(s, cl);
    EvictOldest(s, cl);
  }

  lemma {:induction false} EmptyOk(s: Shard, cl: Clients)
    requires |s.handles| == 0 && |cl| == 0 && |s.lru| == |s.inUse| == |s.finished| == 0 && s.next == 0 && s.usage == 0
    ensures Ok(s, cl) && Tabled(s, map[], None)
  {
    assert cl == map[] && s.handles == map[];
  }

  method EmptyShard() returns (s: Shard, ghost cl: Clients)
    ensures Consistent(s, cl, map[]) && s.next == 0
  {
    s, cl := Shard(map[], [], [], 0, [], 0), map[];
    EmptyOk(s, cl);
  }

  lemma {:induction false} LookupConsistent(s: Shard, cl: Clients, contents: map<Key, nat>, key: Key)
    requires Consistent(s, cl, contents) && key in contents
    ensures var id := contents[key];
            && id in s.handles && id in cl && s.handles[id].key == key
            && Consistent(Ref(s, id), Acquired(cl, id), contents) && Ref(s, id).lru == Without(s.lru, id)
  {
    assert Unfolded(0);
    RefKeeps(s, cl, contents[key]);
    RefTakesOut(s, contents[key]);
  }

  /** Inserting under a key takes the place of the handle that had it. */
  function Displace(s: Shard, contents: map<Key, nat>, key: Key, value: string, charge: nat): Shard {
    var t := Enter(s, key, value, charge);
    if key in contents && contents[key] in t.handles && t.handles[contents[key]].refs > 0
    then FinishErase(t, contents[key])
    else t
  }

  function DisplaceClients(s: Shard, cl: Clients, contents: map<Key, nat>, key: Key): Clients {
    var c := cl[s.next := 1];
    if key in contents && contents[key] in s.handles then Dropped(s, c, contents[key]) else c
  }

  lemma {:induction false} InsertConsistent(s: Shard, cl: Clients, contents: map<Key, nat>, key: Key, value: string,
                                            charge: nat)
    requires Consistent(s, cl, contents)
    ensures Consistent(Displace(s, contents, key, value, charge), DisplaceClients(s, cl, contents, key),
              contents[key := s.next])
    ensures Busy(Displace(s, contents, key, value, charge), s.next)
    ensures key in contents ==> contents[key] in s.handles && contents[key] != s.next
                                && s.handles[contents[key]].inCache && s.handles[contents[key]].refs > 0
  {
    assert Unfolded(0);
    var t, c := Enter(s, key, value, charge), cl[s.next := 1];
    EnterKeeps(s, cl, key, value, charge);
    TabledEnter(s, contents, key, value, charge);
    if key in contents {
      var x := contents[key];
      assert RefsOk(s.handles[x], cl[x]);
      assert t.handles[x] == s.handles[x];
      FinishEraseKeeps(t, c, x);
      TabledFinishErase(t, contents[key := s.next], x);
    }
  }

  lemma {:induction false} ReleaseConsistent(s: Shard, cl: Clients, contents: map<Key, nat>, id: nat)
    requires Consistent(s, cl, contents) && id in cl && cl[id] >= 1
    ensures id in s.handles && s.handles[id].refs > 0 && Consistent(Unref(s, id), Released(s, cl, id), contents)
  {
    assert Unfolded(0);
    assert RefsOk(s.handles[id], cl[id]);
    UnrefKeeps(s, cl, id);
    TabledUnref(s, contents, id);
  }

  /** The handle that nobody holds any more goes to the newest end of the list. */
  lemma {:induction false} ReleasedIsNewest(s: Shard, cl: Clients, contents: map<Key, nat>, id: nat)
    requires Consistent(s, cl, contents) && id in cl && cl[id] >= 1 && id in s.handles && s.handles[id].refs > 0
    ensures Unref(s, id).lru == s.lru + if Idle(Unref(s, id), id) then [id] else []
  {
    assert Unfolded(0);
    assert RefsOk(s.handles[id], cl[id]);
    RemovedIs(s, id);
  }

  lemma {:induction false} EraseConsistent(s: Shard, cl: Clients, contents: map<Key, nat>, key: Key)
    requires Consistent(s, cl, contents) && key in contents
    ensures var id := contents[key];
            id in s.handles && s.handles[id].refs > 0
            && Consistent(FinishErase(s, id), Dropped(s, cl, id), contents - {key})
  {
    assert Unfolded(0);
    var id := contents[key];
    TabledRemove(s, contents, key);
    FinishEraseKeeps(s, cl, id);
    TabledFinishErase(s, contents - {key}, id);
  }

  lemma {:induction false} UncachedConsistent(s: Shard, cl: Clients, contents: map<Key, nat>, key: Key, value: string,
                                              charge: nat)
    requires Consistent(s, cl, contents)
    ensures Consistent(EnterUncached(s, key, value, charge), cl[s.next := 1], contents)
  {
    assert Unfolded(0);
    EnterUncachedKeeps(s, cl, key, value, charge);
  }

  /** Eviction spares a handle that a client holds, and the table still finds it. */
  lemma {:induction false} BusyStays(s: Shard, cl: Clients, before: map<Key, nat>, capacity: nat, id: nat,
                                     cl': Clients, contents: map<Key, nat>)
    requires Consistent(s, cl, before) && Busy(s, id) && Consistent(Evict(s, capacity), cl', contents)
    ensures Busy(Evict(s, capacity), id) && s.handles[id].key in contents && contents[s.handles[id].key] == id
  {
    assert Unfolded(0);
    var m := EvictIsLeastPrefix(s, cl, capacity);
    assert id in s.inUse && id in Evict(s, capacity).inUse;
  }

  /** While handles only go, so do values, and none changes. */
  lemma {:induction false} ValuesShrink(s: Shard, cl: Clients, contents: map<Key, nat>, t: Shard, cl': Clients,
                                        contents': map<Key, nat>)
    requires Consistent(s, cl, contents) && Consistent(t, cl', contents') && Shrinks(s, t)
    requires forall k | k in contents' :: k in contents && contents'[k] == contents[k]
    ensures Values(s, contents).Keys == contents.Keys && Values(t, contents').Keys == contents'.Keys
    ensures Within(Values(t, contents'), Values(s, contents))
    ensures contents' == contents ==> Values(t, contents') == Values(s, contents)
  {
    assert Unfolded(0);
  }

  lemma {:induction false} DroppedHolders(s: Shard, cl: Clients, contents: map<Key, nat>, key: Key)
    requires Consistent(s, cl, contents) && key in contents && contents[key] in s.handles
    ensures Holders(cl, Dropped(s, cl, contents[key]))
  {
    assert Unfolded(0);
    assert RefsOk(s.handles[contents[key]], cl[contents[key]]);
  }

  lemma {:induction false} DisplaceHolders(s: Shard, cl: Clients, contents: map<Key, nat>, key: Key)
    requires Consistent(s, cl, contents)
    ensures var c := DisplaceClients(s, cl, contents, key);
            s.next !in cl && Holders(cl, c) && s.next in c && c[s.next] == 1
  {
    assert Unfolded(0);
    if key in contents {
      assert RefsOk(s.handles[contents[key]], cl[contents[key]]);
    }
  }

  lemma {:induction false} ReleasedIs(s: Shard, cl: Clients, contents: map<Key, nat>, id: nat)
    requires Consistent(s, cl, contents) && id in cl && cl[id] >= 1
    ensures id in s.handles && s.handles[id].refs > 0 && Consistent(Unref(s, id), Released(s, cl, id), contents)
    ensures Shrinks(s, Unref(s, id)) && Values(Unref(s, id), contents) == Values(s, contents)
    ensures Unref(s, id).lru == s.lru + if Idle(Unref(s, id), id) then [id] else []
    ensures Unref(s, id).finished == s.finished + if s.handles[id].refs == 1 then [id] else []
  {
    ReleaseConsistent(s, cl, contents, id);
    UnrefShrinks(s, id);
    ValuesShrink(s, cl, contents, Unref(s, id), Released(s, cl, id), contents);
    ReleasedIsNewest(s, cl, contents, id);
  }

  lemma {:induction false} NothingErased(s: Shard, contents: map<Key, nat>, key: Key)
    requires key !in contents
    ensures Values(s, contents) - {key} == Values(s, contents) && Shrinks(s, s)
  {
  }

  lemma {:induction false} ErasedIs(s: Shard, cl: Clients, contents: map<Key, nat>, key: Key)
    requires Consistent(s, cl, contents) && key in contents
    ensures var id := contents[key];
            && id in s.handles && s.handles[id].refs > 0
            && Consistent(FinishErase(s, id), Dropped(s, cl, id), contents - {key})
            && Shrinks(s, FinishErase(s, id)) && Holders(cl, Dropped(s, cl, id))
            && Values(FinishErase(s, id), contents - {key}) == Values(s, contents) - {key}
            && FinishErase(s, id).lru == Without(s.lru, id)
  {
    var id := contents[key];
    EraseConsistent(s, cl, contents, key);
    FinishEraseShrinks(s, id);
    DroppedHolders(s, cl, contents, key);
    ValuesShrink(s, cl, contents, FinishErase(s, id), Dropped(s, cl, id), contents - {key});
  }

  /** Handles may have gone, but none that a client holds, and what is left is as it was. */
  ghost predicate OnlyLoses(s: Shard, cl: Clients, contents: map<Key, nat>, t: Shard, cl': Clients,
                            contents': map<Key, nat>)
  {
    forall n | Unfolded(n) ::
      && Shrinks(s, t) && Holders(cl, cl') && Within(Values(t, contents'), Values(s, contents))
      && (forall k | k in contents && Taken(cl, contents[k]) :: k in contents' && contents'[k] == contents[k])
  }

  /** Some client holds the handle. */
  predicate Taken(cl: Clients, id: nat) { id in cl && cl[id] >= 1 }

  lemma {:induction false} OnlyLosesMore(s: Shard, cl: Clients, contents: map<Key, nat>, t: Shard, cl': Clients,
                                         contents': map<Key, nat>, u: Shard, cl'': Clients, contents'': map<Key, nat>)
    requires OnlyLoses(s, cl, contents, t, cl', contents') && OnlyLoses(t, cl', contents', u, cl'', contents'')
    ensures OnlyLoses(s, cl, contents, u, cl'', contents'')
  {
    assert Unfolded(0);
  }

  lemma {:induction false} LosesNothing(s: Shard, cl: Clients, contents: map<Key, nat>)
    ensures OnlyLoses(s, cl, contents, s, cl, contents)
  {
  }

  /** The handle `id` is new: a client holds it, and it has what was given. Otherwise nothing is gained or changed. */
  ghost predicate Gains(s: Shard, cl: Clients, contents: map<Key, nat>, t: Shard, cl': Clients,
                        contents': map<Key, nat>, id: nat, h: Handle)
  {
    && id !in cl && id in t.handles && Same(t.handles[id], h) && id in cl' && cl'[id] == 1
    && (forall x | x in t.handles && x != id :: x in s.handles && Same(s.handles[x], t.handles[x]))
    && Holders(cl, cl')
    && (forall k | k in Values(t, contents') && k != h.key ::
          k in Values(s, contents) && Values(t, contents')[k] == Values(s, contents)[k])
    && (forall k | k in contents && k != h.key && Taken(cl, contents[k]) ::
          k in contents' && contents'[k] == contents[k])
  }

  lemma {:induction false} GainsThenLoses(s: Shard, cl: Clients, contents: map<Key, nat>, t: Shard, cl': Clients,
                                          contents': map<Key, nat>, id: nat, h: Handle,
                                          u: Shard, cl'': Clients, contents'': map<Key, nat>)
    requires Gains(s, cl, contents, t, cl', contents', id, h) && OnlyLoses(t, cl', contents', u, cl'', contents'')
    requires Consistent(u, cl'', contents'')
    ensures Gains(s, cl, contents, u, cl'', contents'', id, h)
  {
    assert Unfolded(0);
  }

  /** The new handle is stored as it was given, and none of the others changes. */
  lemma {:induction false} DisplaceStores(s: Shard, cl: Clients, contents: map<Key, nat>, key: Key, value: string,
                                          charge: nat)
    requires Consistent(s, cl, contents)
    ensures var t := Displace(s, contents, key, value, charge);
            && s.next in t.handles && Same(t.handles[s.next], Handle(key, value, charge, true, 2))
            && forall id | id in t.handles && id != s.next :: id in s.handles && Same(s.handles[id], t.handles[id])
  {
    assert Unfolded(0);
    var t := Enter(s, key, value, charge);
    if key in contents {
      assert RefsOk(s.handles[contents[key]], cl[contents[key]]);
      FinishEraseShrinks(t, contents[key]);
    }
  }

  /** More references than the cache's own. */
  lemma {:induction false} TakenIs(s: Shard, cl: Clients, contents: map<Key, nat>, id: nat)
    requires Consistent(s, cl, contents) && id in s.handles
    ensures Taken(cl, id) <==> s.handles[id].refs > if s.handles[id].inCache then 1 else 0
  {
    assert Unfolded(0);
    assert RefsOk(s.handles[id], cl[id]);
  }

  lemma {:induction false} OthersAreOld(s: Shard, cl: Clients, contents: map<Key, nat>)
    requires Consistent(s, cl, contents)
    ensures s.next !in cl && s.next !in s.handles && forall k | k in contents :: contents[k] in s.handles
  {
    assert Unfolded(0);
  }

  lemma {:induction false} DisplaceGains(s: Shard, cl: Clients, contents: map<Key, nat>, key: Key, value: string,
                                         charge: nat)
    requires Consistent(s, cl, contents)
    ensures Gains(s, cl, contents, Displace(s, contents, key, value, charge), DisplaceClients(s, cl, contents, key),
                  contents[key := s.next], s.next, Handle(key, value, charge, true, 2))
  {
    DisplaceStores(s, cl, contents, key, value, charge);
    DisplaceHolders(s, cl, contents, key);
    OthersAreOld(s, cl, contents);
  }

  lemma {:induction false} HandGains(s: Shard, cl: Clients, contents: map<Key, nat>, key: Key, value: string,
                                     charge: nat)
    requires Consistent(s, cl, contents)
    ensures Gains(s, cl, contents, EnterUncached(s, key, value, charge), cl[s.next := 1], contents, s.next,
                  Handle(key, value, charge, true, 2))
  {
    OthersAreOld(s, cl, contents);
  }

  /** The first elements of one list have moved to the end of another. */
  predicate MovedOver(done: seq<nat>, todo: seq<nat>, done': seq<nat>, todo': seq<nat>) { done' + todo' == done + todo }

  lemma {:induction false} MoveOver(done: seq<nat>, todo: seq<nat>, done': seq<nat>, todo': seq<nat>)
    requires MovedOver(done, todo, done', todo') && todo' != []
    ensures MovedOver(done, todo, done' + [todo'[0]], todo'[1..])
  {
    assert todo' == [todo'[0]] + todo'[1..];
  }

  /** A marker like `Unfolded`, for what a lookup gives. */
  predicate Recalled(n: nat) { n >= 0 }

  datatype Call = Look(key: Key) | Give(id: nat) | Put(key: Key, value: string, charge: nat) | Drop(key: Key)

  /** The call inserts or erases under the key. */
  predicate Writes(c: Call, k: Key) { (c.Put? || c.Drop?) && c.key == k }

  class LRUCache {
    var capacity: nat
    var shard: Shard
    const table: Table
    ghost var clients: Clients

    ghost predicate Valid()
      reads this, table
    {
      table.Valid() && Consistent(shard, clients, table.contents)
    }

    /** The cached values by key. */
    ghost function Stored(): map<Key, string>
      reads this, table
    {
      Values(shard, table.contents)
    }

    constructor (hash: Key -> nat, capacity: nat)
      ensures Valid() && fresh(table) && table.contents == map[] && shard.next == 0 && this.capacity == capacity
    {
      var s, cl := EmptyShard();
      this.capacity, shard, clients := capacity, s, cl;
      table := new Table(hash);
    }

    method Lookup(key: Key) returns (r: Option<nat>)
      requires Valid()
      modifies `shard, `clients
      ensures Valid()
      ensures r == if key in table.contents then Some(table.contents[key]) else None
      ensures r.Some? ==> r.value in old(shard).handles && shard == Ref(old(shard), r.value)
                          && clients == Acquired(old(clients), r.value)
      ensures r.None? ==> shard == old(shard) && clients == old(clients)
      ensures Stored() == old(Stored()) && Stored().Keys == table.contents.Keys
      ensures r.Some? ==> shard.lru == Without(old(shard).lru, r.value)
      ensures r.Some? ==> r.value in shard.handles && shard.handles[r.value].key == key
                          && shard.handles[r.value].value == Stored()[key]
    {
      r := table.Lookup(key);
      ValuesShrink(shard, clients, table.contents, shard, clients, table.contents);
      if r.Some? {
        LookupConsistent(shard, clients, table.contents, key);
        RefShrinks(shard, r.value);
        ValuesShrink(shard, clients, table.contents, Ref(shard, r.value), Acquired(clients, r.value), table.contents);
        clients := Acquired(clients, r.value);
        shard := Ref(shard, r.value);
      }
    }

    /** A client gives back a reference; the deleter runs exactly when it was the last one of all. */
    method Release(id: nat)
      requires Valid() && id in clients && clients[id] >= 1
      modifies `shard, `clients
      ensures Valid() && id in old(shard).handles && clients == Released(old(shard), old(clients), id)
      ensures shard.finished == old(shard.finished) + if old(shard).handles[id].refs == 1 then [id] else []
      ensures Shrinks(old(shard), shard) && Stored() == old(Stored())
      ensures shard.lru == old(shard).lru + if Idle(shard, id) then [id] else []
    {
      ReleasedIs(shard, clients, table.contents, id);
      clients := Released(shard, clients, id);
      shard := Unref(shard, id);
    }

    /** The handle has left the table, which had `before`. */
    method DropHandle(key: Key, id: nat, ghost before: map<Key, nat>)
      requires table.Valid() && table.contents == before - {key} && Consistent(shard, clients, before)
      requires key in before && id == before[key]
      modifies `shard, `clients
      ensures Valid() && id in old(shard).handles && old(shard).handles[id].refs > 0
      ensures shard == FinishErase(old(shard), id) && shard.lru == Without(old(shard).lru, id)
      ensures clients == Dropped(old(shard), old(clients), id)
      ensures Shrinks(old(shard), shard) && Holders(old(clients), clients)
      ensures Stored() == Values(old(shard), before) - {key}
    {
      ErasedIs(shard, clients, before, key);
      clients := Dropped(shard, clients, id);
      shard := FinishErase(shard, id);
    }

    method Erase(key: Key)
      requires Valid()
      modifies `shard, `clients, table
      ensures Valid() && table.contents == old(table.contents) - {key}
      ensures key !in old(table.contents) ==> shard == old(shard) && clients == old(clients)
      ensures key in old(table.contents) ==>
                var id := old(table.contents)[key];
                id in old(shard).handles && old(shard).handles[id].refs > 0 && shard == FinishErase(old(shard), id)
                && clients == Dropped(old(shard), old(clients), id) && shard.lru == Without(old(shard).lru, id)
      ensures Shrinks(old(shard), shard) && Holders(old(clients), clients) && Stored() == old(Stored()) - {key}
    {
      ghost var before := table.contents;
      var r := table.Remove(key);
      if r.Some? {
        DropHandle(key, r.value, before);
      } else {
        NothingErased(shard, before, key);
        assert table.contents == before;
      }
    }

    /** One round of eviction. */
    method EvictOne()
      requires Valid() && shard.lru != []
      modifies `shard, `clients, table
      ensures Valid() && old(shard).lru[0] in old(shard).handles && old(shard).handles[old(shard).lru[0]].refs > 0
      ensures shard == FinishErase(old(shard), old(shard).lru[0])
      ensures OnlyLoses(old(shard), old(clients), old(table.contents), shard, clients, table.contents)
    {
      OldestConsistent(shard, clients, table.contents);
      Erase(shard.handles[shard.lru[0]].key);
    }

    method EvictRound()
      requires Valid() && shard.lru != [] && shard.usage > capacity
      modifies `shard, `clients, table
      ensures Valid() && |shard.lru| < |old(shard).lru| && Evict(shard, capacity) == Evict(old(shard), capacity)
      ensures OnlyLoses(old(shard), old(clients), old(table.contents), shard, clients, table.contents)
    {
      EvictOne();
    }

    method EvictAll()
      requires Valid()
      modifies `shard, `clients, table
      ensures Valid() && shard == Evict(old(shard), capacity) && (shard.usage <= capacity || shard.lru == [])
      ensures OnlyLoses(old(shard), old(clients), old(table.contents), shard, clients, table.contents)
    {
      LosesNothing(shard, clients, table.contents);
      while shard.usage > capacity && shard.lru != []
        invariant Valid() && Evict(shard, capacity) == Evict(old(shard), capacity)
        invariant OnlyLoses(old(shard), old(clients), old(table.contents), shard, clients, table.contents)
        decreases |shard.lru|
      {
        ghost var s, cl, contents := shard, clients, table.contents;
        EvictRound();
        OnlyLosesMore(old(shard), old(clients), old(table.contents), s, cl, contents, shard, clients, table.contents);
      }
    }

    /** The part of an insertion before eviction, when the cache is on. */
    method Place(key: Key, value: string, charge: nat)
      requires Valid()
      modifies `shard, `clients, table
      ensures Valid() && shard == Displace(old(shard), old(table.contents), key, value, charge)
      ensures table.contents == old(table.contents)[key := old(shard).next]
      ensures Busy(shard, old(shard).next) && shard.handles[old(shard).next].key == key
      ensures Gains(old(shard), old(clients), old(table.contents), shard, clients, table.contents, old(shard).next,
                    Handle(key, value, charge, true, 2))
    {
      ghost var contents := table.contents;
      InsertConsistent(shard, clients, contents, key, value, charge);
      DisplaceGains(shard, clients, contents, key, value, charge);
      var s := Enter(shard, key, value, charge);
      var r := table.Insert(Node(key, shard.next));
      clients := DisplaceClients(shard, clients, contents, key);
      shard := if r.Some? then FinishErase(s, r.value) else s;
    }

    /** With caching off the handle is the caller's alone. */
    method Hand(key: Key, value: string, charge: nat)
      requires Valid()
      modifies `shard, `clients
      ensures Valid() && shard == EnterUncached(old(shard), key, value, charge)
      ensures Gains(old(shard), old(clients), table.contents, shard, clients, table.contents, old(shard).next,
                    Handle(key, value, charge, true, 2))
    {
      UncachedConsistent(shard, clients, table.contents, key, value, charge);
      HandGains(shard, clients, table.contents, key, value, charge);
      clients := clients[shard.next := 1];
      shard := EnterUncached(shard, key, value, charge);
    }

    method InsertCached(key: Key, value: string, charge: nat)
      requires Valid()
      modifies `shard, `clients, table
      ensures Valid() && (shard.usage <= capacity || shard.lru == [])
      ensures shard == Evict(Displace(old(shard), old(table.contents), key, value, charge), capacity)
      ensures key in table.contents && table.contents[key] == old(shard).next && Busy(shard, old(shard).next)
      ensures Gains(old(shard), old(clients), old(table.contents), shard, clients, table.contents, old(shard).next,
                    Handle(key, value, charge, true, 2))
    {
      ghost var id := shard.next;
      Place(key, value, charge);
      ghost var s, cl, before := shard, clients, table.contents;
      EvictAll();
      BusyStays(s, cl, before, capacity, id, clients, table.contents);
      GainsThenLoses(old(shard), old(clients), old(table.contents), s, cl, before, id,
                     Handle(key, value, charge, true, 2), shard, clients, table.contents);
    }

    method InsertUncached(key: Key, value: string, charge: nat)
      requires Valid()
      modifies `shard, `clients, table
      ensures Valid() && (shard.usage <= capacity || shard.lru == [])
      ensures shard == Evict(EnterUncached(old(shard), key, value, charge), capacity)
      ensures Gains(old(shard), old(clients), old(table.contents), shard, clients, table.contents, old(shard).next,
                    Handle(key, value, charge, true, 2))
    {
      ghost var id := shard.next;
      Hand(key, value, charge);
      ghost var s, cl, before := shard, clients, table.contents;
      EvictAll();
      GainsThenLoses(old(shard), old(clients), old(table.contents), s, cl, before, id,
                     Handle(key, value, charge, true, 2), shard, clients, table.contents);
    }

    /**
     Inserts and returns a handle that the caller holds. Then the oldest unreferenced handles
     leave, as few as bring the charges within the capacity; the new one stays.
     */
    method Insert(key: Key, value: string, charge: nat) returns (id: nat)
      requires Valid()
      modifies `shard, `clients, table
      ensures Valid() && id == old(shard).next && (shard.usage <= capacity || shard.lru == [])
      ensures capacity > 0 ==> shard == Evict(Displace(old(shard), old(table.contents), key, value, charge), capacity)
      ensures capacity == 0 ==> shard == Evict(EnterUncached(old(shard), key, value, charge), capacity)
      ensures capacity > 0 ==> key in table.contents && table.contents[key] == id && Busy(shard, id)
      ensures id in shard.handles && shard.handles[id].key == key && shard.handles[id].value == value
              && shard.handles[id].charge == charge
      ensures forall x | x in shard.handles && x != id ::
                x in old(shard).handles && Same(old(shard).handles[x], shard.handles[x])
      ensures id in clients && clients[id] == 1 && Holders(old(clients), clients)
      ensures forall k | k in Stored() && k != key :: k in old(Stored()) && Stored()[k] == old(Stored())[k]
      ensures forall k | k in old(table.contents) && k != key && Taken(old(clients), old(table.contents)[k]) ::
                k in table.contents && table.contents[k] == old(table.contents)[k]
    {
      id := shard.next;
      if capacity > 0 {
        InsertCached(key, value, charge);
      } else {
        InsertUncached(key, value, charge);
      }
    }

    method PruneOne()
      requires Valid() && shard.lru != []
      modifies `shard, `clients, table
      ensures Valid() && shard.lru == old(shard).lru[1..] && shard.inUse == old(shard).inUse
      ensures shard.finished == old(shard).finished + [old(shard).lru[0]]
    {
      OldestConsistent(shard, clients, table.contents);
      EvictOne();
    }

    /** Drops every handle that no client holds, oldest first, each deleted once. */
    method Prune()
      requires Valid()
      modifies `shard, `clients, table
      ensures Valid() && shard.lru == [] && shard.inUse == old(shard).inUse
      ensures shard.finished == old(shard).finished + old(shard).lru
    {
      while shard.lru != []
        invariant Valid() && shard.inUse == old(shard).inUse
        invariant MovedOver(old(shard).finished, old(shard).lru, shard.finished, shard.lru)
        decreases |shard.lru|
      {
        MoveOver(old(shard).finished, old(shard).lru, shard.finished, shard.lru);
        PruneOne();
      }
    }

    /** A lookup of the key gives this value, if it gives any. */
    ghost predicate Recalls(key: Key, value: string)
      reads this, table
    {
      forall n | Recalled(n) :: key in Stored() ==> Stored()[key] == value
    }

    /** The key is found under this handle, which some client holds. */
    ghost predicate Pins(key: Key, id: nat)
      reads this, table
    {
      key in table.contents && table.contents[key] == id && Taken(clients, id)
    }

    method LookBeside(k: Key, ghost key: Key, ghost value: string, ghost id: nat)
      requires Valid() && Recalls(key, value)
      modifies `shard, `clients, table
      ensures Valid() && Recalls(key, value) && (old(Pins(key, id)) ==> Pins(key, id))
    {
      assert Recalled(0);
      var _ := Lookup(k);
    }

    method GiveBeside(x: nat, ghost key: Key, ghost value: string, ghost id: nat)
      requires Valid() && Recalls(key, value)
      modifies `shard, `clients, table
      ensures Valid() && Recalls(key, value) && (x != id && old(Pins(key, id)) ==> Pins(key, id))
    {
      if x in shard.handles && shard.handles[x].refs > (if shard.handles[x].inCache then 1 else 0) {
        TakenIs(shard, clients, table.contents, x);
        assert Recalled(0);
        Release(x);
      }
    }

    method PutBeside(k: Key, v: string, charge: nat, ghost key: Key, ghost value: string, ghost id: nat)
      requires Valid() && Recalls(key, value) && k != key
      modifies `shard, `clients, table
      ensures Valid() && Recalls(key, value) && (old(Pins(key, id)) ==> Pins(key, id))
    {
      assert Recalled(0);
      var _ := Insert(k, v, charge);
    }

    /** Erase, as far as values and holders go. */
    method Forget(k: Key)
      requires Valid()
      modifies `shard, `clients, table
      ensures Valid() && Holders(old(clients), clients) && Within(Stored(), old(Stored()))
      ensures forall x | x in old(table.contents) && x != k ::
                x in table.contents && table.contents[x] == old(table.contents)[x]
    {
      Erase(k);
    }

    method DropBeside(k: Key, ghost key: Key, ghost value: string, ghost id: nat)
      requires Valid() && Recalls(key, value) && k != key
      modifies `shard, `clients, table
      ensures Valid() && Recalls(key, value) && (old(Pins(key, id)) ==> Pins(key, id))
    {
      assert Recalled(0);
      Forget(k);
    }

    /** One call of a client that neither inserts nor erases the key; a release of what nobody holds does nothing. */
    method Do(call: Call, ghost key: Key, ghost value: string, ghost id: nat)
      requires Valid() && Recalls(key, value) && !Writes(call, key)
      modifies `shard, `clients, table
      ensures Valid() && Recalls(key, value) && (call != Give(id) && old(Pins(key, id)) ==> Pins(key, id))
    {
      match call
      case Look(k) => LookBeside(k, key, value, id);
      case Give(x) => GiveBeside(x, key, value, id);
      case Put(k, v, charge) => PutBeside(k, v, charge, key, value, id);
      case Drop(k) => DropBeside(k, key, value, id);
    }

    method Start(key: Key, value: string, charge: nat) returns (id: nat)
      requires Valid() && capacity > 0
      modifies `shard, `clients, table
      ensures Valid() && Recalls(key, value) && Pins(key, id)
    {
      id := Insert(key, value, charge);
    }

    method Recall(key: Key, ghost value: string) returns (r: Option<nat>)
      requires Valid() && Recalls(key, value)
      modifies `shard, `clients
      ensures Valid() && r == if key in table.contents then Some(table.contents[key]) else None
      ensures r.Some? ==> r.value in shard.handles && shard.handles[r.value].value == value
    {
      assert Recalled(0);
      r := Lookup(key);
    }

    /**
     After an insertion and any calls that neither insert nor erase the key, a lookup that finds the
     key finds the value inserted; and it finds the very handle if its holder has not given it back.
     */
    method Remember(key: Key, value: string, charge: nat, calls: seq<Call>) returns (id: nat, r: Option<nat>)
      requires Valid() && capacity > 0 && forall i | 0 <= i < |calls| :: !Writes(calls[i], key)
      modifies `shard, `clients, table
      ensures Valid() && (r.Some? ==> r.value in shard.handles && shard.handles[r.value].value == value)
      ensures (forall i | 0 <= i < |calls| :: calls[i] != Give(id)) ==> r == Some(id)
    {
      id := Start(key, value, charge);
      for i := 0 to |calls|
        invariant Valid() && Recalls(key, value)
        invariant (forall j | 0 <= j < i :: calls[j] != Give(id)) ==> Pins(key, id)
      {
        Do(calls[i], key, value, id);
      }
      r := Recall(key, value);
    }
  }
}
