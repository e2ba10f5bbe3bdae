/**
 The per-thread allocator for one size class: a list of blocks, the front one used for quick
 allocation. Other threads free into the blocks at any time.
 */
module ThreadAlloc {
  import opened Bitset
  import opened MemBlock

  /** HugeBlock and LargeBlock: one word of slots, of which the lowest free one is handed out. */
  class Slots {
    const start: nat      // address of slot 0
    const size: nat
    var bits: Word

    constructor (start: nat, size: nat)
      ensures this.start == start && this.size == size && bits == {}
    {
      this.start, this.size, bits := start, size, {};
    }

    function Address(i: nat): nat { start + i * size }

    /** The slot handed out was free and now is not; nothing is handed out only when all 63 are taken. */
    method Alloc() returns (ok: bool, p: nat)
      requires forall b | b in bits :: b < BITS - 1
      modifies this
      ensures forall b | b in bits :: b < BITS - 1
      ensures ok ==> exists i | i in bits :: i !in old(bits) && p == Address(i) && bits == old(bits) + {i}
      ensures !ok ==> bits == old(bits) && forall i | 0 <= i < BITS - 1 :: i in bits
    {
      var i := 0;
      while i < BITS && i in bits
        invariant i <= BITS && forall b | 0 <= b < i :: b in bits
      {
        i := i + 1;
      }
      ok, p := false, 0;
      if i < BITS - 1 {
        bits := bits + {i};
        ok, p := true, Address(i);
        assert i in bits && i !in old(bits);
      }
    }

    method Free(i: nat) returns (empty: bool)
      requires i in bits
      modifies this
      ensures bits == old(bits) - {i} && (empty <==> bits == {})
    {
      bits := bits - {i};
      empty := bits == {};
    }
  }

  function Address(cls: Class, base: nat, i: nat): nat { base + cls.Header() + i * cls.Unit() }

  lemma {:induction false} SmallOffset(base: nat, d: nat)
    requires base % 32768 == 0 && d < 32768
    ensures (base + d) % 32768 == d
  {
  }

  lemma {:induction false} LargeOffset(base: nat, d: nat)
    requires base % 2097152 == 0 && d < 2097152
    ensures (base + d) % 2097152 == d
  {
  }

  /** From an address inside a block, the block and the unit are found by arithmetic alone. */
  lemma {:induction false} AddressDecodes(cls: Class, base: nat, i: nat)
    requires base % cls.Size() == 0 && i < cls.Max()
    ensures var p := Address(cls, base, i);
            p - p % cls.Size() == base && (p - base - cls.Header()) / cls.Unit() == i
  {
    if cls.Small? {
      SmallOffset(base, 576 + i * 16);
    } else {
      LargeOffset(base, 4096 + i * 4096);
    }
  }

  lemma {:induction false} RangeInside(cls: Class, base: nat, i: nat, len: nat)
    requires i + len <= cls.Max()
    ensures base + cls.Header() <= Address(cls, base, i)
    ensures Address(cls, base, i) + len * cls.Unit() <= base + cls.Size()
  {
  }

  lemma {:induction false} BlocksApart(cls: Class, a: nat, b: nat)
    requires a % cls.Size() == 0 && b % cls.Size() == 0 && a < b
    ensures a + cls.Size() <= b
  {
    match cls
    case Small => assert a == 32768 * (a / 32768) && b == 32768 * (b / 32768);
    case Large => assert a == 2097152 * (a / 2097152) && b == 2097152 * (b / 2097152);
  }

  lemma {:induction false} RangesApart(cls: Class, base: nat, i: nat, len: nat, j: nat)
    requires i + len <= j
    ensures Address(cls, base, i) + len * cls.Unit() <= Address(cls, base, j)
  {
  }

  predicate Apart(s: seq<Block>) {
    forall k, l | 0 <= k < l < |s| :: s[k] != s[l] && s[k].base != s[l].base
  }

  predicate SameBlocks(s: seq<Block>, t: seq<Block>) {
    |s| == |t| && (forall b | b in s :: b in t) && forall b | b in t :: b in s
  }

  function Rotate(s: seq<Block>): seq<Block>
    requires s != []
  {
    s[1..] + [s[0]]
  }

  function ToFront(s: seq<Block>, k: nat): seq<Block>
    requires k < |s|
  {
    [s[k]] + s[..k] + s[k + 1..]
  }

  lemma {:induction false} RotateKeeps(s: seq<Block>)
    requires Apart(s) && s != []
    ensures Apart(Rotate(s)) && SameBlocks(s, Rotate(s))
  {
    var t := Rotate(s);
    assert s == [s[0]] + s[1..];
    forall k, l | 0 <= k < l < |t| ensures t[k] != t[l] && t[k].base != t[l].base {
      assert t[k] == s[k + 1] && t[l] == if l == |t| - 1 then s[0] else s[l + 1];
    }
  }

  lemma {:induction false} ToFrontKeeps(s: seq<Block>, k: nat)
    requires Apart(s) && k < |s|
    ensures Apart(ToFront(s, k)) && SameBlocks(s, ToFront(s, k))
  {
    var t := ToFront(s, k);
    assert s == s[..k] + [s[k]] + s[k + 1..];
    forall i, j | 0 <= i < j < |t| ensures t[i] != t[j] && t[i].base != t[j].base {
      assert t[j] == if j <= k then s[j - 1] else s[j];
      assert i > 0 ==> t[i] == if i <= k then s[i - 1] else s[i];
    }
  }

  function Erase(s: seq<Block>, k: nat): seq<Block>
    requires k < |s|
  {
    s[..k] + s[k + 1..]
  }

  lemma {:induction false} EraseKeeps(s: seq<Block>, k: nat)
    requires Apart(s) && k < |s|
    ensures Apart(Erase(s, k)) && forall b :: b in Erase(s, k) <==> b in s && b != s[k]
  {
    var t := Erase(s, k);
    assert s == s[..k] + [s[k]] + s[k + 1..];
    forall i, j | 0 <= i < j < |t| ensures t[i] != t[j] && t[i].base != t[j].base {
      assert t[j] == if j < k then s[j] else s[j + 1];
      assert t[i] == if i < k then s[i] else s[i + 1];
    }
  }

  class Arena {
    const cls: Class
    var list: seq<Block>

    ghost predicate BlocksOk()
      reads this, list
    {
      forall b | b in list :: b.Inv() && b.cls == cls && b.base % cls.Size() == 0
    }

    /** Only the front block can be empty. */
    ghost predicate Inv()
      reads this, list
    {
      Apart(list) && BlocksOk() && forall k | 1 <= k < |list| :: list[k].bit > 0
    }

    constructor (cls: Class)
      ensures Inv() && list == [] && this.cls == cls
    {
      this.cls, list := cls, [];
    }

    /** The address of a live range of some block of the list. */
    ghost predicate LiveAt(k: nat, i: nat, p: nat)
      reads this, list
    {
      k < |list| && list[k].IsLive(i) && p == Address(cls, list[k].base, i)
    }

    /** The bytes of a range. */
    ghost function Length(k: nat, i: nat): nat
      reads this, list
      requires k < |list| && list[k].IsLive(i)
    {
      list[k].grants[list[k].held[i]].len * cls.Unit()
    }

    /** Live ranges, of one block or of two, never share a byte and never leave their block. */
    lemma {:induction false} LiveRangesDisjoint(k: nat, i: nat, p: nat, l: nat, j: nat, q: nat)
      requires Inv() && LiveAt(k, i, p) && LiveAt(l, j, q) && (k != l || i != j)
      ensures p + Length(k, i) <= q || q + Length(l, j) <= p
      ensures list[k].base + cls.Header() <= p && p + Length(k, i) <= list[k].base + cls.Size()
    {
      InBlock(k, i, p);
      InBlock(l, j, q);
      if k == l {
        list[k].LiveApart(i, j);
        list[k].LiveApart(j, i);
        if i < j {
          RangesApart(cls, list[k].base, i, list[k].grants[list[k].held[i]].len, j);
        } else {
          RangesApart(cls, list[k].base, j, list[k].grants[list[k].held[j]].len, i);
        }
      } else if list[k].base < list[l].base {
        BlocksApart(cls, list[k].base, list[l].base);
      } else {
        BlocksApart(cls, list[l].base, list[k].base);
      }
    }

    lemma {:induction false} InBlock(k: nat, i: nat, p: nat)
      requires Inv() && LiveAt(k, i, p)
      ensures list[k].base + cls.Header() <= p && p + Length(k, i) <= list[k].base + cls.Size()
    {
      list[k].LiveApart(i, i);
      RangeInside(cls, list[k].base, i, list[k].grants[list[k].held[i]].len);
    }

    /** `b` gained the live range `[i, i + n)` as its last grant. */
    ghost predicate Granted(b: Block, g: seq<Grant>, i: nat, n: nat)
      reads b
    {
      && Evolves(g, b.grants) && |b.grants| == |g| + 1
      && b.IsLive(i) && b.held[i] == |g| && b.grants[|g|] == Grant(i, n, Live)
    }

    /** The block has no room for `n` units. */
    predicate Full(b: Block, n: nat)
      reads b
    {
      b.bit + n > b.cls.Max()
    }

    /** The blocks after the first, as far as they are tried, have no room. */
    ghost predicate AllTried(l: seq<Block>, n: nat)
      reads l
    {
      forall j | 1 <= j <= 4 && j < |l| :: Full(l[j], n)
    }

    ghost predicate AllBusy()
      reads this, list
    {
      forall b | b in list :: b.bit > 0
    }

    /** Tries the front block. */
    method TryFront(n: nat) returns (ok: bool, i: nat)
      requires Inv() && 1 <= n <= cls.Max() && list != []
      modifies list[0]
      ensures Inv()
      ensures ok ==> Granted(list[0], old(list[0].grants), i, n)
      ensures ok == (old(list[0].bit) + n <= cls.Max()) && (ok ==> i == old(list[0].bit))
      ensures !ok ==> AllBusy() && list[0].bit == old(list[0].bit) && forall b | b in list :: b.grants == old(b.grants)
    {
      ok, i := list[0].Alloc(n);
    }

    /** Tries block `k`, reclaiming remote frees first; it is not empty before or after. */
    method TryHard(k: nat, n: nat, remote: nat -> seq<nat>) returns (ok: bool, i: nat)
      requires Apart(list) && BlocksOk() && AllBusy() && k < |list| && 1 <= n <= cls.Max()
      modifies list[k]
      ensures BlocksOk() && AllBusy() && Evolves(old(list[k].grants), list[k].grants)
      ensures ok ==> Granted(list[k], old(list[k].grants), i, n)
      ensures !ok ==> Full(list[k], n)
      ensures old(AllWaiting(list[k].held, list[k].grants, 0)) ==> ok
    {
      ok, i := list[k].TryHardAlloc(n, remote, 0);
    }

    lemma {:induction false} NothingYet()
      ensures forall b | b in list :: Evolves(b.grants, b.grants)
    {
      forall b | b in list ensures Evolves(b.grants, b.grants) {
        EvolvesReflexive(b.grants);
      }
    }

    /** Tries up to four blocks, from the front on and never the last one. */
    method TryEach(n: nat, remote: nat -> nat -> seq<nat>) returns (ok: bool, k: nat, i: nat)
      requires Apart(list) && BlocksOk() && AllBusy() && 1 <= n <= cls.Max() && list != []
      modifies list
      ensures BlocksOk() && AllBusy() && forall b | b in list :: Evolves(old(b.grants), b.grants)
      ensures ok ==> k < |list| && Granted(list[k], old(list[k].grants), i, n)
      ensures !ok ==> forall j | 0 <= j < 4 && j < |list| - 1 :: Full(list[j], n)
    {
      NothingYet();
      ok, k, i := false, 0, 0;
      while k < 4 && k < |list| - 1
        invariant k < |list| && BlocksOk() && AllBusy()
        invariant forall j | 0 <= j < |list| :: Evolves(old(list[j].grants), list[j].grants)
        invariant forall j | k <= j < |list| :: list[j].grants == old(list[j].grants)
        invariant forall j | 0 <= j < k :: Full(list[j], n)
      {
        ok, i := TryHard(k, n, remote(k));
        if ok {
          return;
        }
        k := k + 1;
      }
    }

    /** When the front block is full: moves it to the back and tries some of the others. */
    method TryOthers(n: nat, remote: nat -> nat -> seq<nat>) returns (ok: bool, i: nat)
      requires Apart(list) && BlocksOk() && AllBusy() && 1 <= n <= cls.Max() && list != []
      modifies this, list
      ensures Apart(list) && BlocksOk() && AllBusy() && SameBlocks(old(list), list)
      ensures forall b | b in old(list) :: Evolves(old(b.grants), b.grants)
      ensures ok ==> list[0] in old(list) && var b := list[0]; Granted(b, old(b.grants), i, n)
      ensures !ok ==> AllTried(old(list), n)
      ensures !ok ==> list == old(list)[1..] + [old(list)[0]]
    {
      RotateKeeps(list);
      list := Rotate(list);
      assert forall j | 1 <= j < |old(list)| :: list[j - 1] == old(list)[j];
      var k;
      ok, k, i := TryEach(n, remote);
      if ok {
        ToFrontKeeps(list, k);
        list := ToFront(list, k);
      }
    }

    /** Allocation from the blocks at hand. */
    method TryBlocks(n: nat, remote: nat -> nat -> seq<nat>) returns (ok: bool, i: nat)
      requires Inv() && 1 <= n <= cls.Max() && list != []
      modifies this, list
      ensures Inv() && SameBlocks(old(list), list)
      ensures forall b | b in old(list) :: Evolves(old(b.grants), b.grants)
      ensures ok ==> list[0] in old(list) && var b := list[0]; Granted(b, old(b.grants), i, n)
      ensures !ok ==> AllBusy() && AllTried(old(list), n)
      ensures !ok ==> list == old(list)[1..] + [old(list)[0]]
      ensures old(list[0].bit) + n <= cls.Max() ==> ok && i == old(list[0].bit) && list == old(list)
    {
      NothingYet();
      ok, i := TryFront(n);
      if ok {
        return;
      }
      if |list| > 1 {
        ok, i := TryOthers(n, remote);
      }
    }

    /** A new block, put at the front, serves the request. */
    method AddBlock(n: nat, base: nat) returns (i: nat)
      requires Apart(list) && BlocksOk() && AllBusy() && 1 <= n <= cls.Max()
      requires base % cls.Size() == 0 && forall b | b in list :: b.base != base
      modifies this
      ensures Inv() && |list| > 0 && fresh(list[0]) && list[1..] == old(list) && list[0].base == base
      ensures list[0].grants == [Grant(i, n, Live)] && list[0].IsLive(i)
    {
      var b := new Block(cls, base);
      list := [b] + list;
      var _, j := b.Alloc(n);
      i := j;
    }

    /**
     Allocates `n` units. `supply` and `base` say whether a new block can be had and where it lies;
     `remote` is what other threads free meanwhile. A success leaves the new range live in the front block.
     */
    method Alloc(n: nat, supply: bool, base: nat, remote: nat -> nat -> seq<nat>)
      returns (ok: bool, p: nat, i: nat, ghost grew: bool)
      requires Inv() && 1 <= n <= cls.Max()
      requires supply ==> base % cls.Size() == 0 && forall b | b in list :: b.base != base
      modifies this, list
      ensures Inv() && (supply ==> ok)
      ensures forall b | b in old(list) :: b in list && Evolves(old(b.grants), b.grants)
      ensures forall b | b in list && b !in old(list) :: grew && b == list[0]
      ensures grew ==> ok && |list| == |old(list)| + 1 && fresh(list[0]) && list[0].grants == [Grant(i, n, Live)]
      ensures ok ==> LiveAt(0, i, p) && list[0].grants[list[0].held[i]] == Grant(i, n, Live)
      ensures ok && !grew ==> list[0] in old(list) && var b := list[0]; Granted(b, old(b.grants), i, n)
      ensures old(list) != [] && old(list[0].bit) + n <= cls.Max() ==> ok && i == old(list[0].bit) && list == old(list)
      ensures grew && old(list) != [] ==> list[1..] == old(list)[1..] + [old(list)[0]]
      ensures grew || !ok ==> AllTried(old(list), n)
    {
      ok, p, i, grew := false, 0, 0, false;
      if list != [] {
        ok, i := TryBlocks(n, remote);
        if ok {
          p := Address(cls, list[0].base, i);
          return;
        }
      }
      if supply {
        i := AddBlock(n, base);
        ok, p, grew := true, Address(cls, base, i), true;
      }
    }

    /** The block and the unit of an address, by the address alone. */
    method Find(p: nat, ghost k: nat, ghost j: nat) returns (m: nat, i: nat)
      requires Inv() && LiveAt(k, j, p)
      ensures m == k && i == j
    {
      list[k].LiveApart(j, j);
      AddressDecodes(cls, list[k].base, j);
      var base := p - p % cls.Size();
      i := (p - base - cls.Header()) / cls.Unit();
      m :| 0 <= m < |list| && list[m].base == base;
    }

    /** A free by the owner. A block that becomes empty leaves the list, with both bit sets zero, unless it is the
        front. */
    method Free(p: nat, ghost k: nat, ghost j: nat)
      requires Inv() && LiveAt(k, j, p)
      modifies this, list
      ensures Inv()
      ensures var b := old(list[k]); b.grants == WithStatus(old(b.grants), old(b.held[j]), Freed)
      ensures forall b | b in old(list) && b != old(list[k]) :: b in list && b.grants == old(b.grants)
      ensures forall b | b in list :: b in old(list)
      ensures var b := old(list[k]); b !in list ==> k > 0 && forall i: nat :: !Has(b.bs, i) && !Has(b.xbs, i)
    {
      var m, i := Find(p, k, j);
      var empty := list[m].Free(i);
      if empty && m != 0 {
        EraseKeeps(list, m);
        list := Erase(list, m);
      }
    }

    /**
     A range of `o` units is to have `n`. It stays where it is when it is long enough, or is the last one
     of the front block and there is room behind it; otherwise the caller allocates, copies and frees.
     */
    method Realloc(p: nat, o: nat, n: nat, ghost k: nat, ghost j: nat) returns (ok: bool)
      requires Inv() && LiveAt(k, j, p) && o == list[k].grants[list[k].held[j]].len
      modifies list
      ensures Inv() && LiveAt(k, j, p) && list[k].held == old(list[k].held)
      ensures ok == (n <= o || (k == 0 && old(list[0].bit) == j + o && j + n <= cls.Max()))
      ensures list[k].grants == if ok && n > o then old(list[k].grants)[list[k].held[j] := Grant(j, n, Live)]
              else old(list[k].grants)
      ensures forall b | b in list && b != list[k] :: b.grants == old(b.grants)
    {
      if n <= o {
        return true;
      }
      var m, i := Find(p, k, j);
      ok := false;
      if m == 0 {
        ok := list[0].Realloc(i, o, n);
      }
    }

    /** A free by another thread. */
    method RemoteFree(p: nat, ghost k: nat, ghost j: nat)
      requires Inv() && LiveAt(k, j, p)
      modifies list
      ensures Inv() && list[k].grants == WithStatus(old(list[k].grants), old(list[k].held[j]), Pending)
      ensures forall b | b in list && b != list[k] :: b.grants == old(b.grants)
    {
      var m, i := Find(p, k, j);
      list[m].InvIsCore();
      list[m].XFree(i);
    }
  }
}
