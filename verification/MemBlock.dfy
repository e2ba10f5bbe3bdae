/**
 One block of the thread allocator (SmallAlloc and LargeAlloc): a bump position over a run of
 units, a bit set of the starts of the ranges handed out, and a second bit set in which other
 threads record their frees until the owner reclaims them.

 `held` and `grants` are what the clients know: which ranges were handed out and what became
 of each. The allocator never consults them; the threads that free remotely act on them.
 */
module MemBlock {
  import opened Bitset
  import opened Guard

  datatype Class = Small | Large {
    function Unit(): nat { if Small? then 16 else 4096 }
    function Size(): nat { if Small? then 32768 else 2097152 }
    function Header(): nat { if Small? then 576 else 4096 }
    function Max(): nat { if Small? then 2012 else 511 }
    function Words(): nat { if Small? then 32 else 8 }
  }

  /** A range is live until its owner frees it, or a remote free is recorded, claimed and reclaimed. */
  datatype Status = Live | Freed | Pending | Claimed | Reclaimed

  datatype Grant = Grant(start: nat, len: nat, status: Status)

  predicate Holds(s: Status) { s.Live? || s.Pending? || s.Claimed? }

  /** What one grant may become while remote threads free and the owner reclaims. */
  predicate Later(s: Status, t: Status) {
    match s
    case Live => !t.Freed?
    case Pending => t.Pending? || t.Claimed? || t.Reclaimed?
    case Claimed => t.Claimed? || t.Reclaimed?
    case _ => t == s
  }

  /** No grant is lost, moved or resized, and each status only moves forward. */
  predicate Evolves(g: seq<Grant>, h: seq<Grant>) {
    |g| <= |h| && forall a | 0 <= a < |g| :: h[a] == g[a].(status := h[a].status) && Later(g[a].status, h[a].status)
  }

  /** `held` maps the start of every range not yet given back to its grant. */
  predicate Indexed(held: map<nat, nat>, grants: seq<Grant>) {
    && (forall i | i in held :: held[i] < |grants| && grants[held[i]].start == i && Holds(grants[held[i]].status))
    && (forall a | 0 <= a < |grants| && Holds(grants[a].status) ::
          grants[a].start in held && held[grants[a].start] == a)
  }

  /** Held ranges are non-empty, end at or below the bump position and do not meet. */
  predicate Layout(held: map<nat, nat>, grants: seq<Grant>, bit: nat)
    requires Indexed(held, grants)
  {
    && (forall i | i in held :: 1 <= grants[held[i]].len && i + grants[held[i]].len <= bit)
    && (forall i, j | i in held && j in held && i < j :: i + grants[held[i]].len <= j)
  }

  ghost predicate Marks(bs: Words, held: map<nat, nat>) { forall i: nat :: Has(bs, i) <==> i in held }

  ghost predicate PendingMarks(xbs: Words, held: map<nat, nat>, grants: seq<Grant>)
    requires Indexed(held, grants)
  {
    forall i: nat :: Has(xbs, i) <==> i in held && grants[held[i]].status == Pending
  }

  predicate NoneClaimed(grants: seq<Grant>) { forall a | 0 <= a < |grants| :: !grants[a].status.Claimed? }

  ghost predicate Occupied(held: map<nat, nat>) { exists i :: i in held }

  predicate InWord(i: nat, w: nat, x: Word) { i / BITS == w && i % BITS in x }

  ghost predicate Steady(cls: Class, bit: nat, bs: Words, xbs: Words, held: map<nat, nat>, grants: seq<Grant>) {
    && Ok(bs) && Ok(xbs) && |bs| == |xbs| == cls.Words() && bit <= cls.Max()
    && Indexed(held, grants) && Layout(held, grants, bit)
    && Marks(bs, held) && PendingMarks(xbs, held, grants)
  }

  /** No claim is under way, and an empty block starts at the bottom. */
  ghost predicate Idle(bit: nat, held: map<nat, nat>, grants: seq<Grant>) {
    NoneClaimed(grants) && (bit > 0 ==> Occupied(held))
  }

  function WithStatus(grants: seq<Grant>, a: nat, s: Status): seq<Grant>
    requires a < |grants|
  {
    grants[a := grants[a].(status := s)]
  }

  /** The claims that taking the bits `x` of word `w` from the remote set makes. */
  function ClaimWord(grants: seq<Grant>, w: nat, x: Word): (r: seq<Grant>)
    ensures |r| == |grants|
  {
    seq(|grants|, a requires 0 <= a < |grants| =>
      if grants[a].status.Pending? && InWord(grants[a].start, w, x) then grants[a].(status := Claimed) else grants[a])
  }

  function ReclaimAll(grants: seq<Grant>): (r: seq<Grant>)
    ensures |r| == |grants|
  {
    seq(|grants|, a requires 0 <= a < |grants| =>
      if grants[a].status.Claimed? then grants[a].(status := Reclaimed) else grants[a])
  }

  function Without(held: map<nat, nat>, w: nat, x: Word): map<nat, nat> {
    map i | i in held && !InWord(i, w, x) :: held[i]
  }

  /** Grants that wait go on waiting, but for those that start in `x`. */
  predicate WaitOn(g: seq<Grant>, h: seq<Grant>, w: nat, x: Word) {
    |g| == |h| && forall a | 0 <= a < |g| && g[a].status.Pending? && !InWord(g[a].start, w, x) :: h[a] == g[a]
  }

  /** Nothing is held from word `m` up but what other threads have freed. */
  ghost predicate AllWaiting(held: map<nat, nat>, grants: seq<Grant>, m: nat) {
    forall i | i in held && i / BITS >= m :: held[i] < |grants| && grants[held[i]].status.Pending?
  }

  /** The highest word with a one bit. */
  predicate IsTop(ws: Words, w: nat) { w < |ws| && ws[w] != {} && forall v | w < v < |ws| :: ws[v] == {} }

  predicate Fewer(h: map<nat, nat>, held: map<nat, nat>) { forall i | i in h :: i in held && h[i] == held[i] }

  // ---- What each step does to the clients' view -------------------------------------------

  lemma {:induction false} GrantTop(held: map<nat, nat>, grants: seq<Grant>, bit: nat, n: nat, xbs: Words)
    requires Indexed(held, grants) && Layout(held, grants, bit) && PendingMarks(xbs, held, grants) && n >= 1
    ensures var (h, g) := (held[bit := |grants|], grants + [Grant(bit, n, Live)]);
            Indexed(h, g) && Layout(h, g, bit + n) && PendingMarks(xbs, h, g)
  {
    var h, g := held[bit := |grants|], grants + [Grant(bit, n, Live)];
    assert bit !in held;
    assert forall i | i in held :: h[i] == held[i] && g[h[i]] == grants[held[i]];
    assert Indexed(h, g);
  }

  lemma {:induction false} ChangeStatus(held: map<nat, nat>, grants: seq<Grant>, bit: nat, i: nat, s: Status)
    requires Indexed(held, grants) && Layout(held, grants, bit) && i in held && Holds(s)
    ensures var g := WithStatus(grants, held[i], s); Indexed(held, g) && Layout(held, g, bit)
  {
    var g := WithStatus(grants, held[i], s);
    assert forall j | j in held :: j != i ==> held[j] != held[i];
    assert forall j | j in held :: g[held[j]].start == j && g[held[j]].len == grants[held[j]].len;
  }

  lemma {:induction false} GiveBack(held: map<nat, nat>, grants: seq<Grant>, bit: nat, i: nat, xbs: Words)
    requires Indexed(held, grants) && Layout(held, grants, bit) && PendingMarks(xbs, held, grants)
    requires i in held && grants[held[i]].status == Live
    ensures var (h, g) := (held - {i}, WithStatus(grants, held[i], Freed));
            Indexed(h, g) && Layout(h, g, bit) && PendingMarks(xbs, h, g)
            && ((forall j | j in h :: j < i) ==> Layout(h, g, i))
  {
    var h, g := held - {i}, WithStatus(grants, held[i], Freed);
    assert forall j | j in h :: j in held && h[j] == held[j] && held[j] != held[i] && g[h[j]] == grants[held[j]];
    assert Indexed(h, g);
  }

  lemma {:induction false} Extend(held: map<nat, nat>, grants: seq<Grant>, bit: nat, i: nat, n: nat)
    requires Indexed(held, grants) && Layout(held, grants, bit) && i in held
    requires grants[held[i]].status == Live && grants[held[i]].len < n && bit == i + grants[held[i]].len
    ensures var g := grants[held[i] := Grant(i, n, Live)]; Indexed(held, g) && Layout(held, g, i + n)
  {
    var g := grants[held[i] := Grant(i, n, Live)];
    assert forall j | j in held :: j != i ==> held[j] != held[i];
    assert forall j | j in held :: g[held[j]].start == j && (j != i ==> g[held[j]] == grants[held[j]]);
    assert Indexed(held, g);
    assert forall j | j in held :: j <= i;
  }

  lemma {:induction false} SetMarks(bs: Words, held: map<nat, nat>, i: nat, a: nat)
    requires Ok(bs) && Marks(bs, held) && i / BITS < |bs|
    ensures Marks(Set(bs, i), held[i := a])
  {
  }

  lemma {:induction false} UnsetMarks(bs: Words, held: map<nat, nat>, i: nat)
    requires Ok(bs) && Marks(bs, held) && i / BITS < |bs|
    ensures Marks(Unset(bs, i), held - {i})
  {
  }

  /** The highest bit found is the highest start held. */
  lemma {:induction false} AllFound(bs: Words, held: map<nat, nat>, grants: seq<Grant>, bit: nat, r: int)
    requires Marks(bs, held) && Indexed(held, grants) && Layout(held, grants, bit)
    requires forall j: nat | j / BITS <= bit / BITS && Has(bs, j) :: j <= r
    ensures forall j | j in held :: j <= r
  {
    forall j | j in held ensures j <= r {
      assert Has(bs, j) && j < bit;
    }
  }

  lemma {:induction false} InRange(cls: Class, i: nat)
    requires i <= cls.Max()
    ensures i / BITS < cls.Words()
  {
  }

  lemma {:induction false} AllocSteady(cls: Class, bit: nat, bs: Words, xbs: Words, held: map<nat, nat>,
                                       grants: seq<Grant>, n: nat)
    requires Steady(cls, bit, bs, xbs, held, grants) && Idle(bit, held, grants) && n >= 1 && bit + n <= cls.Max()
    ensures var (h, g) := (held[bit := |grants|], grants + [Grant(bit, n, Live)]);
            Steady(cls, bit + n, Set(bs, bit), xbs, h, g) && Idle(bit + n, h, g)
  {
    GrantTop(held, grants, bit, n, xbs);
    SetMarks(bs, held, bit, |grants|);
    assert bit in held[bit := |grants|];
  }

  lemma {:induction false} FreeSteady(cls: Class, bit: nat, bs: Words, xbs: Words, held: map<nat, nat>,
                                      grants: seq<Grant>, i: nat, r: int)
    requires Steady(cls, bit, bs, xbs, held, grants) && Idle(bit, held, grants)
    requires i in held && grants[held[i]].status == Live
    requires forall j: nat | j / BITS <= bit / BITS && Has(Unset(bs, i), j) :: j <= r
    requires if r < 0 then r == -1 else Has(Unset(bs, i), r)
    ensures var (h, g) := (held - {i}, WithStatus(grants, held[i], Freed));
            var b := if r >= i then bit else if r >= 0 then i else 0;
            Steady(cls, b, Unset(bs, i), xbs, h, g) && Idle(b, h, g)
            && (b == 0 ==> forall j: nat :: !Has(Unset(bs, i), j) && !Has(xbs, j))
  {
    GiveBack(held, grants, bit, i, xbs);
    UnsetMarks(bs, held, i);
    var h, g := held - {i}, WithStatus(grants, held[i], Freed);
    AllFound(Unset(bs, i), h, g, bit, r);
    assert r >= 0 ==> r in h;
    assert i < bit;
  }

  /** The block between the owner's operations, unfolded only where its parts matter. */
  ghost predicate InvOf(cls: Class, bit: nat, bs: Words, xbs: Words, held: map<nat, nat>, grants: seq<Grant>) {
    forall k | Unfolded(k) :: Steady(cls, bit, bs, xbs, held, grants) && Idle(bit, held, grants)
  }

  lemma {:induction false} AllocInv(cls: Class, bit: nat, bs: Words, xbs: Words, held: map<nat, nat>,
                                    grants: seq<Grant>, n: nat)
    requires InvOf(cls, bit, bs, xbs, held, grants) && n >= 1 && bit + n <= cls.Max()
    ensures Ok(bs) && bit / BITS < |bs|
    ensures InvOf(cls, bit + n, Set(bs, bit), xbs, held[bit := |grants|], grants + [Grant(bit, n, Live)])
  {
    assert Unfolded(0);
    InRange(cls, bit);
    AllocSteady(cls, bit, bs, xbs, held, grants, n);
  }

  lemma {:induction false} FreeInv(cls: Class, bit: nat, bs: Words, xbs: Words, held: map<nat, nat>,
                                   grants: seq<Grant>, i: nat, r: int)
    requires InvOf(cls, bit, bs, xbs, held, grants) && i in held && held[i] < |grants|
             && grants[held[i]].status == Live && Ok(bs) && i / BITS < |bs|
    requires forall j: nat | j / BITS <= bit / BITS && Has(Unset(bs, i), j) :: j <= r
    requires if r < 0 then r == -1 else Has(Unset(bs, i), r)
    ensures var b := if r >= i then bit else if r >= 0 then i else 0;
            InvOf(cls, b, Unset(bs, i), xbs, held - {i}, WithStatus(grants, held[i], Freed))
            && (b == 0 ==> forall j: nat :: !Has(Unset(bs, i), j) && !Has(xbs, j)) && (r >= i ==> bit > 0)
    ensures (r >= i ==> r > i) && (forall j | j in held && j != i :: j <= r) && (r >= 0 ==> r in held && r != i)
  {
    assert Unfolded(0);
    FreeSteady(cls, bit, bs, xbs, held, grants, i, r);
  }

  lemma {:induction false} ExtendInv(cls: Class, bit: nat, bs: Words, xbs: Words, held: map<nat, nat>,
                                     grants: seq<Grant>, i: nat, n: nat)
    requires InvOf(cls, bit, bs, xbs, held, grants) && i in held && held[i] < |grants| && grants[held[i]].status == Live
    requires grants[held[i]].len < n && bit == i + grants[held[i]].len && i + n <= cls.Max()
    ensures InvOf(cls, i + n, bs, xbs, held, grants[held[i] := Grant(i, n, Live)])
  {
    assert Unfolded(0);
    Extend(held, grants, bit, i, n);
    var g := grants[held[i] := Grant(i, n, Live)];
    assert forall j | j in held :: g[held[j]].status == grants[held[j]].status;
  }

  /** A held range and the bump position have a word each. */
  lemma {:induction false} HeldInRange(cls: Class, bit: nat, bs: Words, xbs: Words, held: map<nat, nat>,
                                       grants: seq<Grant>, i: nat)
    requires InvOf(cls, bit, bs, xbs, held, grants) && i in held
    ensures i / BITS < |bs| && bit / BITS < |bs| && |xbs| == |bs| && Ok(bs) && bit > 0
  {
    assert Unfolded(0);
    InRange(cls, i);
    InRange(cls, bit);
  }

  lemma {:induction false} EvolvesReflexive(g: seq<Grant>)
    ensures Evolves(g, g)
  {
  }

  lemma {:induction false} EvolvesTransitive(g: seq<Grant>, h: seq<Grant>, k: seq<Grant>)
    requires Evolves(g, h) && Evolves(h, k)
    ensures Evolves(g, k)
  {
    forall a | 0 <= a < |g| ensures k[a] == g[a].(status := k[a].status) && Later(g[a].status, k[a].status) {
      assert h[a] == g[a].(status := h[a].status) && k[a] == h[a].(status := k[a].status);
    }
  }

  lemma {:induction false} AppendEvolves(g: seq<Grant>, h: seq<Grant>, x: Grant)
    requires Evolves(g, h)
    ensures Evolves(g, h + [x])
  {
  }

  predicate Grown(a: Words, b: Words) { |a| == |b| && forall w | 0 <= w < |a| :: a[w] <= b[w] }

  /** A one bit of a word of the remote set is the start of a held range. */
  lemma {:induction false} BitIsHeld(cls: Class, bit: nat, bs: Words, xbs: Words, held: map<nat, nat>,
                                     grants: seq<Grant>, w: nat, b: nat)
    requires Steady(cls, bit, bs, xbs, held, grants) && w < |xbs| && b in xbs[w]
    ensures b < BITS && b + w * BITS in held && (b + w * BITS) / BITS == w && (b + w * BITS) % BITS == b
    ensures b + w * BITS < bit
  {
    assert (b + w * BITS) / BITS == w && (b + w * BITS) % BITS == b;
    assert Has(xbs, b + w * BITS);
  }

  /** Exactly the held ranges that start in `x` are claimed. */
  predicate ClaimedAre(held: map<nat, nat>, grants: seq<Grant>, w: nat, x: Word)
    requires Indexed(held, grants)
  {
    forall i | i in held :: grants[held[i]].status.Claimed? <==> InWord(i, w, x)
  }

  lemma {:induction false} ClaimEvolves(grants: seq<Grant>, w: nat, x: Word)
    ensures Evolves(grants, ClaimWord(grants, w, x))
  {
  }

  lemma {:induction false} ClaimIndexed(held: map<nat, nat>, grants: seq<Grant>, bit: nat, w: nat, x: Word)
    requires Indexed(held, grants) && Layout(held, grants, bit)
    ensures var g := ClaimWord(grants, w, x); Indexed(held, g) && Layout(held, g, bit)
  {
    var g := ClaimWord(grants, w, x);
    assert forall i | i in held :: g[held[i]].start == i && g[held[i]].len == grants[held[i]].len;
    assert Indexed(held, g);
  }

  lemma {:induction false} ClaimSteady(cls: Class, bit: nat, bs: Words, xbs: Words, held: map<nat, nat>,
                                       grants: seq<Grant>, w: nat, x: Word)
    requires Steady(cls, bit, bs, xbs, held, grants) && NoneClaimed(grants) && w < |xbs| && x <= xbs[w]
    ensures var g := ClaimWord(grants, w, x);
            Steady(cls, bit, bs, AndNot(xbs, w, x), held, g) && ClaimedAre(held, g, w, x) && Evolves(grants, g)
  {
    ClaimEvolves(grants, w, x);
    ClaimIndexed(held, grants, bit, w, x);
  }

  lemma {:induction false} ReclaimIndexed(held: map<nat, nat>, grants: seq<Grant>, w: nat, x: Word)
    requires Indexed(held, grants) && ClaimedAre(held, grants, w, x)
    ensures Indexed(Without(held, w, x), ReclaimAll(grants))
    ensures forall i | i in Without(held, w, x) :: ReclaimAll(grants)[held[i]] == grants[held[i]]
  {
  }

  lemma {:induction false} ReclaimLayout(held: map<nat, nat>, grants: seq<Grant>, bit: nat, w: nat, x: Word, b: nat)
    requires Indexed(held, grants) && Layout(held, grants, bit) && ClaimedAre(held, grants, w, x) && b in held
    ensures var (h, g) := (Without(held, w, x), ReclaimAll(grants));
            && Indexed(h, g) && Layout(h, g, bit)
            && ((forall j | j in h :: j < b) ==> Layout(h, g, b))
  {
    ReclaimIndexed(held, grants, w, x);
  }

  lemma {:induction false} ReclaimEvolves(grants: seq<Grant>)
    ensures NoneClaimed(ReclaimAll(grants)) && Evolves(grants, ReclaimAll(grants))
  {
  }

  lemma {:induction false} ReclaimMarks(bs: Words, xbs: Words, held: map<nat, nat>, grants: seq<Grant>, w: nat, x: Word)
    requires Ok(bs) && w < |bs| && Indexed(held, grants) && ClaimedAre(held, grants, w, x)
    requires Marks(bs, held) && PendingMarks(xbs, held, grants)
    requires Indexed(Without(held, w, x), ReclaimAll(grants))
    ensures Marks(AndNot(bs, w, x), Without(held, w, x))
    ensures PendingMarks(xbs, Without(held, w, x), ReclaimAll(grants))
  {
    var h, g := Without(held, w, x), ReclaimAll(grants);
    forall i: nat ensures Has(xbs, i) <==> i in h && g[h[i]].status == Pending {
      assert i in h ==> g[h[i]] == grants[held[i]];
    }
  }

  lemma {:induction false} ReclaimWaits(grants: seq<Grant>, w: nat, x: Word)
    ensures WaitOn(grants, ReclaimAll(grants), w, x)
  {
  }

  lemma {:induction false} ReclaimSteady(cls: Class, bit: nat, bs: Words, xbs: Words, held: map<nat, nat>,
                                         grants: seq<Grant>,
                      w: nat, x: Word, b: nat)
    requires Steady(cls, bit, bs, xbs, held, grants) && ClaimedAre(held, grants, w, x) && w < |bs| && b in held
    ensures var (h, g) := (Without(held, w, x), ReclaimAll(grants));
            && Steady(cls, bit, AndNot(bs, w, x), xbs, h, g) && NoneClaimed(g) && Evolves(grants, g)
            && ((forall j | j in h :: j < b) ==> Layout(h, g, b))
  {
    ReclaimEvolves(grants);
    ReclaimLayout(held, grants, bit, w, x, b);
    ReclaimMarks(bs, xbs, held, grants, w, x);
  }

  // ---- Reclaiming makes progress ----------------------------------------------------------

  /**
   From word `m` up, nothing is held any more at or above word `u`, and the bump position is at or
   below everything that was held there at first.
   */
  ghost predicate Swept(h: map<nat, nat>, held: map<nat, nat>, bit: nat, u: nat, m: nat) {
    && (forall i | i in held && i / BITS >= m :: i / BITS < u)
    && (forall i | i in h && i / BITS >= m && i / BITS >= u :: bit <= i)
  }

  lemma {:induction false} HighWordEmpty(cls: Class, bit: nat, bs: Words, xbs: Words, held: map<nat, nat>,
                                         grants: seq<Grant>, v: nat)
    requires Steady(cls, bit, bs, xbs, held, grants) && bit / BITS < v < |bs|
    ensures bs[v] == {}
  {
    forall b | b in bs[v] ensures false {
      assert (b + v * BITS) / BITS == v && (b + v * BITS) % BITS == b;
      assert Has(bs, b + v * BITS);
    }
  }

  lemma {:induction false} TopSweeps(cls: Class, bit: nat, bs: Words, xbs: Words, held: map<nat, nat>,
                                     grants: seq<Grant>, w: nat, m: nat)
    requires InvOf(cls, bit, bs, xbs, held, grants) && IsTop(bs, w)
    ensures Swept(held, held, bit, w + 1, m)
  {
    assert Unfolded(0);
    forall i | i in held ensures i / BITS <= w { assert Has(bs, i); }
  }

  /** What waits goes on waiting while only other threads run. */
  lemma {:induction false} WaitersStay(cls: Class, bit: nat, bs: Words, xbs: Words, held: map<nat, nat>,
                                       g: seq<Grant>, grants: seq<Grant>, m: nat)
    requires InvOf(cls, bit, bs, xbs, held, grants) && WaitOn(g, grants, 0, {})
    ensures AllWaiting(held, g, m) ==> AllWaiting(held, grants, m)
  {
  }

  /** In a word where all that is held waits, the two bit sets agree. */
  lemma {:induction false} WordIsWaiting(cls: Class, bit: nat, bs: Words, xbs: Words, held: map<nat, nat>,
                                         grants: seq<Grant>, w: nat, m: nat)
    requires InvOf(cls, bit, bs, xbs, held, grants) && AllWaiting(held, grants, m) && w < |xbs|
    ensures w >= m ==> forall i | i in held && i / BITS == w :: InWord(i, w, xbs[w])
  {
    assert Unfolded(0);
    forall i | i in held && i / BITS == w && w >= m ensures InWord(i, w, xbs[w]) { assert Has(xbs, i); }
  }

  lemma {:induction false} NothingToSweep(cls: Class, bit: nat, bs: Words, xbs: Words, held: map<nat, nat>,
                                          grants: seq<Grant>, w: nat, m: nat)
    requires InvOf(cls, bit, bs, xbs, held, grants) && AllWaiting(held, grants, m) && IsTop(bs, w)
    requires |xbs| == |bs| && xbs[w] == {}
    ensures Swept(held, held, bit, m, m)
  {
    assert Unfolded(0);
    TopSweeps(cls, bit, bs, xbs, held, grants, w, m);
    if w >= m {
      WordIsWaiting(cls, bit, bs, xbs, held, grants, w, m);
      var b :| b in bs[w];
      assert (b + w * BITS) / BITS == w && (b + w * BITS) % BITS == b;
      assert Has(bs, b + w * BITS);
    }
  }

  lemma {:induction false} NothingWaits(cls: Class, bit: nat, bs: Words, xs: Words, xbs: Words, held: map<nat, nat>,
                                        grants: seq<Grant>, w: nat, m: nat)
    requires InvOf(cls, bit, bs, xbs, held, grants) && IsTop(bs, w) && |xbs| == |bs| && xbs[w] == {} && Grown(xs, xbs)
    ensures TopGone(xs, held, w)
    ensures AllWaiting(held, grants, m) ==> Swept(held, held, bit, m, m)
  {
    if AllWaiting(held, grants, m) {
      NothingToSweep(cls, bit, bs, xbs, held, grants, w, m);
    }
  }

  lemma {:induction false} StartsAre(cls: Class, bit: nat, bs: Words, xbs: Words, held: map<nat, nat>,
                                     grants: seq<Grant>)
    requires InvOf(cls, bit, bs, xbs, held, grants)
    ensures forall i | i in held :: held[i] < |grants| ==> grants[held[i]].start == i
  {
    assert Unfolded(0);
  }

  lemma {:induction false} RoundWaits(held: map<nat, nat>, g: seq<Grant>, h: seq<Grant>, w: nat, x: Word, m: nat)
    requires AllWaiting(held, g, m) && WaitOn(g, h, w, x) && forall i | i in held :: held[i] < |g| ==>
               g[held[i]].start == i
    ensures AllWaiting(Without(held, w, x), h, m)
  {
  }

  lemma {:induction false} RoundSweeps(h: map<nat, nat>, had: map<nat, nat>, held: map<nat, nat>, was: nat, bit: nat,
                                       w: nat, x: Word, m: nat)
    requires Swept(h, had, was, w + 1, m) && held == Without(had, w, x) && bit <= was
    requires forall i | i in h && i / BITS <= w :: i in had
    requires w >= m ==> forall i | i in had && i / BITS == w :: InWord(i, w, x)
    requires (forall j | j in held :: j / BITS < w) ==> forall i: nat | InWord(i, w, x) :: bit <= i
    ensures Swept(h, held, bit, w, m)
  {
    if w >= m {
      assert forall j | j in held :: j / BITS < w;
    }
  }

  /** When the loop stops early there is nothing left, or it is below word `m` already. */
  lemma {:induction false} StoppedIsSwept(cls: Class, bit: nat, bs: Words, xbs: Words, held: map<nat, nat>,
                                          grants: seq<Grant>, h: map<nat, nat>, w: nat, m: nat)
    requires InvOf(cls, bit, bs, xbs, held, grants) && Swept(h, held, bit, w, m)
    requires (forall j | j in held :: j / BITS < w) ==> bit == 0
    ensures Swept(h, held, bit, m, m)
  {
    assert Unfolded(0);
    if w >= m {
      SweptBelow(h, held, bit, w, m);
    }
  }

  lemma {:induction false} SweptBelow(h: map<nat, nat>, held: map<nat, nat>, bit: nat, w: nat, m: nat)
    requires Swept(h, held, bit, w, m) && w >= m
    ensures forall j | j in held :: j / BITS < w
  {
  }

  /** Among the ranges first held as `h`, those in words up to `u` are held still. */
  ghost predicate Untouched(h: map<nat, nat>, held: map<nat, nat>, u: nat) {
    Fewer(held, h) && forall i | i in h && i / BITS < u :: i in held
  }

  /** Of the remote frees `xs` in the top word, none is held. */
  ghost predicate TopGone(xs: Words, held: map<nat, nat>, top: nat) {
    forall i: nat | Has(xs, i) && i / BITS == top :: i !in held
  }

  /** Before the first word is done, all of them are about to be claimed. */
  ghost predicate TopReady(xs: Words, top: nat, w: nat, x: Word) {
    x != {} && w == top && forall i: nat | Has(xs, i) && i / BITS == top :: InWord(i, w, x)
  }

  lemma {:induction false} GrownReady(xs: Words, xbs: Words, w: nat)
    requires Grown(xs, xbs) && w < |xbs| && xbs[w] != {}
    ensures TopReady(xs, w, w, xbs[w])
  {
  }

  class Block {
    const cls: Class
    const base: nat
    var bit: nat
    var bs: Words
    var xbs: Words
    var held: map<nat, nat>
    var grants: seq<Grant>

    /** Holds at every atomic step of every thread. */
    ghost predicate Core()
      reads this
    {
      Steady(cls, bit, bs, xbs, held, grants)
    }

    /** Holds between the owner's operations. */
    ghost predicate Inv()
      reads this
    {
      InvOf(cls, bit, bs, xbs, held, grants)
    }

    constructor (cls: Class, base: nat)
      ensures Inv() && this.cls == cls && this.base == base && bit == 0 && grants == []
    {
      this.cls, this.base, bit := cls, base, 0;
      bs, xbs, held, grants := Zero(cls.Words()), Zero(cls.Words()), map[], [];
    }

    predicate IsLive(i: nat)
      reads this
    {
      i in held && held[i] < |grants| && grants[held[i]].status == Live
    }

    method Alloc(n: nat) returns (ok: bool, i: nat)
      requires Inv() && n >= 1
      modifies `bit, `bs, `held, `grants
      ensures Inv() && ok == (old(bit) + n <= cls.Max())
      ensures if ok then i == old(bit) && grants == old(grants) + [Grant(i, n, Live)] && bit == i + n <= cls.Max()
                         && IsLive(i) && held[i] == |old(grants)|
              else grants == old(grants) && bit == old(bit)
      ensures Evolves(old(grants), grants)
    {
      ok, i := false, 0;
      EvolvesReflexive(grants);
      AppendEvolves(grants, grants, Grant(bit, n, Live));
      if bit + n <= cls.Max() {
        AllocInv(cls, bit, bs, xbs, held, grants, n);
        bs, held, grants := Set(bs, bit), held[bit := |grants|], grants + [Grant(bit, n, Live)];
        ok, i := true, bit;
        bit := bit + n;
      }
    }

    method Free(i: nat) returns (empty: bool)
      requires Inv() && IsLive(i)
      modifies `bit, `bs, `held, `grants
      ensures Inv() && grants == WithStatus(old(grants), old(held[i]), Freed) && held == old(held) - {i}
      ensures empty <==> bit == 0
      ensures (exists j :: j in held && i < j) ==> bit == old(bit)
      ensures (exists j :: j in held) && (forall j | j in held :: j < i) ==> bit == i
      ensures (forall j :: j !in held) ==> bit == 0
      ensures empty ==> forall j: nat :: !Has(bs, j) && !Has(xbs, j)
    {
      HeldInRange(cls, bit, bs, xbs, held, grants, i);
      var left := Unset(bs, i);
      var r := RFind(left, bit);
      FreeInv(cls, bit, bs, xbs, held, grants, i, r);
      bs, grants, held := left, WithStatus(grants, held[i], Freed), held - {i};
      assert r >= 0 ==> r in held;
      assert forall j | j in held :: j <= r;
      if r < i {
        bit := if r >= 0 then i else 0;
        empty := bit == 0;
      } else {
        empty := false;
      }
    }

    /** A free by another thread: one atomic or into the remote bit set. */
    method XFree(i: nat)
      requires Core() && IsLive(i)
      modifies `xbs, `grants
      ensures Core() && grants == WithStatus(old(grants), held[i], Pending) && Grown(old(xbs), xbs)
      ensures old(Inv()) ==> Inv()
    {
      assert Unfolded(0);
      ChangeStatus(held, grants, bit, i, Pending);
      xbs := Set(xbs, i);
      grants := WithStatus(grants, held[i], Pending);
    }

    method Realloc(i: nat, o: nat, n: nat) returns (ok: bool)
      requires Inv() && IsLive(i) && o == grants[held[i]].len && n > o
      modifies `bit, `grants
      ensures Inv() && held == old(held)
      ensures ok == (old(bit) == i + o && i + n <= cls.Max())
      ensures grants == if ok then old(grants)[held[i] := Grant(i, n, Live)] else old(grants)
    {
      ok := bit == i + o && i + n <= cls.Max();
      if ok {
        ExtendInv(cls, bit, bs, xbs, held, grants, i, n);
        bit := i + n;
        grants := grants[held[i] := Grant(i, n, Live)];
      }
    }

    lemma {:induction false} InvIsCore()
      requires Inv()
      ensures Core()
    {
      assert Unfolded(0);
    }

    /** Every grant is in one place: live, freed remotely and waiting, or given back for good. */
    lemma {:induction false} Accounted(a: nat)
      requires Inv() && a < |grants|
      ensures var (s, t) := (grants[a].start, grants[a].status);
              && (t.Live? ==> Has(bs, s) && !Has(xbs, s))
              && (t.Pending? ==> Has(bs, s) && Has(xbs, s))
              && (t.Freed? || t.Reclaimed? ==> s !in held || held[s] != a)
              && !t.Claimed?
    {
      assert Unfolded(0);
    }

    /** Live ranges lie within the block and do not overlap. */
    lemma {:induction false} LiveApart(i: nat, j: nat)
      requires Inv() && IsLive(i) && IsLive(j)
      ensures i < i + grants[held[i]].len <= cls.Max() && (i < j ==> i + grants[held[i]].len <= j)
    {
      assert Unfolded(0);
    }

    /** Other threads run: any of the live ranges in `f` are freed remotely, in that order. */
    method Interfere(f: seq<nat>)
      requires Core()
      modifies `xbs, `grants
      ensures Core() && |grants| == |old(grants)| && Evolves(old(grants), grants)
      ensures Grown(old(xbs), xbs) && WaitOn(old(grants), grants, 0, {})
      ensures forall a | 0 <= a < |grants| :: grants[a].status.Claimed? <==> old(grants)[a].status.Claimed?
    {
      for k := 0 to |f|
        invariant Core() && |grants| == |old(grants)| && Evolves(old(grants), grants)
        invariant Grown(old(xbs), xbs) && WaitOn(old(grants), grants, 0, {})
        invariant forall a | 0 <= a < |grants| :: grants[a].status.Claimed? <==> old(grants)[a].status.Claimed?
      {
        if IsLive(f[k]) {
          XFree(f[k]);
        }
      }
    }

    /** Takes the bits `x` out of the remote set. */
    method Claim(w: nat, x: Word)
      requires Core() && NoneClaimed(grants) && w < |xbs| && x <= xbs[w]
      modifies `xbs, `grants
      ensures Core() && ClaimedAre(held, grants, w, x) && |grants| == |old(grants)| && Evolves(old(grants), grants)
      ensures WaitOn(old(grants), grants, w, x)
    {
      ClaimSteady(cls, bit, bs, xbs, held, grants, w, x);
      xbs, grants := AndNot(xbs, w, x), ClaimWord(grants, w, x);
    }

    /** Takes the claimed bits out of the block's own set. */
    method Reclaim(w: nat, x: Word, ghost b: nat)
      requires Core() && ClaimedAre(held, grants, w, x) && w < |bs| && b in held
      modifies `bs, `held, `grants
      ensures Core() && NoneClaimed(grants) && |grants| == |old(grants)| && Evolves(old(grants), grants)
      ensures (forall j | j in held :: j < b) ==> Layout(held, grants, b)
      ensures held == Without(old(held), w, x) && WaitOn(old(grants), grants, w, x)
    {
      ReclaimSteady(cls, bit, bs, xbs, held, grants, w, x, b);
      ReclaimWaits(grants, w, x);
      bs, held, grants := AndNot(bs, w, x), Without(held, w, x), ReclaimAll(grants);
    }

    /** Claims a word of remote frees, with other threads running before and after. */
    method ClaimAmongOthers(w: nat, x: Word, f: seq<nat>, f': seq<nat>)
      requires Core() && NoneClaimed(grants) && w < |xbs| && x <= xbs[w]
      modifies `xbs, `grants
      ensures Core() && ClaimedAre(held, grants, w, x) && |grants| == |old(grants)| && Evolves(old(grants), grants)
      ensures WaitOn(old(grants), grants, w, x)
    {
      Interfere(f);
      ghost var g := grants;
      Claim(w, x);
      EvolvesTransitive(old(grants), g, grants);
      g := grants;
      Interfere(f');
      EvolvesTransitive(old(grants), g, grants);
    }

    /** One word of remote frees: claimed, and then reclaimed. */
    method ReclaimWord(w: nat, x: Word, f: seq<nat>, f': seq<nat>) returns (lsb: nat)
      requires Core() && NoneClaimed(grants) && w < |xbs| && x <= xbs[w] && x != {}
      modifies `bs, `xbs, `held, `grants
      ensures Core() && NoneClaimed(grants) && |grants| == |old(grants)| && Evolves(old(grants), grants)
      ensures (forall j | j in held :: j < lsb) ==> Layout(held, grants, lsb)
      ensures lsb < bit && held == Without(old(held), w, x) && WaitOn(old(grants), grants, w, x)
      ensures lsb / BITS == w && forall i: nat | InWord(i, w, x) :: lsb <= i
    {
      lsb := FindLsb(x) + w * BITS;
      BitIsHeld(cls, bit, bs, xbs, held, grants, w, FindLsb(x));
      ClaimAmongOthers(w, x, f, f');
      ghost var g := grants;
      Reclaim(w, x, lsb);
      EvolvesTransitive(old(grants), g, grants);
    }

    /** The bump position falls back to the lowest reclaimed start when no held range lies above it. */
    method Lower(lsb: nat) returns (more: bool)
      requires Core() && NoneClaimed(grants) && lsb < bit
      requires (forall j | j in held :: j < lsb) ==> Layout(held, grants, lsb)
      modifies `bit
      ensures Inv() && (more ==> bit > 0) && bit <= old(bit)
      ensures (forall j | j in held :: j < lsb) ==> bit <= lsb && more == (bit > 0)
    {
      assert Unfolded(0);
      InRange(cls, bit);
      var r := RFind(bs, bit);
      AllFound(bs, held, grants, bit, r);
      assert r >= 0 ==> Has(bs, r) && r in held;
      if r >= lsb {
        return false;
      }
      bit := if r >= 0 then lsb else 0;
      more := bit != 0;
    }

    /** Scans down from the word of the bump position to the highest word that is not zero. */
    method TopWord() returns (w: nat)
      requires Inv() && bit > 0
      ensures |bs| == |xbs| && IsTop(bs, w)
    {
      assert Unfolded(0);
      InRange(cls, bit);
      w := bit / BITS;
      ghost var i :| i in held;
      assert Has(bs, i) && i < bit;
      forall v | w < v < |bs| ensures bs[v] == {} { HighWordEmpty(cls, bit, bs, xbs, held, grants, v); }
      while bs[w] == {}
        invariant i / BITS <= w < |bs| && forall v | w < v < |bs| :: bs[v] == {}
        decreases w
      {
        w := w - 1;
      }
    }

    /** Other threads run while the owner is between operations. */
    method InterfereIdle(f: seq<nat>)
      requires Inv()
      modifies `xbs, `grants
      ensures Inv() && |grants| == |old(grants)| && Evolves(old(grants), grants) && |xbs| == |old(xbs)|
      ensures Grown(old(xbs), xbs) && WaitOn(old(grants), grants, 0, {})
    {
      assert Unfolded(0);
      Interfere(f);
    }

    /** One word of remote frees, and the bump position after it. */
    method ReclaimRound(w: nat, x: Word, f: seq<nat>, f': seq<nat>) returns (more: bool)
      requires Inv() && w < |xbs| && x <= xbs[w] && x != {}
      modifies this
      ensures Inv() && |grants| == |old(grants)| && Evolves(old(grants), grants) && |xbs| == |old(xbs)|
      ensures held == Without(old(held), w, x) && WaitOn(old(grants), grants, w, x) && bit <= old(bit)
      ensures (forall j | j in held :: j / BITS < w) ==>
                more == (bit > 0) && forall i: nat | InWord(i, w, x) :: bit <= i
    {
      assert Unfolded(0);
      var lsb := ReclaimWord(w, x, f, f');
      more := Lower(lsb);
    }

    /** One word of the loop, whether or not it has remote frees. */
    method ReclaimNext(w: nat, x: Word, f: seq<nat>, f': seq<nat>, ghost h: map<nat, nat>, ghost m: nat,
                       ghost free: bool)
      returns (more: bool)
      requires Inv() && w < |xbs| && x == xbs[w] && Untouched(h, held, w + 1)
      requires free ==> AllWaiting(held, grants, m) && Swept(h, held, bit, w + 1, m)
      modifies this
      ensures Inv() && |grants| == |old(grants)| && Evolves(old(grants), grants) && |xbs| == |old(xbs)|
      ensures held == Without(old(held), w, x) && Untouched(h, held, w)
      ensures free ==> AllWaiting(held, grants, m) && Swept(h, held, bit, if more then w else m, m)
    {
      ghost var g, had, was := grants, held, bit;
      more := true;
      EvolvesReflexive(grants);
      if free {
        WordIsWaiting(cls, bit, bs, xbs, held, grants, w, m);
        StartsAre(cls, bit, bs, xbs, held, grants);
      }
      if x != {} {
        more := ReclaimRound(w, x, f, f');
      }
      if free {
        RoundWaits(had, g, grants, w, x, m);
        RoundSweeps(h, had, held, was, bit, w, x, m);
        if !more {
          StoppedIsSwept(cls, bit, bs, xbs, held, grants, h, w, m);
        }
      }
    }

    /** The loop over the words, from the top one down; `remote(k)` is what other threads free before step `k`. */
    method SweepRemote(remote: nat -> seq<nat>, ghost m: nat)
      requires Inv() && bit > 0
      modifies this
      ensures Inv() && |grants| == |old(grants)| && Evolves(old(grants), grants) && Fewer(held, old(held))
      ensures forall w | IsTop(old(bs), w) :: TopGone(old(xbs), held, w)
      ensures old(AllWaiting(held, grants, m)) ==> Swept(old(held), held, bit, m, m)
    {
      ghost var h, xs := held, xbs;
      var w := TopWord();
      ghost var top, first := w, true;
      ghost var free := AllWaiting(held, grants, m);
      TopSweeps(cls, bit, bs, xbs, held, grants, w, m);
      InterfereIdle(remote(0));
      WaitersStay(cls, bit, bs, xbs, held, old(grants), grants, m);
      var x, k := xbs[w], 1;
      if x == {} {
        NothingWaits(cls, bit, bs, xs, xbs, held, grants, w, m);
        return;
      }
      GrownReady(xs, xbs, w);
      while true
        invariant Inv() && |grants| == |old(grants)| && Evolves(old(grants), grants)
        invariant w < |xbs| && x == xbs[w] && Untouched(h, held, w + 1)
        invariant if first then TopReady(xs, top, w, x) else TopGone(xs, held, top)
        invariant free ==> AllWaiting(held, grants, m) && Swept(h, held, bit, w + 1, m)
        decreases w
      {
        ghost var g := grants;
        var more := ReclaimNext(w, x, remote(k), remote(k + 1), h, m, free);
        EvolvesTransitive(old(grants), g, grants);
        first := false;
        if !more || w == 0 {
          break;
        }
        w, k, g := w - 1, k + 3, grants;
        InterfereIdle(remote(k - 1));
        WaitersStay(cls, bit, bs, xbs, held, g, grants, m);
        EvolvesTransitive(old(grants), g, grants);
        x := xbs[w];
      }
    }

    /** A grant that waited and is not held any more has been reclaimed. */
    lemma {:induction false} GoneIsReclaimed(g: seq<Grant>, a: nat)
      requires Inv() && Evolves(g, grants) && a < |g| && g[a].status.Pending? && g[a].start !in held
      ensures grants[a].status.Reclaimed?
    {
      assert Unfolded(0);
    }

    lemma {:induction false} WaitingHas(a: nat)
      requires Inv() && a < |grants| && grants[a].status.Pending?
      ensures Has(xbs, grants[a].start) && grants[a].start in held
    {
      assert Unfolded(0);
    }

    lemma {:induction false} EmptyStarts(h: map<nat, nat>)
      requires Inv() && Swept(h, held, bit, 0, 0)
      ensures bit == 0
    {
      assert Unfolded(0);
    }

    /**
     Reclaims remote frees. Those that the top word had at first are all reclaimed, whatever other
     threads do meanwhile. Where, from some word `m` up, all that was held had been freed, all of it
     is reclaimed and the bump position falls to or below the lowest of it; if that is all, to 0.
     */
    method ReclaimRemote(remote: nat -> seq<nat>, ghost m: nat)
      requires Inv() && bit > 0
      modifies this
      ensures Inv() && |grants| == |old(grants)| && Evolves(old(grants), grants) && Fewer(held, old(held))
      ensures forall a | 0 <= a < |grants| && old(grants)[a].status.Pending?
                         && IsTop(old(bs), old(grants)[a].start / BITS) :: grants[a].status.Reclaimed?
      ensures old(AllWaiting(held, grants, m)) ==>
                forall a | 0 <= a < |grants| && old(grants)[a].status.Pending? && old(grants)[a].start / BITS >= m ::
                  grants[a].status.Reclaimed? && bit <= old(grants)[a].start
      ensures old(AllWaiting(held, grants, m)) ==> forall i | i in old(held) && i / BITS >= m :: bit <= i
      ensures old(AllWaiting(held, grants, m)) && m == 0 ==> bit == 0
    {
      ghost var g := grants;
      ghost var free := AllWaiting(held, grants, m);
      forall a | 0 <= a < |g| && g[a].status.Pending? ensures Has(old(xbs), g[a].start) && g[a].start in old(held) {
        WaitingHas(a);
      }
      SweepRemote(remote, m);
      forall a | 0 <= a < |g| && g[a].status.Pending? && g[a].start !in held ensures grants[a].status.Reclaimed? {
        GoneIsReclaimed(g, a);
      }
      if free && m == 0 {
        EmptyStarts(old(held));
      }
    }

    /**
     Allocation from a block that is not empty, after reclaiming what other threads freed. It must
     succeed if, from some word `m` up, all that was held had been freed, and that leaves room enough.
     */
    method TryHardAlloc(n: nat, remote: nat -> seq<nat>, ghost m: nat) returns (ok: bool, i: nat)
      requires Inv() && bit > 0 && n >= 1
      modifies this
      ensures Inv() && Evolves(old(grants), grants) && (n <= cls.Max() ==> bit > 0)
      ensures if ok then |grants| == |old(grants)| + 1 && grants[|old(grants)|] == Grant(i, n, Live)
              && i + n <= cls.Max()
                         && IsLive(i) && held[i] == |old(grants)|
              else |grants| == |old(grants)| && bit + n > cls.Max()
      ensures forall s | s in old(held) && s / BITS >= m && s + n <= cls.Max() && old(AllWaiting(held, grants, m)) ::
                ok && i <= s
      ensures old(AllWaiting(held, grants, m)) && m == 0 && n <= cls.Max() ==> ok && i == 0
    {
      ReclaimRemote(remote, m);
      AppendEvolves(old(grants), grants, Grant(bit, n, Live));
      ok, i := Alloc(n);
    }
  }
}
