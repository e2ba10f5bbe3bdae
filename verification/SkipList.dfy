/**
 The skip list of the memtable. Nodes live in an arena and are never removed; node 0 is the
 head. One writer links a new node bottom-up, one store at a time, while readers search
 without locks.
 */
module SkipList {
  import opened DbFormat

  const MAX_HEIGHT: nat := 12

  type Key = real
  type Node = nat

  /** The shared memory: node keys, the links of each node, one per level it has, and max_height_. */
  datatype Memory = Memory(keys: seq<Key>, next: seq<seq<Option<Node>>>, maxHeight: nat)

  /** The nodes linked at each level in list order, head first. Not part of the memory: a proof device. */
  type Chains = seq<seq<Node>>

  predicate HasLevel(m: Memory, n: Node, l: nat) { n < |m.next| && l < |m.next[n]| }

  /** The i-th node of the list links to the next one, the last to nothing. */
  predicate LinkOk(m: Memory, l: nat, c: seq<Node>, i: nat)
    requires i < |c|
  {
    HasLevel(m, c[i], l) && m.next[c[i]][l] == if i + 1 < |c| then Some(c[i + 1]) else None
  }

  /** Following the links of level `l` from the head visits exactly `c`. */
  predicate IsChain(m: Memory, l: nat, c: seq<Node>) {
    |c| > 0 && c[0] == 0 && forall i | 0 <= i < |c| :: LinkOk(m, l, c, i)
  }

  predicate SortedChain(keys: seq<Key>, c: seq<Node>) {
    && (forall i | 1 <= i < |c| :: 0 < c[i] < |keys|)
    && (forall i, j | 1 <= i < j < |c| :: keys[c[i]] < keys[c[j]])
  }

  predicate LevelOk(m: Memory, l: nat, c: seq<Node>) { IsChain(m, l, c) && SortedChain(m.keys, c) }

  predicate SubChain(upper: seq<Node>, lower: seq<Node>) { forall n | n in upper :: n in lower }

  /** Every level is a sorted list from the head, and each a sublist of the one below. */
  predicate MemoryInv(m: Memory, ch: Chains) {
    && |m.keys| == |m.next| && |ch| == MAX_HEIGHT && 1 <= m.maxHeight <= MAX_HEIGHT
    && (forall l | 0 <= l < MAX_HEIGHT :: LevelOk(m, l, ch[l]))
    && (forall l | 0 <= l < MAX_HEIGHT - 1 :: SubChain(ch[l + 1], ch[l]))
    && (forall l | m.maxHeight <= l < MAX_HEIGHT :: ch[l] == [0])
  }

  /** KeyIsAfterNode, with the head before every key. */
  predicate Below(m: Memory, n: Node, key: Key) { n == 0 || (n < |m.keys| && m.keys[n] < key) }

  predicate LinkAfter(m: Memory, key: Key, link: Option<Node>) {
    link.Some? && link.value < |m.keys| && m.keys[link.value] < key
  }

  predicate KeyLess(m: Memory, a: Node, b: Node) { a < |m.keys| && b < |m.keys| && m.keys[a] < m.keys[b] }

  /** `r` is the first node of the list at or after `key`, or None when every node is before it. */
  predicate LeastAtOrAfter(m: Memory, c: seq<Node>, key: Key, r: Option<Node>) {
    match r
    case None => forall n | n in c :: Below(m, n, key)
    case Some(x) => x in c && !Below(m, x, key) && forall n | n in c && !Below(m, n, key) :: n == x || KeyLess(m, x, n)
  }

  lemma {:induction false} SuccessorIsLeast(m: Memory, l: nat, c: seq<Node>, key: Key, x: Node)
    requires |m.keys| == |m.next| && LevelOk(m, l, c) && x in c && Below(m, x, key) && HasLevel(m, x, l)
    requires !LinkAfter(m, key, m.next[x][l])
    ensures LeastAtOrAfter(m, c, key, m.next[x][l])
  {
    var i :| 0 <= i < |c| && c[i] == x;
    assert LinkOk(m, l, c, i);
    forall n | n in c && !Below(m, n, key) ensures i + 1 < |c| && (n == c[i + 1] || KeyLess(m, c[i + 1], n)) {
      var j :| 0 <= j < |c| && c[j] == n;
      assert j > i;
    }
    if i + 1 < |c| {
      assert c[i + 1] in c;
    }
  }

  // ---- Readers ---------------------------------------------------------------------------

  datatype Reader = Reading(key: Key, x: Node, level: nat) | Done(key: Key, result: Option<Node>)

  predicate ReaderInv(m: Memory, ch: Chains, r: Reader) {
    r.Reading? ==> r.level < |ch| && r.x in ch[r.level] && Below(m, r.x, r.key)
  }

  /** A search starts at the head on the level read from max_height_. */
  function StartRead(m: Memory, key: Key): Reader
    requires m.maxHeight > 0
  {
    Reading(key, 0, m.maxHeight - 1)
  }

  /** One iteration of FindGreaterOrEqual: a single link is read. */
  function ReadStep(m: Memory, r: Reader): Reader
    requires r.Reading? && HasLevel(m, r.x, r.level)
  {
    var next := m.next[r.x][r.level];
    if LinkAfter(m, r.key, next) then Reading(r.key, next.value, r.level)
    else if r.level == 0 then Done(r.key, next)
    else Reading(r.key, r.x, r.level - 1)
  }

  lemma {:induction false} StartReadInv(m: Memory, ch: Chains, key: Key)
    requires MemoryInv(m, ch)
    ensures ReaderInv(m, ch, StartRead(m, key))
  {
    assert LevelOk(m, m.maxHeight - 1, ch[m.maxHeight - 1]);
  }

  lemma {:induction false} ReaderHasLink(m: Memory, ch: Chains, r: Reader)
    requires MemoryInv(m, ch) && ReaderInv(m, ch, r) && r.Reading?
    ensures HasLevel(m, r.x, r.level)
  {
    var c := ch[r.level];
    assert LevelOk(m, r.level, c);
    var i :| 0 <= i < |c| && c[i] == r.x;
    assert LinkOk(m, r.level, c, i);
  }

  /** A read keeps the reader on the level's list before its key; its last read yields the least node at or after it. */
  lemma {:induction false} ReadStepCorrect(m: Memory, ch: Chains, r: Reader)
    requires MemoryInv(m, ch) && ReaderInv(m, ch, r) && r.Reading? && HasLevel(m, r.x, r.level)
    ensures ReaderInv(m, ch, ReadStep(m, r))
    ensures ReadStep(m, r).Done? ==> LeastAtOrAfter(m, ch[0], r.key, ReadStep(m, r).result)
  {
    var c := ch[r.level];
    assert LevelOk(m, r.level, c);
    var i :| 0 <= i < |c| && c[i] == r.x;
    assert LinkOk(m, r.level, c, i);
    if LinkAfter(m, r.key, m.next[r.x][r.level]) {
      assert c[i + 1] in c;
    } else if r.level == 0 {
      SuccessorIsLeast(m, 0, c, r.key, r.x);
    } else {
      assert SubChain(ch[r.level - 1 + 1], ch[r.level - 1]);
    }
  }

  predicate Between(m: Memory, x: Node, n: Node, key: Key) {
    n != 0 && n < |m.keys| && m.keys[n] < key && (x == 0 || KeyLess(m, x, n))
  }

  /** How many nodes of the list lie strictly between the reader and its key. */
  function CountBetween(m: Memory, c: seq<Node>, x: Node, key: Key): nat {
    if c == [] then 0 else (if Between(m, x, c[0], key) then 1 else 0) + CountBetween(m, c[1..], x, key)
  }

  lemma {:induction false} CountBetweenFalls(m: Memory, c: seq<Node>, x: Node, x': Node, key: Key)
    requires Between(m, x, x', key)
    ensures CountBetween(m, c, x', key) <= CountBetween(m, c, x, key)
    ensures x' in c ==> CountBetween(m, c, x', key) < CountBetween(m, c, x, key)
  {
    if c != [] {
      assert c == [c[0]] + c[1..];
      CountBetweenFalls(m, c[1..], x, x', key);
    }
  }

  lemma {:induction false} CountBetweenInsert(m: Memory, c: seq<Node>, p: nat, n: Node, x: Node, key: Key)
    requires p <= |c|
    ensures CountBetween(m, c[..p] + [n] + c[p..], x, key) <= CountBetween(m, c, x, key) + 1
  {
    if p == 0 {
      assert c[..0] + [n] + c[0..] == [n] + c;
    } else {
      CountBetweenInsert(m, c[1..], p - 1, n, x, key);
      assert (c[..p] + [n] + c[p..])[1..] == c[1..][..p - 1] + [n] + c[1..][p - 1..];
    }
  }

  /** A bound on the reads a search still makes if nothing more is inserted. */
  function Rank(m: Memory, ch: Chains, r: Reader): nat
    requires |ch| > 0
  {
    if r.Done? then 0 else CountBetween(m, ch[0], r.x, r.key) + r.level + 1
  }

  lemma {:induction false} InBottom(m: Memory, ch: Chains, l: nat, n: Node)
    requires MemoryInv(m, ch) && l < MAX_HEIGHT && n in ch[l]
    ensures n in ch[0]
  {
    if l > 0 {
      assert SubChain(ch[l - 1 + 1], ch[l - 1]);
      InBottom(m, ch, l - 1, n);
    }
  }

  /** Every read makes progress. */
  lemma {:induction false} ReadStepProgress(m: Memory, ch: Chains, r: Reader)
    requires MemoryInv(m, ch) && ReaderInv(m, ch, r) && r.Reading? && HasLevel(m, r.x, r.level)
    ensures Rank(m, ch, ReadStep(m, r)) < Rank(m, ch, r)
  {
    var c := ch[r.level];
    assert LevelOk(m, r.level, c);
    var i :| 0 <= i < |c| && c[i] == r.x;
    assert LinkOk(m, r.level, c, i);
    var next := m.next[r.x][r.level];
    if LinkAfter(m, r.key, next) {
      assert c[i + 1] == next.value && next.value in c;
      assert Between(m, r.x, next.value, r.key);
      InBottom(m, ch, r.level, next.value);
      CountBetweenFalls(m, ch[0], r.x, next.value, r.key);
    }
  }

  // ---- The writer ------------------------------------------------------------------------

  /**
   An insertion in progress. `Located` has filled prev[] up to the new node's height; `Linking`
   has allocated the node and linked it below `level`; `ready` once its own link is set there.
   */
  datatype Writer =
    | Idle
    | Located(key: Key, prev: seq<Node>)
    | Raised(key: Key, prev: seq<Node>)
    | Linking(node: Node, prev: seq<Node>, level: nat, ready: bool)

  datatype System = System(m: Memory, ch: Chains, w: Writer)

  /** `n` is the last node of its level's list before `key`, and no listed node has the key. */
  predicate IsPrev(m: Memory, l: nat, c: seq<Node>, key: Key, n: Node) {
    && n in c && Below(m, n, key) && HasLevel(m, n, l)
    && (m.next[n][l].Some? ==> m.next[n][l].value < |m.keys| && key < m.keys[m.next[n][l].value])
  }

  predicate PrevsFrom(m: Memory, ch: Chains, from: nat, key: Key, prev: seq<Node>) {
    |ch| == MAX_HEIGHT && 1 <= |prev| <= MAX_HEIGHT
      && forall l | from <= l < |prev| :: IsPrev(m, l, ch[l], key, prev[l])
  }

  /** The node is linked on the levels below `level` only, and has a slot for each of its levels. */
  predicate LinkedBelow(m: Memory, ch: Chains, node: Node, height: nat, level: nat) {
    && 0 < node < |m.next| == |m.keys| && |m.next[node]| == height && level <= height <= MAX_HEIGHT
       && |ch| == MAX_HEIGHT
    && (forall l | 0 <= l < level :: node in ch[l])
    && (forall l | level <= l < MAX_HEIGHT :: node !in ch[l])
  }

  predicate WriterInv(s: System) {
    match s.w
    case Idle => true
    case Located(key, prev) => PrevsFrom(s.m, s.ch, 0, key, prev)
    case Raised(key, prev) => PrevsFrom(s.m, s.ch, 0, key, prev) && |prev| <= s.m.maxHeight
    case Linking(node, prev, level, ready) =>
      && LinkedBelow(s.m, s.ch, node, |prev|, level) && |prev| <= s.m.maxHeight
      && PrevsFrom(s.m, s.ch, level, s.m.keys[node], prev)
      && (ready ==> level < |prev| && s.m.next[node][level] == s.m.next[prev[level]][level])
  }

  predicate SystemInv(s: System) { MemoryInv(s.m, s.ch) && WriterInv(s) }

  function SetNext(m: Memory, n: Node, l: nat, link: Option<Node>): Memory
    requires HasLevel(m, n, l)
  {
    m.(next := m.next[n := m.next[n][l := link]])
  }

  function InsertAfter(c: seq<Node>, p: Node, n: Node): (r: seq<Node>)
    requires p in c
  {
    if c[0] == p then [p, n] + c[1..] else [c[0]] + InsertAfter(c[1..], p, n)
  }

  /** One store or local action of Insert. */
  datatype Action = Locate(key: Key, prev: seq<Node>) | Raise | Allocate | SetOwn | Publish | Finish

  predicate Enabled(s: System, a: Action) {
    match a
    case Locate(key, prev) => s.w.Idle? && PrevsFrom(s.m, s.ch, 0, key, prev)
    case Raise => s.w.Located?
    case Allocate => s.w.Raised?
    case SetOwn => s.w.Linking? && s.w.level < |s.w.prev| && !s.w.ready
    case Publish => s.w.Linking? && s.w.ready
    case Finish => s.w.Linking? && s.w.level == |s.w.prev|
  }

  function Act(s: System, a: Action): System
    requires SystemInv(s) && Enabled(s, a)
  {
    match a
    case Locate(key, prev) => s.(w := Located(key, prev))
    case Raise =>
      var h := if |s.w.prev| > s.m.maxHeight then |s.w.prev| else s.m.maxHeight;
      System(s.m.(maxHeight := h), s.ch, Raised(s.w.key, s.w.prev))
    case Allocate =>
      var links := seq(|s.w.prev|, _ => None);
      System(s.m.(keys := s.m.keys + [s.w.key], next := s.m.next + [links]), s.ch, Linking(|s.m.keys|, s.w.prev, 0,
          false))
    case SetOwn =>
      var w := s.w;
      System(SetNext(s.m, w.node, w.level, s.m.next[w.prev[w.level]][w.level]), s.ch, w.(ready := true))
    case Publish =>
      var w := s.w;
      System(SetNext(s.m, w.prev[w.level], w.level, Some(w.node)),
             s.ch[w.level := InsertAfter(s.ch[w.level], w.prev[w.level], w.node)],
             w.(level := w.level + 1, ready := false))
    case Finish => s.(w := Idle)
  }

  lemma {:induction false} ChainNodesDiffer(m: Memory, l: nat, c: seq<Node>, i: nat, j: nat)
    requires LevelOk(m, l, c) && i < j < |c|
    ensures c[i] != c[j]
  {
  }

  lemma {:induction false} InsertAfterAt(c: seq<Node>, i: nat, n: Node)
    requires i < |c| && forall j | 0 <= j < i :: c[j] != c[i]
    ensures InsertAfter(c, c[i], n) == c[..i + 1] + [n] + c[i + 1..]
  {
    if i > 0 {
      InsertAfterAt(c[1..], i - 1, n);
    }
  }

  /** A store to a node or level that the list does not use leaves it alone. */
  lemma {:induction false} OtherStoreKeepsLevel(m: Memory, l: nat, c: seq<Node>, n: Node, k: nat, link: Option<Node>)
    requires LevelOk(m, l, c) && HasLevel(m, n, k) && (l != k || n !in c)
    ensures LevelOk(SetNext(m, n, k, link), l, c)
  {
    var m' := SetNext(m, n, k, link);
    forall i | 0 <= i < |c| ensures LinkOk(m', l, c, i) {
      assert LinkOk(m, l, c, i) && c[i] in c;
    }
  }

  lemma {:induction false} OtherStoreKeepsPrev(m: Memory, l: nat, c: seq<Node>, key: Key, p: Node, n: Node, k: nat,
                                               link: Option<Node>)
    requires IsPrev(m, l, c, key, p) && HasLevel(m, n, k) && (l != k || n != p)
    ensures IsPrev(SetNext(m, n, k, link), l, c, key, p)
  {
  }

  /** The publishing store splices the node into its level's list at the sorted place. */
  lemma {:induction false} PublishSplices(m: Memory, l: nat, c: seq<Node>, p: Node, node: Node)
    requires |m.keys| == |m.next| && LevelOk(m, l, c) && HasLevel(m, node, l) && node !in c && 0 < node
    requires IsPrev(m, l, c, m.keys[node], p) && m.next[node][l] == m.next[p][l]
    ensures LevelOk(SetNext(m, p, l, Some(node)), l, InsertAfter(c, p, node))
    ensures forall n :: n in InsertAfter(c, p, node) <==> n in c || n == node
  {
    var i :| 0 <= i < |c| && c[i] == p;
    assert LinkOk(m, l, c, i);
    forall j, k | 0 <= j < k < |c| ensures c[j] != c[k] { ChainNodesDiffer(m, l, c, j, k); }
    InsertAfterAt(c, i, node);
    SplicedMembers(c, i, node);
    SplicedChain(m, l, c, i, node);
    SplicedSorted(m.keys, c, i, node);
  }

  lemma {:induction false} SplicedMembers(c: seq<Node>, i: nat, node: Node)
    requires i < |c|
    ensures forall n :: n in c[..i + 1] + [node] + c[i + 1..] <==> n in c || n == node
  {
    assert c == c[..i + 1] + c[i + 1..];
  }

  lemma {:induction false} SplicedChain(m: Memory, l: nat, c: seq<Node>, i: nat, node: Node)
    requires IsChain(m, l, c) && i < |c| && LinkOk(m, l, c, i) && HasLevel(m, node, l) && node !in c
    requires forall j, k | 0 <= j < k < |c| :: c[j] != c[k]
    requires m.next[node][l] == m.next[c[i]][l]
    ensures IsChain(SetNext(m, c[i], l, Some(node)), l, c[..i + 1] + [node] + c[i + 1..])
  {
    var m', c' := SetNext(m, c[i], l, Some(node)), c[..i + 1] + [node] + c[i + 1..];
    assert c'[0] == c[0];
    assert LinkOk(m, l, c, i) && c[i] != node;
    forall j | 0 <= j < |c'| ensures LinkOk(m', l, c', j) {
      if j <= i {
        assert c'[j] == c[j] && LinkOk(m, l, c, j);
        assert j < i ==> c'[j + 1] == c[j + 1];
      } else if j == i + 1 {
        assert j + 1 < |c'| ==> c'[j + 1] == c[i + 1];
      } else {
        assert c'[j] == c[j - 1] && LinkOk(m, l, c, j - 1) && c[j - 1] != c[i];
        assert j + 1 < |c'| ==> c'[j + 1] == c[j];
      }
    }
  }

  lemma {:induction false} SplicedSorted(keys: seq<Key>, c: seq<Node>, i: nat, node: Node)
    requires SortedChain(keys, c) && i < |c| && 0 < node < |keys|
    requires i == 0 || keys[c[i]] < keys[node]
    requires i + 1 < |c| ==> keys[node] < keys[c[i + 1]]
    ensures SortedChain(keys, c[..i + 1] + [node] + c[i + 1..])
  {
    var c' := c[..i + 1] + [node] + c[i + 1..];
    assert forall j | 0 <= j <= i :: c'[j] == c[j];
    assert forall j | i + 2 <= j < |c'| :: c'[j] == c[j - 1];
    assert c'[i + 1] == node;
    forall a, b | 1 <= a < b < |c'| ensures keys[c'[a]] < keys[c'[b]] {
      if b == i + 1 {
        assert a == i || keys[c[a]] < keys[c[i]];
      } else if a == i + 1 {
        assert b == i + 2 || keys[c[i + 1]] < keys[c[b - 1]];
      }
    }
  }

  lemma {:induction false} AllocateKeepsInv(s: System)
    requires SystemInv(s) && Enabled(s, Allocate)
    ensures SystemInv(Act(s, Allocate))
  {
    var s' := Act(s, Allocate);
    var node := |s.m.keys|;
    forall l | 0 <= l < MAX_HEIGHT ensures LevelOk(s'.m, l, s.ch[l]) && node !in s.ch[l] {
      assert LevelOk(s.m, l, s.ch[l]);
      forall i | 0 <= i < |s.ch[l]| ensures LinkOk(s'.m, l, s.ch[l], i)
        && s.ch[l][i] < node { assert LinkOk(s.m, l, s.ch[l], i); }
    }
    forall l | 0 <= l < |s.w.prev| ensures IsPrev(s'.m, l, s.ch[l], s.w.key, s.w.prev[l]) {
      assert IsPrev(s.m, l, s.ch[l], s.w.key, s.w.prev[l]);
    }
    assert LevelOk(s.m, 0, s.ch[0]) && LinkOk(s.m, 0, s.ch[0], 0);
  }

  lemma {:induction false} SetOwnKeepsInv(s: System)
    requires SystemInv(s) && Enabled(s, SetOwn)
    ensures SystemInv(Act(s, SetOwn))
  {
    var s', w := Act(s, SetOwn), s.w;
    var link := s.m.next[w.prev[w.level]][w.level];
    forall l | 0 <= l < MAX_HEIGHT ensures LevelOk(s'.m, l, s.ch[l]) {
      OtherStoreKeepsLevel(s.m, l, s.ch[l], w.node, w.level, link);
    }
    forall l | w.level <= l < |w.prev| ensures IsPrev(s'.m, l, s.ch[l], s.m.keys[w.node], w.prev[l]) {
      assert IsPrev(s.m, l, s.ch[l], s.m.keys[w.node], w.prev[l]);
      OtherStoreKeepsPrev(s.m, l, s.ch[l], s.m.keys[w.node], w.prev[l], w.node, w.level, link);
    }
  }

  lemma {:induction false} PublishKeepsMemory(s: System)
    requires SystemInv(s) && Enabled(s, Publish)
    ensures MemoryInv(Act(s, Publish).m, Act(s, Publish).ch)
    ensures forall n :: n in Act(s, Publish).ch[s.w.level] <==> n in s.ch[s.w.level] || n == s.w.node
  {
    var s', w := Act(s, Publish), s.w;
    var p, k := w.prev[w.level], w.level;
    assert IsPrev(s.m, k, s.ch[k], s.m.keys[w.node], p);
    assert LevelOk(s.m, k, s.ch[k]);
    PublishSplices(s.m, k, s.ch[k], p, w.node);
    forall l | 0 <= l < MAX_HEIGHT ensures LevelOk(s'.m, l, s'.ch[l]) {
      if l != k {
        OtherStoreKeepsLevel(s.m, l, s.ch[l], p, k, Some(w.node));
      }
    }
    forall l | 0 <= l < MAX_HEIGHT - 1 ensures SubChain(s'.ch[l + 1], s'.ch[l]) {
      assert SubChain(s.ch[l + 1], s.ch[l]);
    }
  }

  lemma {:induction false} PublishKeepsInv(s: System)
    requires SystemInv(s) && Enabled(s, Publish)
    ensures SystemInv(Act(s, Publish))
  {
    PublishKeepsMemory(s);
    var s', w := Act(s, Publish), s.w;
    forall l | w.level + 1 <= l < |w.prev| ensures IsPrev(s'.m, l, s'.ch[l], s.m.keys[w.node], w.prev[l]) {
      assert IsPrev(s.m, l, s.ch[l], s.m.keys[w.node], w.prev[l]);
      OtherStoreKeepsPrev(s.m, l, s.ch[l], s.m.keys[w.node], w.prev[l], w.prev[w.level], w.level, Some(w.node));
    }
  }

  /** Every single store of Insert keeps all lists sorted and nested. */
  lemma {:induction false} ActKeepsInv(s: System, a: Action)
    requires SystemInv(s) && Enabled(s, a)
    ensures SystemInv(Act(s, a))
  {
    match a
    case Allocate => AllocateKeepsInv(s);
    case SetOwn => SetOwnKeepsInv(s);
    case Publish => PublishKeepsInv(s);
    case Raise =>
      forall l | 0 <= l < MAX_HEIGHT ensures LevelOk(Act(s, a).m, l, s.ch[l]) {
        assert LevelOk(s.m, l, s.ch[l]);
        forall i | 0 <= i < |s.ch[l]| ensures LinkOk(Act(s, a).m, l, s.ch[l], i) { assert LinkOk(s.m, l, s.ch[l], i); }
      }
      forall l | 0 <= l < |s.w.prev| ensures IsPrev(Act(s, a).m, l, s.ch[l], s.w.key, s.w.prev[l]) {
        assert IsPrev(s.m, l, s.ch[l], s.w.key, s.w.prev[l]);
      }
    case Locate(key, prev) =>
    case Finish =>
  }

  // ---- Interleavings of the writer with a reader -----------------------------------------

  /** No action of the writer disturbs a reader or costs it more than one extra read. */
  lemma {:induction false} ActKeepsReader(s: System, a: Action, r: Reader)
    requires SystemInv(s) && Enabled(s, a) && ReaderInv(s.m, s.ch, r)
    ensures ReaderInv(Act(s, a).m, Act(s, a).ch, r)
    ensures Rank(Act(s, a).m, Act(s, a).ch, r) <= Rank(s.m, s.ch, r) + if a.Publish? && s.w.level == 0 then 1 else 0
  {
    var s' := Act(s, a);
    if r.Reading? {
      assert LevelOk(s.m, 0, s.ch[0]) && LevelOk(s.m, r.level, s.ch[r.level]);
      if a.Publish? {
        PublishKeepsMemory(s);
        if s.w.level == 0 {
          PublishCost(s, r);
        }
        SameCount(s.m, s'.m, s'.ch[0], r.x, r.key);
      } else {
        ReaderHasLink(s.m, s.ch, r);
        forall n | n in s.ch[0] ensures n < |s.m.keys| {
          var i :| 0 <= i < |s.ch[0]| && s.ch[0][i] == n;
          assert LinkOk(s.m, 0, s.ch[0], i);
        }
        SameCount(s.m, s'.m, s.ch[0], r.x, r.key);
      }
    }
  }

  lemma {:induction false} SameCount(m: Memory, m': Memory, c: seq<Node>, x: Node, key: Key)
    requires m.keys <= m'.keys && x < |m.keys| && forall n | n in c :: n < |m.keys|
    ensures CountBetween(m', c, x, key) == CountBetween(m, c, x, key)
  {
    if c != [] {
      assert c[0] in c && forall n | n in c[1..] :: n in c;
      SameCount(m, m', c[1..], x, key);
    }
  }

  lemma {:induction false} PublishCost(s: System, r: Reader)
    requires SystemInv(s) && Enabled(s, Publish) && s.w.level == 0
    ensures CountBetween(s.m, Act(s, Publish).ch[0], r.x, r.key) <= CountBetween(s.m, s.ch[0], r.x, r.key) + 1
    requires r.Reading?
  {
    var c, p := s.ch[0], s.w.prev[0];
    assert IsPrev(s.m, 0, c, s.m.keys[s.w.node], p) && LevelOk(s.m, 0, c);
    var i :| 0 <= i < |c| && c[i] == p;
    forall j | 0 <= j < i ensures c[j] != c[i] { ChainNodesDiffer(s.m, 0, c, j, i); }
    InsertAfterAt(c, i, s.w.node);
    CountBetweenInsert(s.m, c, i + 1, s.w.node, r.x, r.key);
  }

  /** An event is one action of the writer or one read of the reader. */
  datatype Event = Write(a: Action) | Read

  datatype Moment = Moment(s: System, r: Reader)

  predicate Follows(x: Moment, e: Event, y: Moment)
    requires SystemInv(x.s)
  {
    match e
    case Write(a) => Enabled(x.s, a) && y == Moment(Act(x.s, a), x.r)
    case Read => x.r.Reading? && HasLevel(x.s.m, x.r.x, x.r.level) && y == Moment(x.s, ReadStep(x.s.m, x.r))
  }

  ghost predicate IsRun(run: seq<Moment>, events: seq<Event>) {
    && |run| == |events| + 1
    && SystemInv(run[0].s) && ReaderInv(run[0].s.m, run[0].s.ch, run[0].r)
    && (forall i | 0 <= i < |events| :: SystemInv(run[i].s) ==> Follows(run[i], events[i], run[i + 1]))
  }

  function Reads(events: seq<Event>, n: nat): nat
    requires n <= |events|
  {
    if n == 0 then 0 else Reads(events, n - 1) + if events[n - 1].Read? then 1 else 0
  }

  ghost function BottomLinks(run: seq<Moment>, events: seq<Event>, n: nat): nat
    requires |run| == |events| + 1 && n <= |events|
  {
    if n == 0 then 0
    else
      var linked := events[n - 1].Write? && events[n - 1].a.Publish? && run[n - 1].s.w.Linking?
        && run[n - 1].s.w.level == 0;
      BottomLinks(run, events, n - 1) + if linked then 1 else 0
  }

  /**
   Along every interleaving of stores and reads: the lists stay sorted and nested; the search
   makes at most its initial bound of reads plus one per node linked meanwhile; and the read
   that ends it returns the least node at or after the key in the bottom list of that moment.
   */
  lemma {:induction false} SearchUnderInsert(run: seq<Moment>, events: seq<Event>, n: nat)
    requires IsRun(run, events) && n <= |events|
    ensures SystemInv(run[n].s) && ReaderInv(run[n].s.m, run[n].s.ch, run[n].r)
    ensures Reads(events, n) + Rank(run[n].s.m, run[n].s.ch, run[n].r)
            <= Rank(run[0].s.m, run[0].s.ch, run[0].r) + BottomLinks(run, events, n)
    ensures n > 0 && events[n - 1].Read? && run[n].r.Done? ==>
              LeastAtOrAfter(run[n].s.m, run[n].s.ch[0], run[n].r.key, run[n].r.result)
  {
    if n > 0 {
      SearchUnderInsert(run, events, n - 1);
      var x, e := run[n - 1], events[n - 1];
      assert Follows(x, e, run[n]);
      match e
      case Write(a) =>
        ActKeepsInv(x.s, a);
        ActKeepsReader(x.s, a, x.r);
      case Read =>
        ReadStepCorrect(x.s.m, x.s.ch, x.r);
        ReadStepProgress(x.s.m, x.s.ch, x.r);
    }
  }

  // ---- The list object -------------------------------------------------------------------

  /** `x` is the last node of the list before `key`; the head if there is none. */
  predicate GreatestBelow(m: Memory, c: seq<Node>, key: Key, x: Node) {
    x in c && Below(m, x, key) && forall n | n in c && n != 0 && Below(m, n, key) :: n == x || KeyLess(m, n, x)
  }

  predicate IsLast(m: Memory, c: seq<Node>, x: Node) {
    x in c && forall n | n in c && n != 0 :: n == x || KeyLess(m, n, x)
  }

  lemma {:induction false} StopIsGreatestBelow(m: Memory, l: nat, c: seq<Node>, key: Key, x: Node)
    requires |m.keys| == |m.next| && LevelOk(m, l, c) && x in c && Below(m, x, key) && HasLevel(m, x, l)
    requires !LinkAfter(m, key, m.next[x][l])
    ensures GreatestBelow(m, c, key, x)
  {
    var i :| 0 <= i < |c| && c[i] == x;
    assert LinkOk(m, l, c, i);
    forall n | n in c && n != 0 && Below(m, n, key) ensures n == x || KeyLess(m, n, x) {
      var j :| 0 <= j < |c| && c[j] == n;
    }
  }

  lemma {:induction false} NilIsLast(m: Memory, l: nat, c: seq<Node>, x: Node)
    requires |m.keys| == |m.next| && LevelOk(m, l, c) && x in c && HasLevel(m, x, l) && m.next[x][l] == None
    ensures IsLast(m, c, x)
  {
    var i :| 0 <= i < |c| && c[i] == x;
    assert LinkOk(m, l, c, i);
    forall n | n in c && n != 0 ensures n == x || KeyLess(m, n, x) {
      var j :| 0 <= j < |c| && c[j] == n;
    }
  }

  /** Where a search stops on a level is where a new key is linked, unless the key is there already. */
  lemma {:induction false} StopIsPrev(m: Memory, l: nat, c: seq<Node>, key: Key, x: Node)
    requires |m.keys| == |m.next| && LevelOk(m, l, c) && x in c && Below(m, x, key) && HasLevel(m, x, l)
    requires !LinkAfter(m, key, m.next[x][l]) && forall n | n in c && n != 0 :: n < |m.keys| && m.keys[n] != key
    ensures IsPrev(m, l, c, key, x)
  {
    var i :| 0 <= i < |c| && c[i] == x;
    assert LinkOk(m, l, c, i);
    if i + 1 < |c| {
      assert c[i + 1] in c;
    }
  }

  class List {
    var m: Memory
    ghost var ch: Chains

    ghost predicate Valid()
      reads this
    {
      MemoryInv(m, ch)
    }

    /** The nodes of the bottom list, head first. */
    ghost function Bottom(): seq<Node>
      reads this
      requires Valid()
    {
      ch[0]
    }

    constructor ()
      ensures Valid() && Bottom() == [0] && m.maxHeight == 1
    {
      m := Memory([0.0], [seq(MAX_HEIGHT, _ => None)], 1);
      ch := seq(MAX_HEIGHT, _ => [0]);
      new;
      forall l | 0 <= l < MAX_HEIGHT ensures LevelOk(m, l, ch[l]) { assert LinkOk(m, l, ch[l], 0); }
    }

    /** The first node at or after `key`; `prev` holds the node where the search left each level. */
    method FindGreaterOrEqual(key: Key) returns (r: Option<Node>, prev: seq<Node>)
      requires Valid()
      ensures LeastAtOrAfter(m, Bottom(), key, r)
      ensures |prev| == m.maxHeight
      ensures forall l | 0 <= l < |prev| ::
                prev[l] in ch[l] && Below(m, prev[l], key) && HasLevel(m, prev[l], l)
                  && !LinkAfter(m, key, m.next[prev[l]][l])
    {
      var x: Node, level: nat := 0, m.maxHeight - 1;
      prev := seq(m.maxHeight, _ => 0);
      StartReadInv(m, ch, key);
      while true
        invariant 0 <= level < m.maxHeight == |prev| && ReaderInv(m, ch, Reading(key, x, level))
        invariant forall l | level < l < |prev| ::
                    prev[l] in ch[l] && Below(m, prev[l], key) && HasLevel(m, prev[l], l)
                      && !LinkAfter(m, key, m.next[prev[l]][l])
        decreases Rank(m, ch, Reading(key, x, level))
      {
        ReaderHasLink(m, ch, Reading(key, x, level));
        ReadStepCorrect(m, ch, Reading(key, x, level));
        ReadStepProgress(m, ch, Reading(key, x, level));
        var next := m.next[x][level];
        if LinkAfter(m, key, next) {
          x := next.value;
        } else {
          prev := prev[level := x];
          if level == 0 {
            return next, prev;
          }
          level := level - 1;
        }
      }
    }

    method Contains(key: Key) returns (b: bool)
      requires Valid()
      ensures b == exists n | n in Bottom() && n != 0 && n < |m.keys| :: m.keys[n] == key
    {
      var x, _ := FindGreaterOrEqual(key);
      b := x.Some? && x.value < |m.keys| && m.keys[x.value] == key;
    }

    /** The last node before `key`, by the same descent: what Iterator::Prev uses. */
    method FindLessThan(key: Key) returns (x: Node)
      requires Valid()
      ensures GreatestBelow(m, Bottom(), key, x)
    {
      var level := m.maxHeight - 1;
      x := 0;
      StartReadInv(m, ch, key);
      while true
        invariant 0 <= level < MAX_HEIGHT && ReaderInv(m, ch, Reading(key, x, level))
        decreases Rank(m, ch, Reading(key, x, level))
      {
        ReaderHasLink(m, ch, Reading(key, x, level));
        ReadStepCorrect(m, ch, Reading(key, x, level));
        ReadStepProgress(m, ch, Reading(key, x, level));
        var next := m.next[x][level];
        if !LinkAfter(m, key, next) {
          if level == 0 {
            assert LevelOk(m, 0, ch[0]);
            StopIsGreatestBelow(m, 0, ch[0], key, x);
            return;
          }
          level := level - 1;
        } else {
          x := next.value;
        }
      }
    }

    /** The last node of the list, or the head when it is empty. */
    method FindLast() returns (x: Node)
      requires Valid()
      ensures IsLast(m, Bottom(), x)
    {
      var level := m.maxHeight - 1;
      x := 0;
      ghost var pos := 0;
      assert LevelOk(m, level, ch[level]);
      while true
        invariant 0 <= level < MAX_HEIGHT && pos < |ch[level]| && ch[level][pos] == x
        decreases level, |ch[level]| - pos
      {
        assert LevelOk(m, level, ch[level]) && LinkOk(m, level, ch[level], pos);
        var next := m.next[x][level];
        if next == None {
          if level == 0 {
            NilIsLast(m, 0, ch[0], x);
            return;
          }
          assert SubChain(ch[level - 1 + 1], ch[level - 1]) && x in ch[level];
          level := level - 1;
          pos :| 0 <= pos < |ch[level]| && ch[level][pos] == x;
        } else {
          x, pos := next.value, pos + 1;
        }
      }
    }

    /** The actions of one insertion, each a single store, in the order Insert makes them. */
    method Insert(key: Key, height: nat)
      requires Valid() && 1 <= height <= MAX_HEIGHT
      requires forall n | n in Bottom() && n != 0 :: n < |m.keys| && m.keys[n] != key
      modifies this
      ensures Valid() && m.keys == old(m.keys) + [key]
      ensures forall n :: n in Bottom() <==> n in old(Bottom()) || n == old(|m.keys|)
    {
      var _, prev := FindGreaterOrEqual(key);
      ghost var found := prev;
      prev := PadPrev(prev, height);
      PrevsFound(m, ch, key, found, prev, height);
      ghost var s := System(m, ch, Located(key, prev));
      ActKeepsInv(s, Raise);
      s := Act(s, Raise);
      if height > m.maxHeight {
        m := m.(maxHeight := height);
      }
      var node := |m.keys|;
      ActKeepsInv(s, Allocate);
      s := Act(s, Allocate);
      m := m.(keys := m.keys + [key], next := m.next + [seq(height, _ => None)]);
      var i := 0;
      while i < height
        invariant 0 <= i <= height && SystemInv(s) && s.m == m && s.w == Linking(node, prev, i, false)
        invariant m.keys == old(m.keys) + [key]
        invariant forall n :: n in s.ch[0] <==> n in old(ch)[0] || (i > 0 && n == node)
      {
        s := LinkLevel(node, prev, i, s);
        i := i + 1;
      }
      ch := s.ch;
    }

    /** The two stores that link the node on one level: its own link first, then its predecessor's. */
    method LinkLevel(node: Node, prev: seq<Node>, i: nat, ghost s: System) returns (ghost t: System)
      requires SystemInv(s) && s.m == m && i < |prev| && s.w == Linking(node, prev, i, false)
      modifies this`m
      ensures SystemInv(t) && t.m == m && t.w == Linking(node, prev, i + 1, false) && m.keys == old(m.keys)
      ensures forall n :: n in t.ch[0] <==> n in s.ch[0] || (i == 0 && n == node)
    {
      ActKeepsInv(s, SetOwn);
      t := Act(s, SetOwn);
      m := SetNext(m, node, i, m.next[prev[i]][i]);
      ActKeepsInv(t, Publish);
      PublishKeepsMemory(t);
      t := Act(t, Publish);
      m := SetNext(m, prev[i], i, Some(node));
    }
  }

  /** Levels above the old maximum start at the head; levels the node does not reach are ignored. */
  method PadPrev(prev: seq<Node>, height: nat) returns (r: seq<Node>)
    ensures |r| == height
    ensures forall l | 0 <= l < height :: r[l] == if l < |prev| then prev[l] else 0
  {
    r := seq(height, l requires 0 <= l < height => if l < |prev| then prev[l] else 0);
  }

  lemma {:induction false} PrevsFound(m: Memory, ch: Chains, key: Key, found: seq<Node>, prev: seq<Node>, height: nat)
    requires MemoryInv(m, ch) && 1 <= height <= MAX_HEIGHT && |found| == m.maxHeight && |prev| == height
    requires forall l | 0 <= l < |found| ::
               found[l] in ch[l] && Below(m, found[l], key) && HasLevel(m, found[l], l)
                 && !LinkAfter(m, key, m.next[found[l]][l])
    requires forall l | 0 <= l < height :: prev[l] == if l < |found| then found[l] else 0
    requires forall n | n in ch[0] && n != 0 :: n < |m.keys| && m.keys[n] != key
    ensures PrevsFrom(m, ch, 0, key, prev)
  {
    forall l | 0 <= l < height ensures IsPrev(m, l, ch[l], key, prev[l]) {
      assert LevelOk(m, l, ch[l]);
      forall n | n in ch[l] && n != 0 ensures n < |m.keys| && m.keys[n] != key { InBottom(m, ch, l, n); }
      assert LinkOk(m, l, ch[l], 0);
      StopIsPrev(m, l, ch[l], key, prev[l]);
    }
  }
}
