/**
 The ring buffer's coordination: any number of publishers that claim and publish sequences,
 consumers that wait on the cursor or on one another, and a set of consumers that gates the
 publishers. Every read and write of a shared sequence is one step, and steps of different
 threads interleave freely.
 */
module Disruptor {

  const INITIAL: int := -1
  const LONG_MAX: int := 0x7FFF_FFFF_FFFF_FFFF

  /** What GetMinimumSequence makes of the values it reads. */
  function MinOf(values: seq<int>): (m: int)
    ensures m <= LONG_MAX && forall i | 0 <= i < |values| :: m <= values[i]
    ensures m == LONG_MAX || m in values
  {
    if values == [] then LONG_MAX
    else
      var m := MinOf(values[..|values| - 1]);
      if m < values[|values| - 1] then m else values[|values| - 1]
  }

  method GetMinimumSequence(values: seq<int>) returns (minimum: int)
    ensures minimum == MinOf(values)
  {
    minimum := LONG_MAX;
    for i := 0 to |values|
      invariant minimum == MinOf(values[..i])
    {
      assert values[..i + 1][..i] == values[..i];
      minimum := if minimum < values[i] then minimum else values[i];
    }
    assert values[..|values|] == values;
  }

  datatype Config = Config(size: nat, gating: seq<nat>, deps: seq<seq<nat>>) {
    /** Gating and dependency indices name consumers, and a slot exists. */
    ghost predicate Ok() {
      && size >= 1
      && (forall g | g in gating :: g < |deps|)
      && (forall j, d | 0 <= j < |deps| && d in deps[j] :: d < |deps|)
    }
  }

  /**
   Claimed: the number is taken. Scanning: reading the gating sequences. Granted: the slots may be
   written. Passed: the publisher has seen the cursor at its turn, and has still to move it.
   */
  datatype Phase = Claimed | Scanning(seen: seq<int>) | Granted | Passed | Published

  datatype Claim = Claim(last: int, delta: nat, phase: Phase)

  /** `done` is the consumer's published progress, `upto` what its last wait returned. */
  datatype Consumer = Consumer(done: int, upto: int, seen: seq<int>)

  datatype State = State(claimed: int, cached: int, cursor: int, claims: seq<Claim>,
                         probes: seq<seq<int>>, consumers: seq<Consumer>)

  function Init(c: Config): State {
    State(INITIAL, INITIAL, INITIAL, [], [], seq(|c.deps|, _ => Consumer(INITIAL, INITIAL, [])))
  }

  datatype Step =
    | Take(delta: nat)
    | UseCached(i: nat)
    | Read(i: nat)
    | Decide(i: nat)
    | Pass(i: nat)
    | Publish(i: nat)
    | Probe
    | ReadProbe(k: nat)
    | StoreProbe(k: nat)
    | WaitRead(j: nat)
    | WaitDecide(j: nat)
    | Advance(j: nat, v: int)

  predicate Enabled(c: Config, s: State, t: Step) {
    match t
    case Take(delta) => 1 <= delta <= c.size
    case UseCached(i) => i < |s.claims| && s.claims[i].phase.Claimed?
    case Read(i) => i < |s.claims| && s.claims[i].phase.Scanning? && |s.claims[i].phase.seen| < |c.gating|
    case Decide(i) => i < |s.claims| && s.claims[i].phase.Scanning? && |s.claims[i].phase.seen| == |c.gating|
    case Pass(i) => i < |s.claims| && s.claims[i].phase.Granted? && s.cursor >= s.claims[i].last - s.claims[i].delta
    case Publish(i) => i < |s.claims| && s.claims[i].phase.Passed?
    case Probe => true
    case ReadProbe(k) => k < |s.probes| && |s.probes[k]| < |c.gating|
    case StoreProbe(k) => k < |s.probes| && |s.probes[k]| == |c.gating|
    case WaitRead(j) => j < |s.consumers| && j < |c.deps| && |s.consumers[j].seen| < |c.deps[j]|
    case WaitDecide(j) => j < |s.consumers| && j < |c.deps| && |s.consumers[j].seen| == |c.deps[j]|
    case Advance(j, v) => j < |s.consumers| && s.consumers[j].done <= v <= s.consumers[j].upto
  }

  function DoneOf(s: State, j: nat): int { if j < |s.consumers| then s.consumers[j].done else INITIAL }

  function WithPhase(s: State, i: nat, p: Phase): State
    requires i < |s.claims|
  {
    s.(claims := s.claims[i := s.claims[i].(phase := p)])
  }

  function Apply(c: Config, s: State, t: Step): State
    requires Enabled(c, s, t)
  {
    match t
    case Take(delta) =>
      s.(claimed := s.claimed + delta, claims := s.claims + [Claim(s.claimed + delta, delta, Claimed)])
    case UseCached(i) =>
      WithPhase(s, i, if s.cached < s.claims[i].last - c.size then Scanning([]) else Granted)
    case Read(i) =>
      var seen := s.claims[i].phase.seen;
      WithPhase(s, i, Scanning(seen + [DoneOf(s, c.gating[|seen|])]))
    case Decide(i) =>
      WithPhase(s, i, if MinOf(s.claims[i].phase.seen) < s.claims[i].last - c.size then Scanning([]) else Granted)
    case Pass(i) => WithPhase(s, i, Passed)
    case Publish(i) =>
      WithPhase(s, i, Published).(cursor := s.cursor + s.claims[i].delta)
    case Probe => s.(probes := s.probes + [[]])
    case ReadProbe(k) => s.(probes := s.probes[k := s.probes[k] + [DoneOf(s, c.gating[|s.probes[k]|])]])
    case StoreProbe(k) => s.(cached := MinOf(s.probes[k]))
    case WaitRead(j) =>
      var seen := s.consumers[j].seen;
      s.(consumers := s.consumers[j := s.consumers[j].(seen := seen + [DoneOf(s, c.deps[j][|seen|])])])
    case WaitDecide(j) =>
      var x := s.consumers[j];
      var available := if c.deps[j] == [] then s.cursor else MinOf(x.seen);
      s.(consumers := s.consumers[j := x.(upto := if available < x.done + 1 then x.upto else available, seen := [])])
    case Advance(j, v) =>
      s.(consumers := s.consumers[j := s.consumers[j].(done := v)])
  }

  // ---- The invariant ----------------------------------------------------------------------

  /** The last sequence before claim `i`. */
  function Before(claims: seq<Claim>, i: nat): int
    requires i <= |claims|
  {
    if i == 0 then INITIAL else claims[i - 1].last
  }

  predicate TileAt(claims: seq<Claim>, i: nat)
    requires i < |claims|
  {
    claims[i].delta >= 1 && claims[i].last - claims[i].delta == Before(claims, i)
  }

  /** The claims tile the sequences from 0 on. */
  ghost predicate Tiled(claims: seq<Claim>, claimed: int) {
    (forall i | 0 <= i < |claims| :: TileAt(claims, i)) && claimed == Before(claims, |claims|)
  }

  predicate EndsAt(claims: seq<Claim>, k: nat, cursor: int) { k <= |claims| && Before(claims, k) == cursor }

  /** The cursor stands at the end of a run of published claims, and nothing after it is published. */
  ghost predicate CursorSound(claims: seq<Claim>, cursor: int) {
    && (exists k :: EndsAt(claims, k, cursor))
    && (forall i | 0 <= i < |claims| :: claims[i].phase.Published? <==> claims[i].last <= cursor)
  }

  /** Whoever has passed the guard finds the cursor still at its turn. */
  ghost predicate Turns(claims: seq<Claim>, cursor: int) {
    forall i | 0 <= i < |claims| && claims[i].phase.Passed? :: cursor == claims[i].last - claims[i].delta
  }

  /** The slots are the publisher's to write, or written and not yet shown. */
  predicate Held(x: Claim) { x.phase.Granted? || x.phase.Passed? }

  /** Values read earlier never exceed what the consumers have reached now. */
  ghost predicate Stale(s: State, who: seq<nat>, seen: seq<int>) {
    |seen| <= |who| && forall i | 0 <= i < |seen| :: seen[i] <= DoneOf(s, who[i])
  }

  ghost predicate BelowGating(c: Config, s: State, v: int) { forall g | g in c.gating :: v <= DoneOf(s, g) }

  ghost predicate ClaimOk(c: Config, s: State, x: Claim) {
    && x.delta <= c.size
    && (x.phase.Scanning? ==> Stale(s, c.gating, x.phase.seen))
    && (Held(x) || x.phase.Published? ==> BelowGating(c, s, x.last - c.size))
  }

  ghost predicate ConsumerOk(c: Config, s: State, j: nat)
    requires j < |s.consumers| && j < |c.deps|
  {
    var x := s.consumers[j];
    && x.done <= x.upto <= s.cursor
    && (forall d | d in c.deps[j] :: x.upto <= DoneOf(s, d))
    && Stale(s, c.deps[j], x.seen)
  }

  ghost predicate Inv(c: Config, s: State) {
    && |s.consumers| == |c.deps|
    && Tiled(s.claims, s.claimed) && CursorSound(s.claims, s.cursor) && Turns(s.claims, s.cursor)
    && BelowGating(c, s, s.cached)
    && (forall i | 0 <= i < |s.claims| :: ClaimOk(c, s, s.claims[i]))
    && (forall k | 0 <= k < |s.probes| :: Stale(s, c.gating, s.probes[k]))
    && (forall j | 0 <= j < |s.consumers| :: ConsumerOk(c, s, j))
  }

  lemma {:induction false} InitInv(c: Config)
    requires c.Ok()
    ensures Inv(c, Init(c))
  {
    assert EndsAt([], 0, INITIAL);
  }

  lemma {:induction false} BeforeGrows(claims: seq<Claim>, i: nat, j: nat)
    requires i <= j <= |claims|
    requires forall k | 0 <= k < |claims| :: TileAt(claims, k)
    ensures Before(claims, i) + (j - i) <= Before(claims, j)
  {
    if i < j {
      assert TileAt(claims, j - 1);
      BeforeGrows(claims, i, j - 1);
    }
  }

  /** The guard of the multi-threaded strategy is an equality: the publisher whose turn it is, and no other. */
  lemma {:induction false} GuardIsTurn(claims: seq<Claim>, claimed: int, cursor: int, i: nat)
    requires Tiled(claims, claimed) && CursorSound(claims, cursor) && i < |claims| && !claims[i].phase.Published?
    requires cursor >= claims[i].last - claims[i].delta
    ensures cursor == claims[i].last - claims[i].delta
  {
    var k: nat :| EndsAt(claims, k, cursor);
    assert TileAt(claims, i);
    if k > i {
      BeforeGrows(claims, i + 1, k);
    } else {
      BeforeGrows(claims, k, i);
    }
  }

  /** No two publishers are past the guard at once. */
  lemma {:induction false} OnePasses(claims: seq<Claim>, claimed: int, cursor: int, i: nat, k: nat)
    requires Tiled(claims, claimed) && Turns(claims, cursor) && i < |claims| && k < |claims|
    requires claims[i].phase.Passed? && claims[k].phase.Passed?
    ensures i == k
  {
    assert TileAt(claims, i) && TileAt(claims, k);
    if i < k {
      BeforeGrows(claims, i, k);
    } else {
      BeforeGrows(claims, k, i);
    }
  }

  // ---- Every step keeps it ----------------------------------------------------------------

  ghost predicate Grows(s: State, t: State) {
    |s.consumers| == |t.consumers| && s.cursor <= t.cursor && forall j :: DoneOf(s, j) <= DoneOf(t, j)
  }

  lemma {:induction false} ClaimsGrow(c: Config, s: State, t: State)
    requires Grows(s, t) && forall i | 0 <= i < |s.claims| :: ClaimOk(c, s, s.claims[i])
    ensures forall i | 0 <= i < |s.claims| :: ClaimOk(c, t, s.claims[i])
  {
    forall i | 0 <= i < |s.claims| ensures ClaimOk(c, t, s.claims[i]) {
      assert ClaimOk(c, s, s.claims[i]);
    }
  }

  lemma {:induction false} ProbesGrow(c: Config, s: State, t: State)
    requires Grows(s, t) && forall k | 0 <= k < |s.probes| :: Stale(s, c.gating, s.probes[k])
    ensures forall k | 0 <= k < |s.probes| :: Stale(t, c.gating, s.probes[k])
  {
    forall k | 0 <= k < |s.probes| ensures Stale(t, c.gating, s.probes[k]) {
      assert Stale(s, c.gating, s.probes[k]);
    }
  }

  lemma {:induction false} ConsumerGrows(c: Config, s: State, t: State, j: nat)
    requires Grows(s, t) && j < |s.consumers| && j < |c.deps| && ConsumerOk(c, s, j)
    requires s.consumers[j] == t.consumers[j]
    ensures ConsumerOk(c, t, j)
  {
  }

  /** A complete read of the gating sequences bounds them all from below. */
  lemma {:induction false} MinIsBelow(c: Config, s: State, seen: seq<int>)
    requires Stale(s, c.gating, seen) && |seen| == |c.gating|
    ensures BelowGating(c, s, MinOf(seen))
  {
    forall g | g in c.gating ensures MinOf(seen) <= DoneOf(s, g) {
      var i :| 0 <= i < |c.gating| && c.gating[i] == g;
      assert seen[i] <= DoneOf(s, c.gating[i]);
    }
  }

  lemma {:induction false} SameTiling(claims: seq<Claim>, claimed: int, i: nat, p: Phase)
    requires Tiled(claims, claimed) && i < |claims|
    ensures var after := claims[i := claims[i].(phase := p)];
            Tiled(after, claimed) && forall k | 0 <= k <= |claims| :: Before(after, k) == Before(claims, k)
  {
    var after := claims[i := claims[i].(phase := p)];
    forall k | 0 <= k < |after| ensures TileAt(after, k) {
      assert TileAt(claims, k);
    }
  }

  lemma {:induction false} RephaseKeepsTiling(claims: seq<Claim>, claimed: int, cursor: int, i: nat, p: Phase)
    requires Tiled(claims, claimed) && CursorSound(claims, cursor) && i < |claims|
    requires !claims[i].phase.Published? && !p.Published?
    ensures var after := claims[i := claims[i].(phase := p)]; Tiled(after, claimed) && CursorSound(after, cursor)
  {
    var after := claims[i := claims[i].(phase := p)];
    SameTiling(claims, claimed, i, p);
    var k: nat :| EndsAt(claims, k, cursor);
    assert EndsAt(after, k, cursor);
  }

  lemma {:induction false} RephaseKeepsInv(c: Config, s: State, i: nat, p: Phase)
    requires Inv(c, s) && i < |s.claims| && !s.claims[i].phase.Published? && !p.Published?
    requires ClaimOk(c, s, s.claims[i].(phase := p))
    requires p.Passed? ==> s.cursor == s.claims[i].last - s.claims[i].delta
    ensures Inv(c, WithPhase(s, i, p))
  {
    var t := WithPhase(s, i, p);
    RephaseKeepsTiling(s.claims, s.claimed, s.cursor, i, p);
    ClaimsGrow(c, s, t);
    ProbesGrow(c, s, t);
    forall j | 0 <= j < |t.consumers| ensures ConsumerOk(c, t, j) {
      ConsumerGrows(c, s, t, j);
    }
  }

  lemma {:induction false} TakeKeepsTiling(claims: seq<Claim>, claimed: int, cursor: int, delta: nat)
    requires Tiled(claims, claimed) && CursorSound(claims, cursor) && delta >= 1
    ensures var after := claims + [Claim(claimed + delta, delta, Claimed)];
            Tiled(after, claimed + delta) && CursorSound(after, cursor)
  {
    var after := claims + [Claim(claimed + delta, delta, Claimed)];
    forall k | 0 <= k < |after| ensures TileAt(after, k) {
      assert k < |claims| ==> TileAt(claims, k);
    }
    var k: nat :| EndsAt(claims, k, cursor);
    assert EndsAt(after, k, cursor);
    BeforeGrows(claims, k, |claims|);
  }

  lemma {:induction false} TakeKeepsInv(c: Config, s: State, delta: nat)
    requires Inv(c, s) && 1 <= delta <= c.size
    ensures Inv(c, Apply(c, s, Take(delta)))
  {
    var t := Apply(c, s, Take(delta));
    TakeKeepsTiling(s.claims, s.claimed, s.cursor, delta);
    ClaimsGrow(c, s, t);
    ProbesGrow(c, s, t);
    forall j | 0 <= j < |t.consumers| ensures ConsumerOk(c, t, j) {
      ConsumerGrows(c, s, t, j);
    }
  }

  lemma {:induction false} PublishKeepsCursor(claims: seq<Claim>, claimed: int, cursor: int, i: nat)
    requires Tiled(claims, claimed) && CursorSound(claims, cursor) && i < |claims| && !claims[i].phase.Published?
    requires cursor == claims[i].last - claims[i].delta
    ensures var after := claims[i := claims[i].(phase := Published)];
            Tiled(after, claimed) && CursorSound(after, cursor + claims[i].delta)
  {
    var after := claims[i := claims[i].(phase := Published)];
    SameTiling(claims, claimed, i, Published);
    assert TileAt(claims, i) && EndsAt(after, i + 1, cursor + claims[i].delta);
    forall k | 0 <= k < |claims| ensures after[k].phase.Published? <==> after[k].last <= claims[i].last {
      if k < i {
        BeforeGrows(claims, k + 1, i);
      } else {
        BeforeGrows(claims, i + 1, k + 1);
      }
    }
  }

  lemma {:induction false} PublishKeepsInv(c: Config, s: State, i: nat)
    requires Inv(c, s) && Enabled(c, s, Publish(i))
    ensures Inv(c, Apply(c, s, Publish(i)))
  {
    var t := Apply(c, s, Publish(i));
    PublishKeepsCursor(s.claims, s.claimed, s.cursor, i);
    forall k | 0 <= k < |s.claims| && s.claims[k].phase.Passed? ensures k == i {
      OnePasses(s.claims, s.claimed, s.cursor, i, k);
    }
    ClaimsGrow(c, s, t);
    assert ClaimOk(c, t, s.claims[i]);
    ProbesGrow(c, s, t);
    forall j | 0 <= j < |t.consumers| ensures ConsumerOk(c, t, j) {
      ConsumerGrows(c, s, t, j);
    }
  }

  lemma {:induction false} ProbeKeepsInv(c: Config, s: State, t: Step)
    requires c.Ok() && Inv(c, s) && Enabled(c, s, t) && (t.Probe? || t.ReadProbe? || t.StoreProbe?)
    ensures Inv(c, Apply(c, s, t))
  {
    var r := Apply(c, s, t);
    if t.StoreProbe? {
      MinIsBelow(c, s, s.probes[t.k]);
    }
    ClaimsGrow(c, s, r);
    ProbesGrow(c, s, r);
    forall j | 0 <= j < |r.consumers| ensures ConsumerOk(c, r, j) {
      ConsumerGrows(c, s, r, j);
    }
  }

  lemma {:induction false} ConsumeKeepsInv(c: Config, s: State, t: Step)
    requires c.Ok() && Inv(c, s) && Enabled(c, s, t) && (t.WaitRead? || t.WaitDecide? || t.Advance?)
    ensures Inv(c, Apply(c, s, t))
  {
    var r := Apply(c, s, t);
    assert ConsumerOk(c, s, t.j);
    assert Grows(s, r);
    ClaimsGrow(c, s, r);
    ProbesGrow(c, s, r);
    forall j | 0 <= j < |r.consumers| ensures ConsumerOk(c, r, j) {
      if j == t.j {
        ConsumerMoves(c, s, t);
      } else {
        ConsumerGrows(c, s, r, j);
      }
    }
  }

  /** A complete read of a consumer's dependencies bounds them, and what they have been shown. */
  lemma {:induction false} WaitIsBelow(c: Config, s: State, j: nat)
    requires c.Ok() && |s.consumers| == |c.deps| && j < |s.consumers| && c.deps[j] != []
    requires forall k | 0 <= k < |s.consumers| :: ConsumerOk(c, s, k)
    requires |s.consumers[j].seen| == |c.deps[j]|
    ensures MinOf(s.consumers[j].seen) <= s.cursor
    ensures forall d | d in c.deps[j] :: MinOf(s.consumers[j].seen) <= DoneOf(s, d)
  {
    var x := s.consumers[j];
    assert ConsumerOk(c, s, j);
    forall d | d in c.deps[j] ensures MinOf(x.seen) <= DoneOf(s, d) {
      var i :| 0 <= i < |c.deps[j]| && c.deps[j][i] == d;
      assert x.seen[i] <= DoneOf(s, c.deps[j][i]);
    }
    var d := c.deps[j][0];
    assert d in c.deps[j];
    assert ConsumerOk(c, s, d);
  }

  lemma {:induction false} ConsumerMoves(c: Config, s: State, t: Step)
    requires c.Ok() && |s.consumers| == |c.deps| && forall k | 0 <= k < |s.consumers| :: ConsumerOk(c, s, k)
    requires Enabled(c, s, t) && (t.WaitRead? || t.WaitDecide? || t.Advance?)
    requires Grows(s, Apply(c, s, t))
    ensures ConsumerOk(c, Apply(c, s, t), t.j)
  {
    assert ConsumerOk(c, s, t.j);
    if t.WaitDecide? && c.deps[t.j] != [] {
      WaitIsBelow(c, s, t.j);
    }
  }

  lemma {:induction false} StepKeepsInv(c: Config, s: State, t: Step)
    requires c.Ok() && Inv(c, s) && Enabled(c, s, t)
    ensures Inv(c, Apply(c, s, t))
  {
    match t
    case Take(delta) => TakeKeepsInv(c, s, delta);
    case UseCached(i) =>
      assert ClaimOk(c, s, s.claims[i]);
      RephaseKeepsInv(c, s, i, if s.cached < s.claims[i].last - c.size then Scanning([]) else Granted);
    case Read(i) =>
      assert ClaimOk(c, s, s.claims[i]);
      var seen := s.claims[i].phase.seen;
      RephaseKeepsInv(c, s, i, Scanning(seen + [DoneOf(s, c.gating[|seen|])]));
    case Decide(i) =>
      assert ClaimOk(c, s, s.claims[i]);
      var seen := s.claims[i].phase.seen;
      MinIsBelow(c, s, seen);
      RephaseKeepsInv(c, s, i, if MinOf(seen) < s.claims[i].last - c.size then Scanning([]) else Granted);
    case Pass(i) =>
      assert ClaimOk(c, s, s.claims[i]);
      GuardIsTurn(s.claims, s.claimed, s.cursor, i);
      RephaseKeepsInv(c, s, i, Passed);
    case Publish(i) => PublishKeepsInv(c, s, i);
    case Probe => ProbeKeepsInv(c, s, t);
    case ReadProbe(k) => ProbeKeepsInv(c, s, t);
    case StoreProbe(k) => ProbeKeepsInv(c, s, t);
    case WaitRead(j) => ConsumeKeepsInv(c, s, t);
    case WaitDecide(j) => ConsumeKeepsInv(c, s, t);
    case Advance(j, v) => ConsumeKeepsInv(c, s, t);
  }

  // ---- What holds in every reachable state -----------------------------------------------

  /** `trace` is a run from the initial state by `steps`. */
  ghost predicate IsRun(c: Config, trace: seq<State>, steps: seq<Step>) {
    && |trace| == |steps| + 1 && trace[0] == Init(c)
    && (forall k | 0 <= k < |steps| :: Enabled(c, trace[k], steps[k]) && trace[k + 1] == Apply(c, trace[k], steps[k]))
  }

  lemma {:induction false} RunKeepsInv(c: Config, trace: seq<State>, steps: seq<Step>, k: nat)
    requires c.Ok() && IsRun(c, trace, steps) && k < |trace|
    ensures Inv(c, trace[k])
  {
    if k == 0 {
      InitInv(c);
    } else {
      RunKeepsInv(c, trace, steps, k - 1);
      StepKeepsInv(c, trace[k - 1], steps[k - 1]);
    }
  }

  /** `path` leads from a gating consumer through dependencies to `j`. */
  predicate Upstream(c: Config, path: seq<nat>, j: nat) {
    && path != [] && path[0] in c.gating && path[|path| - 1] == j
    && (forall k | 0 <= k < |path| :: path[k] < |c.deps|)
    && (forall k | 0 <= k < |path| - 1 :: path[k + 1] in c.deps[path[k]])
  }

  /** Whatever a gating consumer waits for, directly or not, is at least as far as it is. */
  lemma {:induction false} UpstreamIsAhead(c: Config, s: State, path: seq<nat>, j: nat)
    requires Inv(c, s) && Upstream(c, path, j)
    ensures DoneOf(s, path[0]) <= DoneOf(s, j)
    decreases |path|
  {
    if |path| > 1 {
      var front := path[..|path| - 1];
      UpstreamIsAhead(c, s, front, front[|front| - 1]);
      assert path[|path| - 2 + 1] in c.deps[path[|path| - 2]];
      assert ConsumerOk(c, s, path[|path| - 2]);
    }
  }

  lemma {:induction false} CloseAreApart(size: nat, a: int, b: int)
    requires size >= 1 && a < b < a + size
    ensures a % size != b % size
  {
    var q := b / size - a / size;
    assert b - a == size * q + (b % size - a % size);
    assert q >= 1 ==> size * q >= size;
    assert q <= 0 ==> size * q <= 0;
  }

  lemma {:induction false} LapIsSameSlot(size: nat, a: int)
    requires size >= 1
    ensures (a + size) % size == a % size
  {
    var q := (a + size) / size - a / size - 1;
    assert 0 == size * q + ((a + size) % size - a % size);
    assert q >= 1 ==> size * q >= size;
    assert q <= -1 ==> size * q + size <= 0;
  }

  predicate InClaim(x: Claim, n: int) { x.last - x.delta < n <= x.last }

  /** A granted sequence lies beyond the cursor and within one lap of every gating consumer. */
  lemma {:induction false} GrantedWindow(c: Config, s: State, i: nat, n: int)
    requires Inv(c, s) && i < |s.claims| && Held(s.claims[i]) && InClaim(s.claims[i], n)
    ensures s.cursor < n && BelowGating(c, s, n - c.size)
  {
    assert ClaimOk(c, s, s.claims[i]);
    if s.cursor >= n {
      GuardIsTurn(s.claims, s.claimed, s.cursor, i);
    }
  }

  /** No slot is granted twice. */
  lemma {:induction false} GrantsShareNoSlot(c: Config, s: State, i: nat, n: int, k: nat, m: int)
    requires c.Ok() && c.gating != [] && Inv(c, s) && i < |s.claims| && k < |s.claims|
    requires Held(s.claims[i]) && InClaim(s.claims[i], n)
    requires Held(s.claims[k]) && InClaim(s.claims[k], m)
    requires n != m
    ensures n % c.size != m % c.size
  {
    GrantedWindow(c, s, i, n);
    GrantedWindow(c, s, k, m);
    var g := c.gating[0];
    assert g in c.gating && ConsumerOk(c, s, g);
    if n < m {
      CloseAreApart(c.size, n, m);
    } else {
      CloseAreApart(c.size, m, n);
    }
  }

  /** No granted slot holds an event that some consumer has still to finish. */
  lemma {:induction false} GrantSparesConsumers(c: Config, s: State, i: nat, n: int, path: seq<nat>, j: nat, e: int)
    requires c.Ok() && Inv(c, s) && i < |s.claims| && Held(s.claims[i]) && InClaim(s.claims[i], n)
    requires Upstream(c, path, j) && DoneOf(s, j) < e <= s.cursor
    ensures e % c.size != n % c.size
  {
    GrantedWindow(c, s, i, n);
    UpstreamIsAhead(c, s, path, j);
    CloseAreApart(c.size, e, n);
  }

  /** What a consumer has been shown is published, all of it. */
  lemma {:induction false} ShownIsPublished(c: Config, s: State, j: nat, i: nat, e: int)
    requires c.Ok() && Inv(c, s) && j < |s.consumers| && i < |s.claims|
    requires InClaim(s.claims[i], e) && e <= s.consumers[j].upto
    ensures s.claims[i].phase.Published?
  {
    assert ConsumerOk(c, s, j);
    if !s.claims[i].phase.Published? {
      GuardIsTurn(s.claims, s.claimed, s.cursor, i);
    }
  }

  // ---- Over whole runs --------------------------------------------------------------------

  lemma {:induction false} RunSharesNoSlot(c: Config, trace: seq<State>, steps: seq<Step>, t: nat, i: nat, n: int,
                                           k: nat, m: int)
    requires c.Ok() && c.gating != [] && IsRun(c, trace, steps) && t < |trace| && i < |trace[t].claims|
             && k < |trace[t].claims|
    requires Held(trace[t].claims[i]) && InClaim(trace[t].claims[i], n)
    requires Held(trace[t].claims[k]) && InClaim(trace[t].claims[k], m) && n != m
    ensures n % c.size != m % c.size
  {
    RunKeepsInv(c, trace, steps, t);
    GrantsShareNoSlot(c, trace[t], i, n, k, m);
  }

  lemma {:induction false} RunSparesConsumers(c: Config, trace: seq<State>, steps: seq<Step>, t: nat, i: nat, n: int,
                                              path: seq<nat>, j: nat, e: int)
    requires c.Ok() && IsRun(c, trace, steps) && t < |trace| && i < |trace[t].claims|
    requires Held(trace[t].claims[i]) && InClaim(trace[t].claims[i], n)
    requires Upstream(c, path, j) && DoneOf(trace[t], j) < e <= trace[t].cursor
    ensures e % c.size != n % c.size
  {
    RunKeepsInv(c, trace, steps, t);
    GrantSparesConsumers(c, trace[t], i, n, path, j, e);
  }

  /** In every state of every run a sequence is at or below the cursor exactly when it is published. */
  lemma {:induction false} RunCursorIsPublished(c: Config, trace: seq<State>, steps: seq<Step>, t: nat, i: nat, e: int)
    requires c.Ok() && IsRun(c, trace, steps) && t < |trace| && i < |trace[t].claims| && InClaim(trace[t].claims[i], e)
    ensures trace[t].claims[i].phase.Published? <==> e <= trace[t].cursor
  {
    RunKeepsInv(c, trace, steps, t);
    var s := trace[t];
    if !s.claims[i].phase.Published? && e <= s.cursor {
      GuardIsTurn(s.claims, s.claimed, s.cursor, i);
    }
  }

  // ---- The single-threaded strategy -------------------------------------------------------

  /**
   SingleThreadedStrategy publishes without waiting for its turn. The cursor then still says
   what is published exactly when the lone publisher publishes in the order it claimed.
   */
  lemma {:induction false} UnguardedPublish(claims: seq<Claim>, claimed: int, cursor: int, i: nat)
    requires Tiled(claims, claimed) && CursorSound(claims, cursor) && i < |claims| && !claims[i].phase.Published?
    ensures var after := claims[i := claims[i].(phase := Published)];
            CursorSound(after, cursor + claims[i].delta) <==> cursor == claims[i].last - claims[i].delta
  {
    var after := claims[i := claims[i].(phase := Published)];
    if cursor >= claims[i].last - claims[i].delta {
      GuardIsTurn(claims, claimed, cursor, i);
      PublishKeepsCursor(claims, claimed, cursor, i);
    } else {
      assert after[i].phase.Published? && after[i].last > cursor + claims[i].delta;
    }
  }

  /** Without a gating consumer the second lap is granted while the first is still being written, whatever the size. */
  lemma {:induction false} UngatedGrantsShareASlot(c: Config) returns (trace: seq<State>, steps: seq<Step>)
    requires c.Ok() && c.gating == []
    ensures IsRun(c, trace, steps)
    ensures var s := trace[|steps|];
            && |s.claims| == 2 && Held(s.claims[0]) && Held(s.claims[1])
            && InClaim(s.claims[0], 0) && InClaim(s.claims[1], c.size) && c.size % c.size == 0 % c.size
  {
    steps := [Take(c.size), UseCached(0), Take(1), UseCached(1), Decide(1)];
    var s1 := Apply(c, Init(c), Take(c.size));
    var s2 := Apply(c, s1, UseCached(0));
    var s3 := Apply(c, s2, Take(1));
    var s4 := Apply(c, s3, UseCached(1));
    var s5 := Apply(c, s4, Decide(1));
    trace := [Init(c), s1, s2, s3, s4, s5];
    LapIsSameSlot(c.size, 0);
  }

  /** A claim of more than a lap overlaps itself, so the limit on `delta` is needed too. */
  lemma {:induction false} OversizeClaimOverlaps(c: Config, x: Claim)
    requires c.size >= 1 && x.delta >= 1
    ensures (exists n, m :: InClaim(x, n) && InClaim(x, m) && n < m && n % c.size == m % c.size) <==> x.delta > c.size
  {
    if x.delta > c.size {
      LapIsSameSlot(c.size, x.last - c.size);
      assert InClaim(x, x.last - c.size) && InClaim(x, x.last);
    } else {
      forall n, m | InClaim(x, n) && InClaim(x, m) && n < m ensures n % c.size != m % c.size {
        CloseAreApart(c.size, n, m);
      }
    }
  }
}
