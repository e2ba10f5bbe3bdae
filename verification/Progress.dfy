/**
 What the threads of the ring buffer can always still do: waits that are satisfied return all
 there is, a claim with room is granted, a publisher whose turn it is publishes, and from every
 reachable state everything claimed can be published and consumed.
 */
module Progress {
  import opened Disruptor

  /** The steps lead from one state to the other. */
  ghost predicate Leads(c: Config, s: State, steps: seq<Step>, t: State)
    decreases |steps|
  {
    if steps == [] then s == t
    else Enabled(c, s, steps[0]) && Leads(c, Apply(c, s, steps[0]), steps[1..], t)
  }

  lemma {:induction false} LeadsOn(c: Config, s: State, a: seq<Step>, t: State, b: seq<Step>, u: State)
    requires Leads(c, s, a, t) && Leads(c, t, b, u)
    ensures Leads(c, s, a + b, u)
    decreases |a|
  {
    if a == [] {
      assert a + b == b;
    } else {
      LeadsOn(c, Apply(c, s, a[0]), a[1..], t, b, u);
      assert (a + b)[1..] == a[1..] + b;
    }
  }

  lemma {:induction false} OneStep(c: Config, s: State, x: Step)
    requires Enabled(c, s, x)
    ensures Leads(c, s, [x], Apply(c, s, x))
  {
    assert [x][1..] == [];
  }

  lemma {:induction false} LeadsKeepsInv(c: Config, s: State, steps: seq<Step>, t: State)
    requires c.Ok() && Inv(c, s) && Leads(c, s, steps, t)
    ensures Inv(c, t)
    decreases |steps|
  {
    if steps != [] {
      StepKeepsInv(c, s, steps[0]);
      LeadsKeepsInv(c, Apply(c, s, steps[0]), steps[1..], t);
    }
  }

  // ---- Waiting ----------------------------------------------------------------------------

  /** `v` is what there is for the consumer: the cursor, or the least progress of those it waits for. */
  ghost predicate Available(c: Config, s: State, j: nat, v: int)
    requires j < |c.deps|
  {
    if c.deps[j] == [] then v == s.cursor
    else (exists d :: d in c.deps[j] && DoneOf(s, d) == v) && forall d | d in c.deps[j] :: v <= DoneOf(s, d)
  }

  /** The end of a wait: all that was seen if that is more than the consumer has finished, and nothing new otherwise. */
  lemma {:induction false} WaitReturnsAll(c: Config, s: State, j: nat, v: int)
    requires Enabled(c, s, WaitDecide(j))
    requires if c.deps[j] == [] then v == s.cursor
             else v <= LONG_MAX && v in s.consumers[j].seen && forall x | x in s.consumers[j].seen :: v <= x
    ensures var x, t := s.consumers[j], Apply(c, s, WaitDecide(j));
            t == s.(consumers := s.consumers[j := Consumer(x.done, if v > x.done then v else x.upto, [])])
  {
    var x := s.consumers[j];
    if c.deps[j] != [] {
      var i :| 0 <= i < |x.seen| && x.seen[i] == v;
      assert MinOf(x.seen) <= x.seen[i];
    }
  }

  predicate Own(steps: seq<Step>, j: nat) {
    forall i | 0 <= i < |steps| :: (steps[i].WaitRead? || steps[i].WaitDecide? || steps[i].Advance?) && steps[i].j == j
  }

  /** What the consumer would see by reading the rest of its dependencies now. */
  ghost function Seen(c: Config, s: State, j: nat): seq<int>
    requires j < |c.deps| && j < |s.consumers| && |s.consumers[j].seen| <= |c.deps[j]|
  {
    var had := s.consumers[j].seen;
    seq(|c.deps[j]|, i requires 0 <= i < |c.deps[j]| => if i < |had| then had[i] else DoneOf(s, c.deps[j][i]))
  }

  lemma {:induction false} ReadOn(c: Config, s: State, j: nat) returns (steps: seq<Step>, t: State)
    requires j < |c.deps| && j < |s.consumers| && |s.consumers[j].seen| <= |c.deps[j]|
    ensures Leads(c, s, steps, t) && Own(steps, j)
    ensures t == s.(consumers := s.consumers[j := s.consumers[j].(seen := Seen(c, s, j))])
    decreases |c.deps[j]| - |s.consumers[j].seen|
  {
    var seen := s.consumers[j].seen;
    if |seen| == |c.deps[j]| {
      steps, t := [], s;
      assert Seen(c, s, j) == seen && s.consumers[j := s.consumers[j]] == s.consumers;
    } else {
      var next := Apply(c, s, WaitRead(j));
      assert forall k :: DoneOf(next, k) == DoneOf(s, k);
      var rest;
      rest, t := ReadOn(c, next, j);
      steps := [WaitRead(j)] + rest;
      OneStep(c, s, WaitRead(j));
      LeadsOn(c, s, [WaitRead(j)], next, rest, t);
      assert Seen(c, next, j) == Seen(c, s, j);
    }
  }

  /** One wait to its end, from wherever the consumer is in it. */
  lemma {:induction false} WaitOnce(c: Config, s: State, j: nat) returns (steps: seq<Step>, t: State, upto: int)
    requires j < |c.deps| && j < |s.consumers| && |s.consumers[j].seen| <= |c.deps[j]|
    ensures Leads(c, s, steps, t) && Own(steps, j)
    ensures t == s.(consumers := s.consumers[j := Consumer(s.consumers[j].done, upto, [])])
    ensures forall v | Available(c, s, j, v) && v <= LONG_MAX && s.consumers[j].seen == [] && v > s.consumers[j].done ::
              upto == v
  {
    var first, mid := ReadOn(c, s, j);
    t := Apply(c, mid, WaitDecide(j));
    steps := first + [WaitDecide(j)];
    OneStep(c, mid, WaitDecide(j));
    LeadsOn(c, s, first, mid, [WaitDecide(j)], t);
    upto := t.consumers[j].upto;
    forall v | Available(c, s, j, v) && v <= LONG_MAX && s.consumers[j].seen == [] && v > s.consumers[j].done
      ensures upto == v
    {
      if c.deps[j] != [] {
        SeenAvailable(c, s, j, v);
      }
      WaitReturnsAll(c, mid, j, v);
    }
  }

  lemma {:induction false} SeenAvailable(c: Config, s: State, j: nat, v: int)
    requires j < |c.deps| && j < |s.consumers| && s.consumers[j].seen == [] && Available(c, s, j, v) && c.deps[j] != []
    ensures v in Seen(c, s, j) && forall x | x in Seen(c, s, j) :: v <= x
  {
    var seen := Seen(c, s, j);
    var d :| d in c.deps[j] && DoneOf(s, d) == v;
    var i :| 0 <= i < |c.deps[j]| && c.deps[j][i] == d;
    assert seen[i] == v;
    forall x | x in seen ensures v <= x {
      var k :| 0 <= k < |seen| && seen[k] == x;
      assert c.deps[j][k] in c.deps[j];
    }
  }

  lemma {:induction false} LeastExists(c: Config, s: State, ds: seq<nat>) returns (d: nat)
    requires ds != []
    ensures d in ds && forall e | e in ds :: DoneOf(s, d) <= DoneOf(s, e)
  {
    var n := |ds| - 1;
    d := ds[n];
    if n > 0 {
      var e := LeastExists(c, s, ds[..n]);
      assert forall x | x in ds :: x in ds[..n] || x == ds[n];
      if DoneOf(s, e) < DoneOf(s, d) {
        d := e;
      }
    }
  }

  lemma {:induction false} SomethingAvailable(c: Config, s: State, j: nat) returns (v: int)
    requires c.Ok() && Inv(c, s) && j < |s.consumers|
    ensures Available(c, s, j, v) && s.consumers[j].done <= v <= s.cursor
  {
    assert ConsumerOk(c, s, j);
    if c.deps[j] == [] {
      v := s.cursor;
    } else {
      var d := LeastExists(c, s, c.deps[j]);
      v := DoneOf(s, d);
      assert ConsumerOk(c, s, d);
    }
  }

  /** The state with the consumer's progress at `v`, between waits. */
  ghost predicate Moved(s: State, t: State, j: nat, v: int) {
    && j < |s.consumers| && |t.consumers| == |s.consumers| && t == s.(consumers := t.consumers)
    && (forall k | 0 <= k < |s.consumers| && k != j :: t.consumers[k] == s.consumers[k])
    && t.consumers[j].done == v
  }

  /** From every state with the invariant, a consumer can finish by its own steps all that is available to it. */
  lemma {:induction false} CatchUp(c: Config, s: State, j: nat) returns (steps: seq<Step>, t: State, v: int)
    requires c.Ok() && Inv(c, s) && j < |s.consumers| && s.cursor <= LONG_MAX
    ensures Leads(c, s, steps, t) && Own(steps, j) && Available(c, s, j, v) && Moved(s, t, j, v)
  {
    v := SomethingAvailable(c, s, j);
    assert ConsumerOk(c, s, j);
    if s.consumers[j].done == v {
      steps, t := [], s;
    } else {
      var a, s1, _ := WaitOnce(c, s, j);
      assert forall k :: DoneOf(s1, k) == DoneOf(s, k);
      assert Available(c, s1, j, v);
      var b, s2, upto := WaitOnce(c, s1, j);
      assert upto == v;
      t := Apply(c, s2, Advance(j, v));
      OneStep(c, s2, Advance(j, v));
      LeadsOn(c, s, a, s1, b, s2);
      LeadsOn(c, s, a + b, s2, [Advance(j, v)], t);
      steps := a + b + [Advance(j, v)];
    }
  }

  /** A consumer that waits for no other reaches the cursor. */
  lemma {:induction false} ReachesCursor(c: Config, trace: seq<State>, run: seq<Step>, k: nat, j: nat)
    returns (steps: seq<Step>, t: State)
    requires c.Ok() && IsRun(c, trace, run) && k < |trace| && j < |trace[k].consumers| && j < |c.deps|
             && c.deps[j] == []
    requires trace[k].cursor <= LONG_MAX
    ensures Leads(c, trace[k], steps, t) && Own(steps, j)
    ensures t.cursor == trace[k].cursor && j < |t.consumers| && t.consumers[j].done == t.cursor
  {
    RunKeepsInv(c, trace, run, k);
    var v;
    steps, t, v := CatchUp(c, trace[k], j);
  }

  // ---- Claiming and publishing ------------------------------------------------------------

  /** Every gating consumer has finished what the claim would overwrite. */
  ghost predicate Room(c: Config, s: State, i: nat)
    requires i < |s.claims|
  {
    forall g | g in c.gating :: s.claims[i].last - c.size <= DoneOf(s, g)
  }

  predicate OwnClaim(steps: seq<Step>, i: nat) {
    forall k | 0 <= k < |steps| ::
      (steps[k].UseCached? || steps[k].Read? || steps[k].Decide? || steps[k].Pass? || steps[k].Publish?)
        && steps[k].i == i
  }

  ghost function Scanned(c: Config, s: State, had: seq<int>): seq<int>
    requires |had| <= |c.gating|
  {
    seq(|c.gating|, i requires 0 <= i < |c.gating| => if i < |had| then had[i] else DoneOf(s, c.gating[i]))
  }

  lemma {:induction false} ScanOn(c: Config, s: State, i: nat, had: seq<int>) returns (steps: seq<Step>, t: State)
    requires i < |s.claims| && s.claims[i].phase == Scanning(had) && |had| <= |c.gating|
    ensures Leads(c, s, steps, t) && OwnClaim(steps, i) && t == WithPhase(s, i, Scanning(Scanned(c, s, had)))
    decreases |c.gating| - |had|
  {
    if |had| == |c.gating| {
      steps, t := [], s;
      assert Scanned(c, s, had) == had && s.claims[i := s.claims[i]] == s.claims;
    } else {
      var next := Apply(c, s, Read(i));
      assert forall k :: DoneOf(next, k) == DoneOf(s, k);
      var had' := had + [DoneOf(s, c.gating[|had|])];
      var rest;
      rest, t := ScanOn(c, next, i, had');
      steps := [Read(i)] + rest;
      OneStep(c, s, Read(i));
      LeadsOn(c, s, [Read(i)], next, rest, t);
      assert Scanned(c, next, had') == Scanned(c, s, had);
      assert next.claims[i := next.claims[i].(phase := Scanning(Scanned(c, s, had)))] == t.claims;
    }
  }

  /** A scan to its end grants the claim, or starts over; from its start, with room, it grants. */
  lemma {:induction false} ScanOnce(c: Config, s: State, i: nat, had: seq<int>) returns (steps: seq<Step>, t: State)
    requires i < |s.claims| && s.claims[i].phase == Scanning(had) && |had| <= |c.gating|
    requires s.claims[i].last - c.size <= LONG_MAX && Room(c, s, i)
    ensures Leads(c, s, steps, t) && OwnClaim(steps, i)
    ensures t == WithPhase(s, i, Granted) || (had != [] && t == WithPhase(s, i, Scanning([])))
  {
    var first, mid := ScanOn(c, s, i, had);
    t := Apply(c, mid, Decide(i));
    steps := first + [Decide(i)];
    OneStep(c, mid, Decide(i));
    LeadsOn(c, s, first, mid, [Decide(i)], t);
    if had == [] {
      var seen := Scanned(c, s, had);
      forall x | x in seen ensures s.claims[i].last - c.size <= x {
        var k :| 0 <= k < |seen| && seen[k] == x;
        assert c.gating[k] in c.gating;
      }
    }
  }

  /** A claim with room is granted by its own publisher's steps. */
  lemma {:induction false} Grant(c: Config, s: State, i: nat) returns (steps: seq<Step>, t: State)
    requires c.Ok() && Inv(c, s) && i < |s.claims| && Room(c, s, i) && s.claims[i].last <= LONG_MAX
    requires s.claims[i].phase.Claimed? || s.claims[i].phase.Scanning?
    ensures Leads(c, s, steps, t) && OwnClaim(steps, i) && t == WithPhase(s, i, Granted)
  {
    assert ClaimOk(c, s, s.claims[i]);
    if s.claims[i].phase.Claimed? {
      var next := Apply(c, s, UseCached(i));
      OneStep(c, s, UseCached(i));
      if next.claims[i].phase.Granted? {
        steps, t := [UseCached(i)], next;
      } else {
        assert Room(c, next, i) by { assert forall k :: DoneOf(next, k) == DoneOf(s, k); }
        var rest;
        rest, t := ScanOnce(c, next, i, []);
        LeadsOn(c, s, [UseCached(i)], next, rest, t);
        steps := [UseCached(i)] + rest;
      }
    } else {
      var a, s1 := ScanOnce(c, s, i, s.claims[i].phase.seen);
      steps, t := a, s1;
      if !s1.claims[i].phase.Granted? {
        assert Room(c, s1, i) by { assert forall k :: DoneOf(s1, k) == DoneOf(s, k); }
        var b;
        b, t := ScanOnce(c, s1, i, []);
        LeadsOn(c, s, a, s1, b, t);
        steps := a + b;
      }
    }
  }

  /** The publisher whose turn it is moves the cursor to the end of its claim. */
  lemma {:induction false} PublishTurn(c: Config, s: State, i: nat) returns (steps: seq<Step>, t: State)
    requires i < |s.claims| && Held(s.claims[i]) && s.cursor == s.claims[i].last - s.claims[i].delta
    ensures Leads(c, s, steps, t) && OwnClaim(steps, i)
    ensures t == WithPhase(s, i, Published).(cursor := s.claims[i].last)
  {
    if s.claims[i].phase.Passed? {
      OneStep(c, s, Publish(i));
      steps, t := [Publish(i)], Apply(c, s, Publish(i));
    } else {
      var mid := Apply(c, s, Pass(i));
      t := Apply(c, mid, Publish(i));
      OneStep(c, s, Pass(i));
      OneStep(c, mid, Publish(i));
      LeadsOn(c, s, [Pass(i)], mid, [Publish(i)], t);
      steps := [Pass(i), Publish(i)];
    }
  }

  /** With what is known of the consumers a claim is granted at once, exactly if that leaves it room. */
  lemma {:induction false} CachedGrants(c: Config, s: State, i: nat)
    requires Enabled(c, s, UseCached(i))
    ensures Apply(c, s, UseCached(i)).claims[i].phase.Granted? <==> s.claims[i].last <= s.cached + c.size
  {
  }

  /** What a probe stores is the least of what it read. */
  lemma {:induction false} ProbeStoresLeast(c: Config, s: State, k: nat)
    requires Enabled(c, s, StoreProbe(k)) && c.gating != [] && forall x | x in s.probes[k] :: x <= LONG_MAX
    ensures var v := Apply(c, s, StoreProbe(k)).cached; v in s.probes[k] && forall x | x in s.probes[k] :: v <= x
  {
    var v := MinOf(s.probes[k]);
    assert s.probes[k][0] in s.probes[k];
    forall x | x in s.probes[k] ensures v <= x {
      var i :| 0 <= i < |s.probes[k]| && s.probes[k][i] == x;
    }
  }

  /**
   HasAvailableCapacity, from one reading of the gating sequences: there is room for one more event
   exactly if every consumer has finished the one it would overwrite; a cached minimum is no more than a shortcut.
   */
  method HasAvailableCapacity(size: nat, claimed: int, cached: int, gating: seq<int>) returns (ok: bool, cached': int)
    requires (forall g | g in gating :: cached <= g) && cached <= LONG_MAX && claimed < LONG_MAX
    ensures ok <==> forall g | g in gating :: claimed + 1 - size <= g
    ensures forall g | g in gating :: cached' <= g
  {
    var wrap := claimed + 1 - size;
    cached' := cached;
    ok := true;
    if wrap > cached {
      cached' := GetMinimumSequence(gating);
      ok := wrap <= cached';
      forall g | g in gating ensures cached' <= g {
        var i :| 0 <= i < |gating| && gating[i] == g;
      }
    }
  }

  // ---- Everything drains ------------------------------------------------------------------

  /** No consumer waits for itself, directly or not. */
  predicate Ranked(c: Config, rank: seq<nat>) {
    && |rank| == |c.deps|
    && (forall j, d | 0 <= j < |c.deps| && d in c.deps[j] :: d < |rank| && rank[d] < rank[j])
  }

  /** Only consumers have moved, and none back. */
  ghost predicate OnlyConsumed(s: State, t: State) {
    |t.consumers| == |s.consumers| && t == s.(consumers := t.consumers) && forall k :: DoneOf(s, k) <= DoneOf(t, k)
  }

  lemma {:induction false} CatchUpDeps(c: Config, rank: seq<nat>, s: State, j: nat, n: nat)
    returns (steps: seq<Step>, t: State)
    requires c.Ok() && Ranked(c, rank) && Inv(c, s) && j < |s.consumers| && s.cursor <= LONG_MAX && n <= |c.deps[j]|
    ensures Leads(c, s, steps, t) && OnlyConsumed(s, t) && Inv(c, t)
    ensures forall i | 0 <= i < n :: DoneOf(t, c.deps[j][i]) == s.cursor
    decreases rank[j], 0, n
  {
    if n == 0 {
      steps, t := [], s;
    } else {
      assert forall i | 0 <= i < |c.deps[j]| :: c.deps[j][i] in c.deps[j];
      var a, s1 := CatchUpDeps(c, rank, s, j, n - 1);
      var d := c.deps[j][n - 1];
      var b;
      b, t := CatchUpFully(c, rank, s1, d);
      LeadsOn(c, s, a, s1, b, t);
      steps := a + b;
      StillThere(c, s1, t, c.deps[j], n - 1);
    }
  }

  /** Whoever has reached the cursor stays there while only consumers move. */
  lemma {:induction false} StillThere(c: Config, s: State, t: State, who: seq<nat>, n: nat)
    requires Inv(c, t) && OnlyConsumed(s, t) && n <= |who| && (forall i | 0 <= i < n :: who[i] < |t.consumers|)
    requires forall i | 0 <= i < n :: DoneOf(s, who[i]) == s.cursor
    ensures forall i | 0 <= i < n :: DoneOf(t, who[i]) == t.cursor
  {
    forall i | 0 <= i < n ensures DoneOf(t, who[i]) == t.cursor {
      assert ConsumerOk(c, t, who[i]);
    }
  }

  /** A consumer reaches the cursor, after those it waits for. */
  lemma {:induction false} CatchUpFully(c: Config, rank: seq<nat>, s: State, j: nat)
    returns (steps: seq<Step>, t: State)
    requires c.Ok() && Ranked(c, rank) && Inv(c, s) && j < |s.consumers| && s.cursor <= LONG_MAX
    ensures Leads(c, s, steps, t) && OnlyConsumed(s, t) && Inv(c, t) && DoneOf(t, j) == s.cursor
    decreases rank[j], 1, 0
  {
    var a, s1 := CatchUpDeps(c, rank, s, j, |c.deps[j]|);
    var b, v;
    b, t, v := CatchUp(c, s1, j);
    assert v == s.cursor;
    LeadsOn(c, s, a, s1, b, t);
    LeadsKeepsInv(c, s1, b, t);
    assert ConsumerOk(c, s1, j);
    steps := a + b;
  }

  lemma {:induction false} CatchUpAll(c: Config, rank: seq<nat>, s: State, n: nat)
    returns (steps: seq<Step>, t: State)
    requires c.Ok() && Ranked(c, rank) && Inv(c, s) && n <= |s.consumers| && s.cursor <= LONG_MAX
    ensures Leads(c, s, steps, t) && OnlyConsumed(s, t) && Inv(c, t)
    ensures forall j | 0 <= j < n :: DoneOf(t, j) == s.cursor
  {
    if n == 0 {
      steps, t := [], s;
    } else {
      var a, s1 := CatchUpAll(c, rank, s, n - 1);
      var b;
      b, t := CatchUpFully(c, rank, s1, n - 1);
      LeadsOn(c, s, a, s1, b, t);
      steps := a + b;
      forall j | 0 <= j < n ensures DoneOf(t, j) == s.cursor {
        assert ConsumerOk(c, t, j);
      }
    }
  }

  /** The claim that the cursor has to pass next. */
  lemma {:induction false} NextTurn(c: Config, s: State) returns (i: nat)
    requires Inv(c, s) && s.cursor != s.claimed
    ensures i < |s.claims| && s.cursor == s.claims[i].last - s.claims[i].delta && !s.claims[i].phase.Published?
    ensures s.claims[i].delta >= 1 && s.claims[i].last <= s.claimed
  {
    i :| EndsAt(s.claims, i, s.cursor);
    assert TileAt(s.claims, i);
    BeforeGrows(s.claims, i + 1, |s.claims|);
  }

  lemma {:induction false} CursorBelow(c: Config, s: State)
    requires Inv(c, s)
    ensures s.cursor <= s.claimed
  {
    var k: nat :| EndsAt(s.claims, k, s.cursor);
    BeforeGrows(s.claims, k, |s.claims|);
  }

  /** With all consumers at the cursor the next claim is granted and published. */
  lemma {:induction false} PublishNext(c: Config, s: State) returns (steps: seq<Step>, t: State)
    requires c.Ok() && Inv(c, s) && s.cursor != s.claimed && s.claimed <= LONG_MAX
    requires forall j | 0 <= j < |s.consumers| :: DoneOf(s, j) == s.cursor
    ensures Leads(c, s, steps, t) && Inv(c, t) && t.claimed == s.claimed && s.cursor < t.cursor
  {
    var i := NextTurn(c, s);
    assert ClaimOk(c, s, s.claims[i]);
    var a, s1 := [], s;
    if !Held(s.claims[i]) {
      a, s1 := Grant(c, s, i);
    }
    var b;
    b, t := PublishTurn(c, s1, i);
    LeadsOn(c, s, a, s1, b, t);
    steps := a + b;
    LeadsKeepsInv(c, s, steps, t);
  }

  /** From every state, without a new claim, all that is claimed can be published and all consumers can finish it. */
  lemma {:induction false} Drain(c: Config, rank: seq<nat>, s: State) returns (steps: seq<Step>, t: State)
    requires c.Ok() && Ranked(c, rank) && Inv(c, s) && s.claimed <= LONG_MAX
    ensures Leads(c, s, steps, t) && t.claimed == s.claimed && t.cursor == t.claimed
    ensures forall j | 0 <= j < |t.consumers| :: DoneOf(t, j) == t.cursor
    decreases s.claimed - s.cursor
  {
    CursorBelow(c, s);
    var a, s1 := CatchUpAll(c, rank, s, |s.consumers|);
    steps, t := a, s1;
    if s1.cursor != s1.claimed {
      var b, s2 := PublishNext(c, s1);
      LeadsOn(c, s, a, s1, b, s2);
      CursorBelow(c, s2);
      var d;
      d, t := Drain(c, rank, s2);
      LeadsOn(c, s, a + b, s2, d, t);
      steps := a + b + d;
    }
  }

  /** No run comes to a standstill. */
  lemma {:induction false} RunDrains(c: Config, rank: seq<nat>, trace: seq<State>, run: seq<Step>, k: nat)
    returns (steps: seq<Step>, t: State)
    requires c.Ok() && Ranked(c, rank) && IsRun(c, trace, run) && k < |trace| && trace[k].claimed <= LONG_MAX
    ensures Leads(c, trace[k], steps, t) && t.cursor == t.claimed == trace[k].claimed
    ensures forall j | 0 <= j < |t.consumers| :: t.consumers[j].done == t.cursor
  {
    RunKeepsInv(c, trace, run, k);
    steps, t := Drain(c, rank, trace[k]);
    forall j | 0 <= j < |t.consumers| ensures t.consumers[j].done == t.cursor {
      assert DoneOf(t, j) == t.cursor;
    }
  }
}
