/**
 The writer queue: the writer at the front commits a group of queued writes in one log record
 and one pass over the memtable, without the lock; other writers arrive at any time.
 */
module GroupCommit {
  import opened DbFormat
  import opened Coding
  import opened WriteBatch
  import opened Guard

  /** The bytes are a batch of these operations. */
  ghost predicate Represents(rep: Bytes, s: nat, ops: seq<BatchOp>) { forall n | Unfolded(n) :: Holds(rep, s, ops) }

  /** A queued call of Write. The batch is missing for a caller that only wants room to be made. */
  datatype Writer = Writer(rep: Option<Bytes>, sequence: nat, ops: seq<BatchOp>, sync: bool) {
    ghost predicate Ok() { if rep.Some? then Represents(rep.value, sequence, ops) else ops == [] }

    function ByteSize(): nat { if rep.Some? then |rep.value| else 0 }
  }

  function GroupOps(ws: seq<Writer>): seq<BatchOp> {
    if ws == [] then [] else GroupOps(ws[..|ws| - 1]) + ws[|ws| - 1].ops
  }

  /** How large a group may grow that starts with a batch of `size` bytes. */
  function MaxSize(size: nat): nat { if size <= 0x2_0000 then size + 0x2_0000 else 0x10_0000 }

  /** How many writers join, `i` having joined already with `size` bytes in all. */
  function Join(queue: seq<Writer>, i: nat, size: nat): (n: nat)
    requires 1 <= i <= |queue|
    ensures i <= n <= |queue|
    decreases |queue| - i
  {
    if i == |queue| || (queue[i].sync && !queue[0].sync) then i
    else if queue[i].rep.Some? && size + queue[i].ByteSize() > MaxSize(queue[0].ByteSize()) then i
    else Join(queue, i + 1, size + queue[i].ByteSize())
  }

  function GroupSize(queue: seq<Writer>): (n: nat)
    requires queue != []
    ensures 1 <= n <= |queue|
  {
    Join(queue, 1, queue[0].ByteSize())
  }

  /** The bytes of the batches. */
  function BatchBytes(ws: seq<Writer>): nat { if ws == [] then 0 else BatchBytes(ws[..|ws| - 1]) + ws[|ws| - 1].ByteSize() }

  /**
   The first `n` of the queue may be one group: a leader who does not sync serves nobody who asks for
   it, and the size is bounded.
   */
  ghost predicate MayGroup(queue: seq<Writer>, n: nat)
    requires n <= |queue|
  {
    forall k | 1 <= k < n ::
      (queue[k].sync ==> queue[0].sync)
        && (queue[k].rep.Some? ==>
              var first, all := queue[0].ByteSize(), BatchBytes(queue[..k + 1]);
              all <= if first <= 128 * 1024 then first + 128 * 1024 else 1024 * 1024)
  }

  lemma {:induction false} JoinIsLongest(queue: seq<Writer>, i: nat, size: nat)
    requires 1 <= i <= |queue| && MayGroup(queue, i) && size == BatchBytes(queue[..i])
    ensures var n := Join(queue, i, size); MayGroup(queue, n) && (n < |queue| ==> !MayGroup(queue, n + 1))
    decreases |queue| - i
  {
    if i < |queue| {
      assert queue[..i + 1][..i] == queue[..i];
      if MayGroup(queue, i + 1) {
        JoinIsLongest(queue, i + 1, size + queue[i].ByteSize());
      }
    }
  }

  /** The group is the longest prefix of the queue that may be one. */
  lemma {:induction false} GroupIsLongest(queue: seq<Writer>, n: nat)
    requires queue != [] && n <= |queue|
    ensures 1 <= n && MayGroup(queue, n) && (n == |queue| || !MayGroup(queue, n + 1)) <==> n == GroupSize(queue)
  {
    assert queue[..1][..0] == [];
    JoinIsLongest(queue, 1, queue[0].ByteSize());
  }

  /** Nobody who asked for a sync is served by a leader who did not. */
  lemma {:induction false} JoinRespectsSync(queue: seq<Writer>, i: nat, size: nat, k: nat)
    requires 1 <= i <= |queue| && i <= k < Join(queue, i, size)
    ensures queue[k].sync ==> queue[0].sync
    decreases |queue| - i
  {
    if i < k {
      JoinRespectsSync(queue, i + 1, size + queue[i].ByteSize(), k);
    }
  }

  lemma {:induction false} BytesBoundOps(ops: seq<BatchOp>)
    ensures |ops| <= |OpsBytes(ops)|
  {
    if ops != [] {
      var n := |ops| - 1;
      BytesBoundOps(ops[..n]);
      OpsBytesConcat(ops[..n], [ops[n]]);
      OneOpBytes(ops[n]);
      assert ops == ops[..n] + [ops[n]];
    }
  }

  lemma {:induction false} GroupOpsStep(ws: seq<Writer>, i: nat)
    requires i < |ws|
    ensures GroupOps(ws[..i + 1]) == GroupOps(ws[..i]) + ws[i].ops
    ensures ws[i].ops == [] ==> GroupOps(ws[..i + 1]) == GroupOps(ws[..i])
  {
    assert ws[..i + 1][..i] == ws[..i];
  }

  lemma {:induction false} RepBoundsOps(rep: Bytes, s: nat, ops: seq<BatchOp>)
    requires Holds(rep, s, ops)
    ensures HEADER + |ops| <= |rep|
  {
    HeaderParts(rep, s, ops);
    BytesBoundOps(ops);
  }

  /** The first batch copied into the temporary one. */
  method Copy(rep: Bytes, ghost s: nat, ghost ops: seq<BatchOp>) returns (r: Bytes)
    requires Represents(rep, s, ops) && |ops| < WORD
    ensures Represents(r, 0, ops) && |r| == |rep|
  {
    assert Unfolded(0);
    ClearHolds();
    AppendHolds(Clear(), 0, [], rep, s, ops);
    r := Append(Clear(), rep);
    assert [] + ops == ops;
    HeaderParts(rep, s, ops);
    HeaderParts(r, 0, ops);
  }

  method AppendBatch(dst: Bytes, ghost s: nat, ghost a: seq<BatchOp>, w: Writer) returns (r: Bytes)
    requires Represents(dst, s, a) && w.Ok() && w.rep.Some? && |dst| + w.ByteSize() < WORD
    ensures Represents(r, s, a + w.ops) && |r| <= |dst| + w.ByteSize() && |a + w.ops| < WORD
  {
    assert Unfolded(0);
    RepBoundsOps(dst, s, a);
    RepBoundsOps(w.rep.value, w.sequence, w.ops);
    AppendHolds(dst, s, a, w.rep.value, w.sequence, w.ops);
    r := Append(dst, w.rep.value);
  }

  lemma {:induction false} FirstOps(queue: seq<Writer>)
    requires queue != []
    ensures GroupOps(queue[..1]) == queue[0].ops
  {
    GroupOpsStep(queue, 0);
    assert queue[..0] == [];
  }

  /** One more batch joins. The caller's own batch is first copied. */
  method JoinBatch(result: Bytes, ghost sequence: nat, ghost ops: seq<BatchOp>, own: bool, w: Writer)
    returns (r: Bytes, ghost s: nat)
    requires Represents(result, sequence, ops) && |ops| < WORD && w.Ok() && w.rep.Some?
             && |result| + w.ByteSize() < WORD
    ensures Represents(r, s, ops + w.ops) && |r| <= |result| + w.ByteSize() && |ops + w.ops| < WORD
  {
    var base := result;
    s := sequence;
    if own {
      base := Copy(result, sequence, ops);
      s := 0;
    }
    r := AppendBatch(base, s, ops, w);
  }

  /** BuildBatchGroup: the batches of the group appended into one, the caller's own batch left alone. */
  method BuildBatchGroup(queue: seq<Writer>) returns (n: nat, result: Bytes, ghost sequence: nat)
    requires queue != [] && queue[0].rep.Some? && |queue[0].ops| < WORD && forall i | 0 <= i < |queue| :: queue[i].Ok()
    ensures n == GroupSize(queue) && Represents(result, sequence, GroupOps(queue[..n])) && |GroupOps(queue[..n])| < WORD
  {
    var first := queue[0];
    result, sequence := first.rep.value, first.sequence;
    var size: nat := first.ByteSize();
    n := 1;
    FirstOps(queue);
    var own := true;                // the result is still the first writer's own batch
    while n < |queue|
      invariant 1 <= n <= |queue| && GroupSize(queue) == Join(queue, n, size)
      invariant Represents(result, sequence, GroupOps(queue[..n])) && |result| <= size && |GroupOps(queue[..n])| < WORD
    {
      var w := queue[n];
      GroupOpsStep(queue, n);
      if w.sync && !first.sync {
        break;
      }
      if w.rep.Some? {
        size := size + w.ByteSize();
        if size > MaxSize(first.ByteSize()) {
          break;
        }
        result, sequence := JoinBatch(result, sequence, GroupOps(queue[..n]), own, w);
        own := false;
      }
      n := n + 1;
    }
  }

  lemma {:induction false} Stamped(rep: Bytes, s: nat, ops: seq<BatchOp>, t: nat)
    requires Represents(rep, s, ops) && |ops| < WORD && t <= MAX_SEQUENCE
    ensures |rep| >= HEADER && Represents(SetSequence(rep, t), t, ops)
    ensures |SetSequence(rep, t)| >= HEADER && Sequence(SetSequence(rep, t)) == t && Count(SetSequence(rep, t)) == |ops|
  {
    assert Unfolded(0);
    SetSequenceHolds(rep, s, ops, t);
    SequenceIs(SetSequence(rep, t), t, ops);
    CountIs(SetSequence(rep, t), t, ops);
  }

  /** What the leader logs: the group's batch under the next sequence number; the last one moves past all its
      operations. */
  method GroupRecord(queue: seq<Writer>, lastSequence: nat) returns (n: nat, contents: Bytes, last: nat)
    requires queue != [] && queue[0].rep.Some? && |queue[0].ops| < WORD && forall i | 0 <= i < |queue| :: queue[i].Ok()
    requires lastSequence < MAX_SEQUENCE
    ensures n == GroupSize(queue) && last == lastSequence + |GroupOps(queue[..n])|
    ensures Represents(contents, lastSequence + 1, GroupOps(queue[..n]))
    ensures |contents| >= HEADER && Sequence(contents) == lastSequence + 1 && Count(contents) == |GroupOps(queue[..n])|
  {
    var batch;
    ghost var sequence;
    n, batch, sequence := BuildBatchGroup(queue);
    Stamped(batch, sequence, GroupOps(queue[..n]), lastSequence + 1);
    contents := SetSequence(batch, lastSequence + 1);
    last := lastSequence + Count(contents);
  }

  // ---- The protocol ---------------------------------------------------------------------------

  /** What became of a writer: `first` and `count` are the sequence numbers its operations were given. */
  datatype Done = Done(writer: Writer, ok: bool, first: nat, count: nat, leaderSync: bool)

  /** Room: the front writer waits for room. Writing: it writes the group of the first `n`. */
  datatype Phase = Free | Room | Writing(n: nat, first: nat, ops: seq<BatchOp>, logged: bool, inserted: nat)

  datatype State = State(queue: seq<Writer>, phase: Phase, lastSequence: nat, log: seq<(nat, seq<BatchOp>)>,
                         mem: seq<(nat, BatchOp)>, done: seq<Done>, failed: bool)

  datatype Step =
    | Arrive(w: Writer)
    | Begin
    | RoomFails
    | RoomMade
    | LogFails
    | LogWritten
    | SyncFails
    | Insert
    | Finish

  predicate Enabled(s: State, t: Step) {
    match t
    case Arrive(_) => true
    case Begin => s.phase.Free? && s.queue != []
    case RoomFails => s.phase.Room? && s.queue != []
    case RoomMade => s.phase.Room? && s.queue != [] && !s.failed
    case LogFails => s.phase.Writing? && !s.phase.logged && s.phase.n <= |s.queue|
    case LogWritten => s.phase.Writing? && !s.phase.logged
    case SyncFails => s.phase.Writing? && s.phase.logged && s.phase.inserted == 0 && 0 < s.phase.n <= |s.queue|
      && s.queue[0].sync
    case Insert => s.phase.Writing? && s.phase.logged && s.phase.inserted < |s.phase.ops|
    case Finish => s.phase.Writing? && s.phase.logged && s.phase.inserted == |s.phase.ops| && s.phase.n <= |s.queue|
  }

  /** The writers of a group, popped one after another; their operations are numbered from `first` on. */
  function Completions(ws: seq<Writer>, ok: bool, first: nat, leaderSync: bool): (r: seq<Done>)
    ensures |r| == |ws|
  {
    if ws == [] then []
    else
      [Done(ws[0], ok, first, |ws[0].ops|, leaderSync)] + Completions(ws[1..], ok, first + |ws[0].ops|, leaderSync)
  }

  /** The group is taken off the queue; the sequence numbers it was given are used up either way. */
  function Complete(s: State, ok: bool): State
    requires s.phase.Writing? && s.phase.n <= |s.queue|
  {
    var p := s.phase;
    s.(queue := s.queue[p.n..], phase := Free, lastSequence := s.lastSequence + |p.ops|,
       done := s.done + Completions(s.queue[..p.n], ok, p.first, s.queue != [] && s.queue[0].sync))
  }

  function Apply(s: State, t: Step): State
    requires Enabled(s, t)
  {
    match t
    case Arrive(w) => s.(queue := s.queue + [w])
    case Begin => s.(phase := Room)
    case RoomFails =>
      s.(queue := s.queue[1..], phase := Free,
         done := s.done + [Done(s.queue[0], false, s.lastSequence + 1, 0, s.queue[0].sync)])
    case RoomMade =>
      if s.queue[0].rep.None? then
        s.(queue := s.queue[1..], phase := Free,
           done := s.done + [Done(s.queue[0], true, s.lastSequence + 1, 0, s.queue[0].sync)])
      else
        var n := GroupSize(s.queue);
        s.(phase := Writing(n, s.lastSequence + 1, GroupOps(s.queue[..n]), false, 0))
    case LogFails => Complete(s, false)
    case LogWritten => s.(phase := s.phase.(logged := true), log := s.log + [(s.phase.first, s.phase.ops)])
    case SyncFails => Complete(s, false).(failed := true)
    case Insert =>
      s.(mem := s.mem + [(s.phase.first + s.phase.inserted, s.phase.ops[s.phase.inserted])],
         phase := s.phase.(inserted := s.phase.inserted + 1))
    case Finish => Complete(s, true)
  }

  // ---- What every state satisfies -----------------------------------------------------------

  /** MemTableInserter: consecutive sequence numbers from `first` on. */
  function Number(first: nat, ops: seq<BatchOp>): (r: seq<(nat, BatchOp)>)
    ensures |r| == |ops|
  {
    seq(|ops|, i requires 0 <= i < |ops| => (first + i, ops[i]))
  }

  /** The batches of the writers that succeeded, inserted one after another. */
  function Serial(ds: seq<Done>): seq<(nat, BatchOp)> {
    if ds == [] then [] else Serial(ds[..|ds| - 1]) + Inserted(ds[|ds| - 1])
  }

  function Inserted(d: Done): seq<(nat, BatchOp)> { if d.ok then Number(d.first, d.writer.ops) else [] }

  function WritersOf(ds: seq<Done>): (r: seq<Writer>)
    ensures |r| == |ds|
  {
    seq(|ds|, i requires 0 <= i < |ds| => ds[i].writer)
  }

  /** Where the sequence numbers after the first `i` completions go on. */
  function NextAfter(ds: seq<Done>, i: nat): nat
    requires i <= |ds|
  {
    if i == 0 then 1 else ds[i - 1].first + ds[i - 1].count
  }

  predicate DoneOk(ds: seq<Done>, i: nat)
    requires i < |ds|
  {
    && ds[i].first == NextAfter(ds, i) && (ds[i].ok ==> ds[i].count == |ds[i].writer.ops|)
    && (ds[i].writer.sync ==> ds[i].leaderSync)
  }

  /** Writers complete in the order of arrival, and their sequence numbers follow one another. */
  ghost predicate Ordered(done: seq<Done>, queue: seq<Writer>, last: nat, arrivals: seq<Writer>) {
    forall n | Filed(n) ::
      && arrivals == WritersOf(done) + queue
      && (forall i | 0 <= i < |arrivals| :: arrivals[i].Ok())
      && (forall i | 0 <= i < |done| :: DoneOk(done, i)) && NextAfter(done, |done|) == last + 1
  }

  /** A marker like `Unfolded`, for the order of completion. */
  predicate Filed(n: nat) { n >= 0 }

  /** The group being written is a prefix of the queue that its leader may serve. */
  ghost predicate PhaseOk(queue: seq<Writer>, phase: Phase, last: nat) {
    && (phase.Room? ==> queue != [])
    && (phase.Writing? ==>
          && 1 <= phase.n <= |queue| && phase.first == last + 1 && phase.ops == GroupOps(queue[..phase.n])
          && (forall k | 0 <= k < phase.n :: queue[k].sync ==> queue[0].sync)
          && phase.inserted <= |phase.ops| && (phase.inserted > 0 ==> phase.logged))
  }

  /** The memtable holds the successful batches one by one, and what has been inserted of the current group. */
  ghost predicate MemOk(mem: seq<(nat, BatchOp)>, done: seq<Done>, phase: Phase) {
    forall n | Unfolded(n) ::
      if phase.Writing? then phase.inserted <= |phase.ops|
        && mem == Serial(done) + Number(phase.first, phase.ops[..phase.inserted])
      else mem == Serial(done)
  }

  ghost predicate Inv(s: State, arrivals: seq<Writer>) {
    Ordered(s.done, s.queue, s.lastSequence, arrivals) && PhaseOk(s.queue, s.phase, s.lastSequence)
      && MemOk(s.mem, s.done, s.phase)
  }

  function Init(): State { State([], Free, 0, [], [], [], false) }

  lemma {:induction false} InitInv()
    ensures Inv(Init(), [])
  {
  }

  lemma {:induction false} NumberConcat(first: nat, a: seq<BatchOp>, b: seq<BatchOp>)
    ensures Number(first, a + b) == Number(first, a) + Number(first + |a|, b)
  {
  }

  lemma {:induction false} SerialConcat(a: seq<Done>, b: seq<Done>)
    ensures Serial(a + b) == Serial(a) + Serial(b)
    decreases |b|
  {
    if b == [] {
      assert a + b == a;
    } else {
      var n := |b| - 1;
      var x, y, z := Serial(a), Serial(b[..n]), Inserted(b[n]);
      SerialConcat(a, b[..n]);
      assert (a + b)[..|a + b| - 1] == a + b[..n] && (a + b)[|a + b| - 1] == b[n];
      assert (x + y) + z == x + (y + z);
    }
  }

  lemma {:induction false} GroupOpsFront(ws: seq<Writer>)
    requires ws != []
    ensures GroupOps(ws) == ws[0].ops + GroupOps(ws[1..])
  {
    var n := |ws| - 1;
    if n == 0 {
      assert ws[..0] == [] && ws[1..] == [];
    } else {
      var front, rest := ws[..n], ws[1..];
      GroupOpsFront(front);
      assert front[1..] == rest[..n - 1] && rest[n - 1] == ws[n] && front[0] == ws[0];
      var a, b, c := ws[0].ops, GroupOps(front[1..]), ws[n].ops;
      assert (a + b) + c == a + (b + c);
    }
  }

  lemma {:induction false} SerialFront(d: Done, ds: seq<Done>)
    ensures Serial([d] + ds) == Inserted(d) + Serial(ds)
  {
    SerialConcat([d], ds);
    assert [d][..0] == [] && Serial([d]) == Serial([]) + Inserted(d);
  }

  /** Inserting the merged batch is inserting the members' batches one after another. */
  lemma {:induction false} MergedIsSerial(ws: seq<Writer>, first: nat, leaderSync: bool)
    ensures Serial(Completions(ws, true, first, leaderSync)) == Number(first, GroupOps(ws))
    decreases |ws|
  {
    if ws != [] {
      var w, next := ws[0], first + |ws[0].ops|;
      MergedIsSerial(ws[1..], next, leaderSync);
      SerialFront(Done(w, true, first, |w.ops|, leaderSync), Completions(ws[1..], true, next, leaderSync));
      GroupOpsFront(ws);
      NumberConcat(first, w.ops, GroupOps(ws[1..]));
    }
  }

  lemma {:induction false} FailedAddNothing(ws: seq<Writer>, first: nat, leaderSync: bool)
    ensures Serial(Completions(ws, false, first, leaderSync)) == []
    decreases |ws|
  {
    if ws != [] {
      var w, next := ws[0], first + |ws[0].ops|;
      FailedAddNothing(ws[1..], next, leaderSync);
      SerialFront(Done(w, false, first, |w.ops|, leaderSync), Completions(ws[1..], false, next, leaderSync));
    }
  }

  /** A completed group carries on the sequence numbers and the writers in order. */
  lemma {:induction false} CompletionAt(ws: seq<Writer>, ok: bool, first: nat, leaderSync: bool, i: nat)
    requires i < |ws|
    ensures Completions(ws, ok, first, leaderSync)[i] ==
            Done(ws[i], ok, first + |GroupOps(ws[..i])|, |ws[i].ops|, leaderSync)
    decreases |ws|
  {
    if i > 0 {
      CompletionAt(ws[1..], ok, first + |ws[0].ops|, leaderSync, i - 1);
      assert ws[..i][1..] == ws[1..][..i - 1];
      GroupOpsFront(ws[..i]);
    } else {
      assert ws[..0] == [];
    }
  }

  lemma {:induction false} CompletedDoneOk(ds: seq<Done>, ws: seq<Writer>, ok: bool, first: nat, leaderSync: bool,
                                           i: nat)
    requires (forall k | 0 <= k < |ds| :: DoneOk(ds, k)) && NextAfter(ds, |ds|) == first
    requires (forall k | 0 <= k < |ws| :: ws[k].sync ==> leaderSync) && i < |ds| + |ws|
    ensures DoneOk(ds + Completions(ws, ok, first, leaderSync), i)
  {
    var es := ds + Completions(ws, ok, first, leaderSync);
    if i < |ds| {
      assert DoneOk(ds, i);
    } else {
      var k := i - |ds|;
      CompletionAt(ws, ok, first, leaderSync, k);
      if k > 0 {
        CompletionAt(ws, ok, first, leaderSync, k - 1);
        GroupOpsStep(ws, k - 1);
      } else {
        assert ws[..0] == [];
      }
    }
  }

  lemma {:induction false} CompletedNext(ds: seq<Done>, ws: seq<Writer>, ok: bool, first: nat, leaderSync: bool)
    requires ws != []
    ensures var es := ds + Completions(ws, ok, first, leaderSync);
            NextAfter(es, |es|) == first + |GroupOps(ws)|
  {
    var n := |ws| - 1;
    CompletionAt(ws, ok, first, leaderSync, n);
    GroupOpsStep(ws, n);
    assert ws[..n + 1] == ws;
  }

  lemma {:induction false} CompletedWriters(ds: seq<Done>, ws: seq<Writer>, ok: bool, first: nat, leaderSync: bool)
    ensures WritersOf(ds + Completions(ws, ok, first, leaderSync)) == WritersOf(ds) + ws
  {
    forall k | 0 <= k < |ws| ensures Completions(ws, ok, first, leaderSync)[k].writer == ws[k] {
      CompletionAt(ws, ok, first, leaderSync, k);
    }
  }

  lemma {:induction false} CompletedSerial(ds: seq<Done>, ws: seq<Writer>, ok: bool, first: nat, leaderSync: bool)
    ensures Serial(ds + Completions(ws, ok, first, leaderSync)) ==
            Serial(ds) + if ok then Number(first, GroupOps(ws)) else []
  {
    SerialConcat(ds, Completions(ws, ok, first, leaderSync));
    if ok {
      MergedIsSerial(ws, first, leaderSync);
    } else {
      FailedAddNothing(ws, first, leaderSync);
    }
  }

  lemma {:induction false} CompleteOrdered(done: seq<Done>, queue: seq<Writer>, last: nat, arrivals: seq<Writer>,
                                           n: nat, ok: bool)
    requires Ordered(done, queue, last, arrivals) && 1 <= n <= |queue|
    requires forall k | 0 <= k < n :: queue[k].sync ==> queue[0].sync
    ensures var es := done + Completions(queue[..n], ok, last + 1, queue[0].sync);
            Ordered(es, queue[n..], last + |GroupOps(queue[..n])|, arrivals)
  {
    assert Filed(0);
    var ws := queue[..n];
    var es := done + Completions(ws, ok, last + 1, queue[0].sync);
    forall i | 0 <= i < |es| ensures DoneOk(es, i) {
      CompletedDoneOk(done, ws, ok, last + 1, queue[0].sync, i);
    }
    CompletedNext(done, ws, ok, last + 1, queue[0].sync);
    CompletedWriters(done, ws, ok, last + 1, queue[0].sync);
    assert queue == ws + queue[n..];
  }

  lemma {:induction false} CompleteMem(mem: seq<(nat, BatchOp)>, done: seq<Done>, phase: Phase, ws: seq<Writer>,
                                       ok: bool, leaderSync: bool)
    requires phase.Writing? && MemOk(mem, done, phase) && phase.ops == GroupOps(ws)
    requires phase.inserted == if ok then |phase.ops| else 0
    ensures MemOk(mem, done + Completions(ws, ok, phase.first, leaderSync), Free)
  {
    assert Unfolded(0);
    CompletedSerial(done, ws, ok, phase.first, leaderSync);
    assert phase.ops[..phase.inserted] == if ok then phase.ops else [];
  }

  lemma {:induction false} CompleteKeepsInv(s: State, arrivals: seq<Writer>, ok: bool)
    requires Inv(s, arrivals) && s.phase.Writing? && s.phase.inserted == if ok then |s.phase.ops| else 0
    ensures Inv(Complete(s, ok), arrivals)
  {
    var p := s.phase;
    CompleteOrdered(s.done, s.queue, s.lastSequence, arrivals, p.n, ok);
    CompleteMem(s.mem, s.done, p, s.queue[..p.n], ok, s.queue[0].sync);
    var r := Complete(s, ok);
    assert r.done == s.done + Completions(s.queue[..p.n], ok, p.first, s.queue[0].sync);
    assert Ordered(r.done, r.queue, r.lastSequence, arrivals);
    assert MemOk(r.mem, r.done, r.phase);
  }

  lemma {:induction false} AloneOrdered(done: seq<Done>, queue: seq<Writer>, last: nat, arrivals: seq<Writer>, ok: bool)
    requires Ordered(done, queue, last, arrivals) && queue != [] && (ok ==> queue[0].ops == [])
    ensures Ordered(done + [Done(queue[0], ok, last + 1, 0, queue[0].sync)], queue[1..], last, arrivals)
  {
    assert Filed(0);
    var es := done + [Done(queue[0], ok, last + 1, 0, queue[0].sync)];
    forall i | 0 <= i < |es| ensures DoneOk(es, i) {
      assert i < |done| ==> DoneOk(done, i);
    }
    assert queue == [queue[0]] + queue[1..];
    assert WritersOf(es) == WritersOf(done) + [queue[0]];
  }

  lemma {:induction false} AloneMem(done: seq<Done>, d: Done)
    requires d.ok ==> d.writer.ops == []
    ensures Serial(done + [d]) == Serial(done)
  {
    assert (done + [d])[..|done|] == done;
    assert Inserted(d) == [];
  }

  lemma {:induction false} AloneKeepsInv(s: State, arrivals: seq<Writer>, ok: bool)
    requires Inv(s, arrivals) && s.phase.Room? && (ok ==> s.queue[0].rep.None?)
    ensures Inv(s.(queue := s.queue[1..], phase := Free,
                   done := s.done + [Done(s.queue[0], ok, s.lastSequence + 1, 0, s.queue[0].sync)]), arrivals)
  {
    assert Filed(0) && Unfolded(0);
    assert s.queue[0] == arrivals[|s.done|] && arrivals[|s.done|].Ok();
    AloneOrdered(s.done, s.queue, s.lastSequence, arrivals, ok);
    AloneMem(s.done, Done(s.queue[0], ok, s.lastSequence + 1, 0, s.queue[0].sync));
  }

  lemma {:induction false} InsertMem(mem: seq<(nat, BatchOp)>, done: seq<Done>, p: Phase)
    requires p.Writing? && p.inserted < |p.ops| && MemOk(mem, done, p)
    ensures MemOk(mem + [(p.first + p.inserted, p.ops[p.inserted])], done, p.(inserted := p.inserted + 1))
  {
    assert Unfolded(0);
    assert p.ops[..p.inserted + 1] == p.ops[..p.inserted] + [p.ops[p.inserted]];
    NumberConcat(p.first, p.ops[..p.inserted], [p.ops[p.inserted]]);
  }

  lemma {:induction false} InsertKeepsInv(s: State, arrivals: seq<Writer>)
    requires Inv(s, arrivals) && Enabled(s, Insert)
    ensures Inv(Apply(s, Insert), arrivals)
  {
    InsertMem(s.mem, s.done, s.phase);
  }

  /** Steps that only change the leader's state. */
  lemma {:induction false} LeaderKeepsInv(s: State, arrivals: seq<Writer>, t: Step)
    requires Inv(s, arrivals) && Enabled(s, t) && (t.Begin? || t.LogWritten?)
    ensures Inv(Apply(s, t), arrivals)
  {
    assert Unfolded(0);
  }

  lemma {:induction false} FailureKeepsInv(s: State, arrivals: seq<Writer>)
    requires Inv(s, arrivals)
    ensures Inv(s.(failed := true), arrivals)
  {
  }

  lemma {:induction false} RoomKeepsInv(s: State, arrivals: seq<Writer>, t: Step)
    requires Inv(s, arrivals) && Enabled(s, t) && (t.RoomFails? || t.RoomMade?)
    ensures Inv(Apply(s, t), arrivals)
  {
    if t.RoomFails? {
      AloneKeepsInv(s, arrivals, false);
    } else if s.queue[0].rep.None? {
      AloneKeepsInv(s, arrivals, true);
    } else {
      GroupKeepsInv(s, arrivals);
    }
  }

  lemma {:induction false} StepKeepsInv(s: State, arrivals: seq<Writer>, t: Step)
    requires Inv(s, arrivals) && Enabled(s, t) && (t.Arrive? ==> t.w.Ok())
    ensures Inv(Apply(s, t), if t.Arrive? then arrivals + [t.w] else arrivals)
  {
    match t
    case Arrive(w) => ArriveKeepsInv(s, arrivals, w);
    case Begin => LeaderKeepsInv(s, arrivals, t);
    case RoomFails => RoomKeepsInv(s, arrivals, t);
    case RoomMade => RoomKeepsInv(s, arrivals, t);
    case LogFails => CompleteKeepsInv(s, arrivals, false);
    case LogWritten => LeaderKeepsInv(s, arrivals, t);
    case SyncFails =>
      CompleteKeepsInv(s, arrivals, false);
      FailureKeepsInv(Complete(s, false), arrivals);
    case Insert => InsertKeepsInv(s, arrivals);
    case Finish => CompleteKeepsInv(s, arrivals, true);
  }

  lemma {:induction false} ArriveKeepsInv(s: State, arrivals: seq<Writer>, w: Writer)
    requires Inv(s, arrivals) && w.Ok()
    ensures Inv(Apply(s, Arrive(w)), arrivals + [w])
  {
    assert Filed(0) && Unfolded(0);
    if s.phase.Writing? {
      assert (s.queue + [w])[..s.phase.n] == s.queue[..s.phase.n];
    }
  }

  lemma {:induction false} GroupKeepsInv(s: State, arrivals: seq<Writer>)
    requires Inv(s, arrivals) && s.phase.Room? && s.queue[0].rep.Some? && !s.failed
    ensures Inv(Apply(s, RoomMade), arrivals)
  {
    assert Unfolded(0);
    var n := GroupSize(s.queue);
    forall k | 0 <= k < n ensures s.queue[k].sync ==> s.queue[0].sync {
      if k > 0 {
        JoinRespectsSync(s.queue, 1, s.queue[0].ByteSize(), k);
      }
    }
    assert GroupOps(s.queue[..n])[..0] == [];
  }

  // ---- Over whole runs ------------------------------------------------------------------------

  ghost predicate IsRun(trace: seq<State>, steps: seq<Step>) {
    && |trace| == |steps| + 1 && trace[0] == Init()
    && (forall k | 0 <= k < |steps| :: RunStep(trace, steps, k))
  }

  ghost predicate RunStep(trace: seq<State>, steps: seq<Step>, k: nat)
    requires |trace| == |steps| + 1 && k < |steps|
  {
    Enabled(trace[k], steps[k]) && (steps[k].Arrive? ==> steps[k].w.Ok()) && trace[k + 1] == Apply(trace[k], steps[k])
  }

  /** The writers in the order in which they called. */
  function Arrivals(steps: seq<Step>): seq<Writer> {
    if steps == [] then []
    else Arrivals(steps[..|steps| - 1]) + (var t := steps[|steps| - 1]; if t.Arrive? then [t.w] else [])
  }

  lemma {:induction false} RunKeepsInv(trace: seq<State>, steps: seq<Step>, k: nat)
    requires IsRun(trace, steps) && k < |trace|
    ensures Inv(trace[k], Arrivals(steps[..k]))
  {
    if k == 0 {
      assert steps[..0] == [];
      InitInv();
    } else {
      RunKeepsInv(trace, steps, k - 1);
      assert RunStep(trace, steps, k - 1);
      assert steps[..k][..k - 1] == steps[..k - 1];
      StepKeepsInv(trace[k - 1], Arrivals(steps[..k - 1]), steps[k - 1]);
    }
  }

  /** Every writer is completed at most once and in the order of arrival; the others are still queued, in order. */
  lemma {:induction false} CompletedInOrder(trace: seq<State>, steps: seq<Step>, k: nat)
    requires IsRun(trace, steps) && k < |trace|
    ensures Arrivals(steps[..k]) == WritersOf(trace[k].done) + trace[k].queue
  {
    assert Filed(0);
    RunKeepsInv(trace, steps, k);
  }

  /** Completed writers have disjoint ranges of sequence numbers, in the order of completion. */
  lemma {:induction false} RangesAreDisjoint(ds: seq<Done>, i: nat, j: nat)
    requires (forall k | 0 <= k < |ds| :: DoneOk(ds, k)) && i < j < |ds|
    ensures ds[i].first + ds[i].count <= ds[j].first
    decreases j
  {
    assert DoneOk(ds, j);
    if i < j - 1 {
      RangesAreDisjoint(ds, i, j - 1);
    }
  }

  lemma {:induction false} RunRangesAreDisjoint(trace: seq<State>, steps: seq<Step>, k: nat, i: nat, j: nat)
    requires IsRun(trace, steps) && k < |trace| && i < j < |trace[k].done|
    ensures trace[k].done[i].first + trace[k].done[i].count <= trace[k].done[j].first
  {
    assert Filed(0);
    RunKeepsInv(trace, steps, k);
    RangesAreDisjoint(trace[k].done, i, j);
  }

  /** Between groups, the memtable holds what writing the successful batches one by one would have put there. */
  lemma {:induction false} CommitIsSerial(trace: seq<State>, steps: seq<Step>, k: nat)
    requires IsRun(trace, steps) && k < |trace| && trace[k].phase.Free?
    ensures trace[k].mem == Serial(trace[k].done)
  {
    assert Unfolded(0);
    RunKeepsInv(trace, steps, k);
  }

  /** Nobody who asked for a sync was served by a leader who did not. */
  lemma {:induction false} SyncIsHonoured(trace: seq<State>, steps: seq<Step>, k: nat, i: nat)
    requires IsRun(trace, steps) && k < |trace| && i < |trace[k].done| && trace[k].done[i].writer.sync
    ensures trace[k].done[i].leaderSync
  {
    assert Filed(0);
    RunKeepsInv(trace, steps, k);
    assert DoneOk(trace[k].done, i);
  }

  // ---- After a failed sync --------------------------------------------------------------------

  lemma {:induction false} FailedStep(s: State, t: Step)
    requires s.failed && !s.phase.Writing? && Enabled(s, t)
    ensures var r := Apply(s, t);
            && r.failed && !r.phase.Writing? && r.log == s.log && r.mem == s.mem && r.lastSequence == s.lastSequence
            && s.done <= r.done && forall i | |s.done| <= i < |r.done| :: !r.done[i].ok
  {
  }

  /** Once a sync has failed, nothing is logged or inserted any more, and every later writer is told of an error. */
  lemma {:induction false} NothingAfterFailure(trace: seq<State>, steps: seq<Step>, k: nat, m: nat)
    requires IsRun(trace, steps) && k < m < |trace| && steps[k].SyncFails?
    ensures trace[m].failed && !trace[m].phase.Writing? && trace[m].log == trace[k].log && trace[m].mem == trace[k].mem
    ensures trace[k].done <= trace[m].done && forall i | |trace[k].done| <= i < |trace[m].done| :: !trace[m].done[i].ok
  {
    assert RunStep(trace, steps, m - 1);
    if k + 1 < m {
      NothingAfterFailure(trace, steps, k, m - 1);
      FailedStep(trace[m - 1], steps[m - 1]);
    } else {
      var s := trace[k];
      forall i | |s.done| <= i < |trace[m].done| ensures !trace[m].done[i].ok {
        CompletionAt(s.queue[..s.phase.n], false, s.phase.first, s.queue[0].sync, i - |s.done|);
      }
    }
  }

  // ---- Write-ahead ----------------------------------------------------------------------------

  /** The logged group gives the operation this sequence number. */
  predicate Gives(group: (nat, seq<BatchOp>), x: (nat, BatchOp)) {
    group.0 <= x.0 < group.0 + |group.1| && group.1[x.0 - group.0] == x.1
  }

  ghost predicate InLog(log: seq<(nat, seq<BatchOp>)>, x: (nat, BatchOp)) {
    exists k :: 0 <= k < |log| && Gives(log[k], x)
  }

  predicate Ascending(log: seq<(nat, seq<BatchOp>)>, next: nat) {
    && (forall j, k | 0 <= j < k < |log| :: log[j].0 + |log[j].1| <= log[k].0)
    && (forall k | 0 <= k < |log| :: log[k].0 + |log[k].1| <= next)
  }

  predicate Numbered(mem: seq<(nat, BatchOp)>, next: nat) {
    (forall i, j | 0 <= i < j < |mem| :: mem[i].0 < mem[j].0) && forall i | 0 <= i < |mem| :: mem[i].0 < next
  }

  /** Everything in the memtable was logged before, under the same number and in the same order. */
  ghost predicate Ahead(s: State) {
    && (forall i | 0 <= i < |s.mem| :: InLog(s.log, s.mem[i]))
    && (s.phase.Writing? ==> s.phase.first == s.lastSequence + 1 && s.phase.inserted <= |s.phase.ops|)
    && (s.phase.Writing? && s.phase.logged ==> s.log != [] && s.log[|s.log| - 1] == (s.phase.first, s.phase.ops))
    && (s.phase.Writing? && !s.phase.logged ==> s.phase.inserted == 0)
    && Ascending(s.log, s.lastSequence + 1 + if s.phase.Writing? && s.phase.logged then |s.phase.ops| else 0)
    && Numbered(s.mem, s.lastSequence + 1 + if s.phase.Writing? then s.phase.inserted else 0)
  }

  lemma {:induction false} LogKeepsAhead(s: State)
    requires Ahead(s) && Enabled(s, LogWritten)
    ensures Ahead(Apply(s, LogWritten))
  {
    var log := Apply(s, LogWritten).log;
    forall i | 0 <= i < |s.mem| ensures InLog(log, s.mem[i]) {
      assert InLog(s.log, s.mem[i]);
      var k :| 0 <= k < |s.log| && Gives(s.log[k], s.mem[i]);
      assert Gives(log[k], s.mem[i]);
    }
  }

  lemma {:induction false} InsertKeepsAhead(s: State)
    requires Ahead(s) && Enabled(s, Insert)
    ensures Ahead(Apply(s, Insert))
  {
    var x := (s.phase.first + s.phase.inserted, s.phase.ops[s.phase.inserted]);
    assert Gives(s.log[|s.log| - 1], x);
    forall i | 0 <= i < |s.mem| + 1 ensures InLog(s.log, (s.mem + [x])[i]) {
      assert i < |s.mem| ==> InLog(s.log, s.mem[i]);
    }
  }

  lemma {:induction false} StepKeepsAhead(s: State, t: Step)
    requires Ahead(s) && Enabled(s, t)
    ensures Ahead(Apply(s, t))
  {
    if t.LogWritten? {
      LogKeepsAhead(s);
    } else if t.Insert? {
      InsertKeepsAhead(s);
    }
  }

  /** In every state, every operation in the memtable stands in the log under its own number, and both are in that
      order. */
  lemma {:induction false} WriteAhead(trace: seq<State>, steps: seq<Step>, k: nat)
    requires IsRun(trace, steps) && k < |trace|
    ensures Ahead(trace[k])
  {
    if k > 0 {
      WriteAhead(trace, steps, k - 1);
      assert RunStep(trace, steps, k - 1);
      StepKeepsAhead(trace[k - 1], steps[k - 1]);
    }
  }
}
