/** Write batches as bytes: a sequence number, a count and the operations. */
module WriteBatch {
  import opened DbFormat
  import opened Coding
  import opened Tokens

  const HEADER: nat := 12

  datatype BatchOp = PutOp(key: Bytes, value: Bytes) | DeleteOp(key: Bytes)

  function OpTag(op: BatchOp): Byte { if op.PutOp? then 1 else 0 }

  function OpParts(op: BatchOp): seq<Token> { if op.PutOp? then [Str(op.key), Str(op.value)] else [Str(op.key)] }

  function OpShape(tag: Byte): seq<Kind> { if tag == 1 then [Slice, Slice] else if tag == 0 then [Slice] else [] }

  function OpBytes(op: BatchOp): Bytes { [OpTag(op)] + TokensBytes(OpParts(op)) }

  function OpsParts(ops: seq<BatchOp>): (xs: seq<Bytes>)
    ensures |xs| == |ops|
  {
    seq(|ops|, i requires 0 <= i < |ops| => OpBytes(ops[i]))
  }

  function OpsBytes(ops: seq<BatchOp>): Bytes { Concat(OpsParts(ops)) }

  function Header(sequence: nat, count: nat): Bytes { PutFixed(sequence, 8) + PutFixed(count, 4) }

  /** The representation holds this sequence number and these operations. */
  predicate Holds(rep: Bytes, sequence: nat, ops: seq<BatchOp>) { rep == Header(sequence, |ops|) + OpsBytes(ops) }

  // ---- The operations on the representation -----------------------------------------------

  function Clear(): Bytes { seq(HEADER, _ => 0) }

  function Count(rep: Bytes): nat
    requires |rep| >= HEADER
  {
    GetFixed(rep, 8, 4)
  }

  function SetCount(rep: Bytes, n: nat): Bytes
    requires |rep| >= HEADER
  {
    rep[..8] + PutFixed(n, 4) + rep[HEADER..]
  }

  function SetSequence(rep: Bytes, s: nat): Bytes
    requires |rep| >= HEADER
  {
    PutFixed(s, 8) + rep[8..]
  }

  function Sequence(rep: Bytes): nat
    requires |rep| >= HEADER
  {
    GetFixed(rep, 0, 8)
  }

  /** WriteBatch::Put and WriteBatch::Delete. */
  function Add(rep: Bytes, op: BatchOp): Bytes
    requires |rep| >= HEADER
  {
    SetCount(rep, Count(rep) + 1) + OpBytes(op)
  }

  function Append(dst: Bytes, src: Bytes): Bytes
    requires |dst| >= HEADER && |src| >= HEADER
  {
    SetCount(dst, Count(dst) + Count(src)) + src[HEADER..]
  }

  // ---- What they hold -----------------------------------------------------------------------

  lemma {:induction false} HeaderParts(rep: Bytes, s: nat, ops: seq<BatchOp>)
    requires Holds(rep, s, ops)
    ensures |rep| == HEADER + |OpsBytes(ops)| && rep[..8] == PutFixed(s, 8) && rep[HEADER..] == OpsBytes(ops)
    ensures At(rep, 8, PutFixed(|ops|, 4)) && At(rep, 0, PutFixed(s, 8))
  {
  }

  lemma {:induction false} CountIs(rep: Bytes, s: nat, ops: seq<BatchOp>)
    requires Holds(rep, s, ops) && |ops| < WORD
    ensures |rep| >= HEADER && Count(rep) == |ops|
  {
    HeaderParts(rep, s, ops);
    assert Power256(4) == WORD;
    FixedInverse(|ops|, 4, rep, 8);
  }

  lemma {:induction false} SequenceIs(rep: Bytes, s: nat, ops: seq<BatchOp>)
    requires Holds(rep, s, ops) && s < WORD * WORD
    ensures |rep| >= HEADER && Sequence(rep) == s
  {
    HeaderParts(rep, s, ops);
    assert Power256(8) == WORD * WORD;
    FixedInverse(s, 8, rep, 0);
  }

  lemma {:induction false} SetCountHolds(rep: Bytes, s: nat, ops: seq<BatchOp>, n: nat)
    requires Holds(rep, s, ops)
    ensures |rep| >= HEADER && SetCount(rep, n) == Header(s, n) + OpsBytes(ops)
  {
    HeaderParts(rep, s, ops);
  }

  lemma {:induction false} SetSequenceHolds(rep: Bytes, s: nat, ops: seq<BatchOp>, t: nat)
    requires Holds(rep, s, ops)
    ensures |rep| >= HEADER && Holds(SetSequence(rep, t), t, ops)
  {
    HeaderParts(rep, s, ops);
    assert rep[8..] == PutFixed(|ops|, 4) + OpsBytes(ops);
  }

  lemma {:induction false} OpsBytesConcat(a: seq<BatchOp>, b: seq<BatchOp>)
    ensures OpsBytes(a + b) == OpsBytes(a) + OpsBytes(b)
  {
    ConcatAppend(OpsParts(a), OpsParts(b));
    OpsPartsConcat(a, b);
  }

  lemma {:induction false} OpsPartsConcat(a: seq<BatchOp>, b: seq<BatchOp>)
    ensures OpsParts(a + b) == OpsParts(a) + OpsParts(b)
  {
  }

  lemma {:induction false} OneOpBytes(op: BatchOp)
    ensures OpsBytes([op]) == OpBytes(op)
  {
    assert OpsParts([op]) == [OpBytes(op)] && [OpBytes(op)][..0] == [];
    assert Concat([OpBytes(op)]) == Concat([]) + OpBytes(op);
  }

  /** Adding an operation adds it at the end. */
  lemma {:induction false} AddHolds(rep: Bytes, s: nat, ops: seq<BatchOp>, op: BatchOp)
    requires Holds(rep, s, ops) && |ops| < WORD
    ensures |rep| >= HEADER && Holds(Add(rep, op), s, ops + [op])
  {
    CountIs(rep, s, ops);
    SetCountHolds(rep, s, ops, |ops| + 1);
    Glue(Header(s, |ops| + 1), ops, [op]);
    OneOpBytes(op);
  }

  /** Appending a batch appends its operations, whatever its sequence number was. */
  lemma {:induction false} AppendHolds(dst: Bytes, s: nat, a: seq<BatchOp>, src: Bytes, t: nat, b: seq<BatchOp>)
    requires Holds(dst, s, a) && Holds(src, t, b) && |a| + |b| < WORD
    ensures |dst| >= HEADER && |src| >= HEADER && Holds(Append(dst, src), s, a + b)
  {
    CountIs(dst, s, a);
    CountIs(src, t, b);
    SetCountHolds(dst, s, a, |a| + |b|);
    Glue(Header(s, |a| + |b|), a, b);
    BodyIs(src, t, b);
  }

  lemma {:induction false} BodyIs(rep: Bytes, s: nat, ops: seq<BatchOp>)
    requires Holds(rep, s, ops)
    ensures |rep| >= HEADER && rep[HEADER..] == OpsBytes(ops)
  {
    HeaderParts(rep, s, ops);
  }

  lemma {:induction false} BodyAt(rep: Bytes, s: nat, ops: seq<BatchOp>)
    requires Holds(rep, s, ops)
    ensures At(rep, HEADER, OpsBytes(ops)) && |rep| == HEADER + |OpsBytes(ops)|
  {
    HeaderParts(rep, s, ops);
  }

  lemma {:induction false} Glue(h: Bytes, a: seq<BatchOp>, b: seq<BatchOp>)
    ensures h + OpsBytes(a) + OpsBytes(b) == h + OpsBytes(a + b)
  {
    OpsBytesConcat(a, b);
  }

  lemma {:induction false} ClearHolds()
    ensures Holds(Clear(), 0, [])
  {
    PutZero(8);
    PutZero(4);
  }

  lemma {:induction false} PutZero(n: nat)
    ensures PutFixed(0, n) == seq(n, _ => 0)
  {
    if n > 0 {
      PutZero(n - 1);
    }
  }

  // ---- Iteration ------------------------------------------------------------------------------

  datatype NextOp = Bad | Found(op: BatchOp, next: nat)

  function MakeOp(ts: seq<Token>): Option<BatchOp> {
    if |ts| == 2 && ts[0].Str? && ts[1].Str? then Some(PutOp(ts[0].s, ts[1].s))
    else if |ts| == 1 && ts[0].Str? then Some(DeleteOp(ts[0].s))
    else None
  }

  /** One operation: its tag and what the tag announces. */
  function GetOp(get: TokenReader, b: Bytes, p: nat): (r: NextOp)
    ensures r.Found? ==> p < r.next <= |b|
  {
    if p >= |b| || b[p] > 1 then Bad
    else
      match GetTokens(get, b, p + 1, OpShape(b[p]), [])
      case None => Bad
      case Some(g) => if MakeOp(g.value).Some? then Found(MakeOp(g.value).value, g.next) else Bad
  }

  function ReadOp(b: Bytes, p: nat): (r: NextOp)
    ensures r.Found? ==> p < r.next <= |b|
  {
    GetOp(GetToken, b, p)
  }

  type OpReader = r: (Bytes, nat) -> NextOp | forall b, p: nat :: r(b, p).Found? ==> p < r(b, p).next <= |b|
    witness (b: Bytes, p: nat) => Bad

  /** The loop of WriteBatch::Iterate: the operations handed to the handler, or an error. */
  function Iterate(read: OpReader, b: Bytes, p: nat, ops: seq<BatchOp>): Option<seq<BatchOp>>
    requires p <= |b|
    decreases |b| - p
  {
    if p == |b| then Some(ops)
    else
      match read(b, p)
      case Bad => None
      case Found(op, q) => Iterate(read, b, q, ops + [op])
  }

  /** WriteBatch::Iterate, which also compares the number of operations with the count in the header. */
  method Operations(rep: Bytes) returns (r: Option<seq<BatchOp>>)
    ensures |rep| < HEADER ==> r == None
    ensures |rep| >= HEADER ==>
              var all := Iterate(ReadOp, rep, HEADER, []);
              r == if all.Some? && |all.value| == Count(rep) then all else None
  {
    if |rep| < HEADER {
      return None;
    }
    var p, ops := HEADER, [];
    while p < |rep|
      invariant p <= |rep| && Iterate(ReadOp, rep, p, ops) == Iterate(ReadOp, rep, HEADER, [])
    {
      var x := ReadOp(rep, p);
      if x.Bad? {
        return None;
      }
      p, ops := x.next, ops + [x.op];
    }
    return if |ops| == Count(rep) then Some(ops) else None;
  }

  predicate OpOk(op: BatchOp) { |op.key| < WORD && (op.PutOp? ==> |op.value| < WORD) }

  lemma {:induction false} OpParsed(get: TokenReader, b: Bytes, p: nat, ts: Got<seq<Token>>, op: BatchOp)
    requires p < |b| && b[p] <= 1 && GetTokens(get, b, p + 1, OpShape(b[p]), []) == Some(ts)
             && MakeOp(ts.value) == Some(op)
    ensures GetOp(get, b, p) == Found(op, ts.next)
  {
  }

  lemma {:induction false} OpReads(get: TokenReader, b: Bytes, p: nat, op: BatchOp)
    requires ReadsTokens(get) && OpOk(op) && At(b, p, OpBytes(op))
    ensures GetOp(get, b, p) == Found(op, p + |OpBytes(op)|)
  {
    var ts := OpParts(op);
    AtConcat(b, p, [OpTag(op)], TokensBytes(ts));
    AtByte(b, p, OpTag(op));
    assert AllFit(OpShape(OpTag(op)), ts);
    TokensRead(get, b, p + 1, OpShape(OpTag(op)), ts);
    OpParsed(get, b, p, Got(ts, p + 1 + |TokensBytes(ts)|), op);
  }

  lemma {:induction false} HandOneByOne(read: OpReader, b: Bytes, ops: seq<BatchOp>, ps: seq<nat>, i: nat)
    requires |ps| == |ops| + 1 && i <= |ops| && ps[i] <= |b| && ps[|ops|] == |b|
    requires forall j | 0 <= j < |ops| :: read(b, ps[j]) == Found(ops[j], ps[j + 1])
    ensures Iterate(read, b, ps[i], ops[..i]) == Some(ops)
    decreases |ops| - i
  {
    if i < |ops| {
      assert ops[..i] + [ops[i]] == ops[..i + 1];
      HandOneByOne(read, b, ops, ps, i + 1);
    } else {
      assert ops[..i] == ops;
    }
  }

  /** The reader returns any operation that stands where it reads. */
  ghost predicate ReadsOps(read: OpReader) {
    forall b, p: nat, op | OpOk(op) && At(b, p, OpBytes(op)) :: read(b, p) == Found(op, p + |OpBytes(op)|)
  }

  lemma {:induction false} ReadOpReads()
    ensures ReadsOps(ReadOp)
  {
    GetTokenReads();
    forall b, p: nat, op | OpOk(op) && At(b, p, OpBytes(op)) ensures ReadOp(b, p) == Found(op, p + |OpBytes(op)|) {
      OpReads(GetToken, b, p, op);
    }
  }

  lemma {:induction false} OpAtPlace(b: Bytes, p: nat, ops: seq<BatchOp>, j: nat)
    requires At(b, p, OpsBytes(ops)) && j < |ops|
    ensures var ps := Places(p, OpsParts(ops)); At(b, ps[j], OpBytes(ops[j])) && ps[j + 1] == ps[j] + |OpBytes(ops[j])|
  {
    assert OpsParts(ops)[..|ops|] == OpsParts(ops);
    ConcatPlaces(b, p, OpsParts(ops), |ops|, j);
  }

  lemma {:induction false} OpPlaces(read: OpReader, b: Bytes, p: nat, ops: seq<BatchOp>) returns (ps: seq<nat>)
    requires ReadsOps(read) && At(b, p, OpsBytes(ops)) && forall j | 0 <= j < |ops| :: OpOk(ops[j])
    ensures |ps| == |ops| + 1 && ps[0] == p && ps[|ops|] == p + |OpsBytes(ops)|
    ensures forall j | 0 <= j < |ops| :: read(b, ps[j]) == Found(ops[j], ps[j + 1])
  {
    ps := Places(p, OpsParts(ops));
    PlacesEnds(p, OpsParts(ops));
    forall j | 0 <= j < |ops| ensures read(b, ps[j]) == Found(ops[j], ps[j + 1]) {
      OpAtPlace(b, p, ops, j);
      assert OpOk(ops[j]);
    }
  }

  lemma {:induction false} IterateHolds(read: OpReader, rep: Bytes, s: nat, ops: seq<BatchOp>)
    requires ReadsOps(read) && Holds(rep, s, ops) && forall j | 0 <= j < |ops| :: OpOk(ops[j])
    ensures |rep| >= HEADER && Iterate(read, rep, HEADER, []) == Some(ops)
  {
    BodyAt(rep, s, ops);
    var ps := OpPlaces(read, rep, HEADER, ops);
    HandOneByOne(read, rep, ops, ps, 0);
    assert ops[..0] == [];
  }

  /** A batch gives back its operations, in order. */
  lemma {:induction false} IterateIsOps(rep: Bytes, s: nat, ops: seq<BatchOp>)
    requires Holds(rep, s, ops) && |ops| < WORD && forall j | 0 <= j < |ops| :: OpOk(ops[j])
    ensures |rep| >= HEADER && Count(rep) == |ops| && Iterate(ReadOp, rep, HEADER, []) == Some(ops)
  {
    CountIs(rep, s, ops);
    ReadOpReads();
    IterateHolds(ReadOp, rep, s, ops);
  }
}
