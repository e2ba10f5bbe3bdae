/** Version edits as manifest records: EncodeTo and DecodeFrom. */
module VersionEdit {
  import opened DbFormat
  import opened Coding
  import opened Tokens

  datatype Meta = Meta(number: nat, size: nat, smallest: Bytes, largest: Bytes)

  datatype Edit = Edit(comparator: Option<Bytes>, logNumber: Option<nat>, prevLogNumber: Option<nat>,
                       nextFile: Option<nat>, lastSequence: Option<nat>,
                       pointers: seq<(nat, Bytes)>, deleted: set<(nat, nat)>, added: seq<(nat, Meta)>)

  function Clear(): Edit { Edit(None, None, None, None, None, [], {}, []) }

  /** One tagged field of a record. */
  datatype Field =
    | Comparator(name: Bytes)
    | LogNumber(n: nat)
    | PrevLogNumber(n: nat)
    | NextFile(n: nat)
    | LastSequence(n: nat)
    | Pointer(level: nat, key: Bytes)
    | Deleted(level: nat, n: nat)
    | NewFile(level: nat, meta: Meta)

  function Tag(f: Field): nat {
    match f
    case Comparator(_) => 1
    case LogNumber(_) => 2
    case NextFile(_) => 3
    case LastSequence(_) => 4
    case Pointer(_, _) => 5
    case Deleted(_, _) => 6
    case NewFile(_, _) => 7
    case PrevLogNumber(_) => 9
  }

  function PartsOf(f: Field): seq<Token> {
    match f
    case Comparator(name) => [Str(name)]
    case LogNumber(n) => [Num(n)]
    case PrevLogNumber(n) => [Num(n)]
    case NextFile(n) => [Num(n)]
    case LastSequence(n) => [Num(n)]
    case Pointer(level, key) => [Num(level), Str(key)]
    case Deleted(level, n) => [Num(level), Num(n)]
    case NewFile(level, m) => [Num(level), Num(m.number), Num(m.size), Str(m.smallest), Str(m.largest)]
  }

  function FieldBytes(f: Field): Bytes { PutVarint(Tag(f)) + TokensBytes(PartsOf(f)) }

  // ---- Decoding -----------------------------------------------------------------------------

  /** The parts that a tag announces; other tags are errors. */
  function Shape(tag: nat): seq<Kind> {
    if tag == 1 then [Slice]
    else if tag == 2 || tag == 3 || tag == 4 || tag == 9 then [Number]
    else if tag == 5 then [Level, Key]
    else if tag == 6 then [Level, Number]
    else if tag == 7 then [Level, Number, Number, Key, Key]
    else []
  }

  /** The field made of the parts read. */
  function Make(tag: nat, ts: seq<Token>): Option<Field> {
    if tag == 1 && |ts| == 1 && ts[0].Str? then Some(Comparator(ts[0].s))
    else if tag == 2 && |ts| == 1 && ts[0].Num? then Some(LogNumber(ts[0].n))
    else if tag == 3 && |ts| == 1 && ts[0].Num? then Some(NextFile(ts[0].n))
    else if tag == 4 && |ts| == 1 && ts[0].Num? then Some(LastSequence(ts[0].n))
    else if tag == 9 && |ts| == 1 && ts[0].Num? then Some(PrevLogNumber(ts[0].n))
    else if tag == 5 && |ts| == 2 && ts[0].Num? && ts[1].Str? then Some(Pointer(ts[0].n, ts[1].s))
    else if tag == 6 && |ts| == 2 && ts[0].Num? && ts[1].Num? then Some(Deleted(ts[0].n, ts[1].n))
    else if tag == 7 && |ts| == 5 && ts[0].Num? && ts[1].Num? && ts[2].Num? && ts[3].Str? && ts[4].Str?
    then Some(NewFile(ts[0].n, Meta(ts[1].n, ts[2].n, ts[3].s, ts[4].s)))
    else None
  }

  datatype Next = End | Bad | Found(field: Field, next: nat)

  /** The next tag and what it announces. */
  function GetField(get: TokenReader, b: Bytes, p: nat): (r: Next)
    ensures r.Found? ==> p < r.next <= |b|
  {
    match GetVarint32(b, p, |b|)
    case None => End
    case Some(tag) =>
      match GetTokens(get, b, tag.next, Shape(tag.value), [])
      case None => Bad
      case Some(g) =>
        match Make(tag.value, g.value)
        case None => Bad
        case Some(f) => Found(f, g.next)
  }

  /** What a field does to the edit being read. */
  function Set(e: Edit, f: Field): Edit {
    match f
    case Comparator(name) => e.(comparator := Some(name))
    case LogNumber(n) => e.(logNumber := Some(n))
    case PrevLogNumber(n) => e.(prevLogNumber := Some(n))
    case NextFile(n) => e.(nextFile := Some(n))
    case LastSequence(n) => e.(lastSequence := Some(n))
    case Pointer(level, key) => e.(pointers := e.pointers + [(level, key)])
    case Deleted(level, n) => e.(deleted := e.deleted + {(level, n)})
    case NewFile(level, m) => e.(added := e.added + [(level, m)])
  }

  type FieldReader = r: (Bytes, nat) -> Next | forall b, p: nat :: r(b, p).Found? ==> p < r(b, p).next <= |b|
    witness (b: Bytes, p: nat) => End

  /** DecodeFrom: fields until no tag can be read; then nothing may be left over. */
  function Decode(read: FieldReader, b: Bytes, p: nat, e: Edit): Option<Edit>
    requires p <= |b|
    decreases |b| - p
  {
    match read(b, p)
    case End => if p == |b| then Some(e) else None
    case Bad => None
    case Found(f, q) => Decode(read, b, q, Set(e, f))
  }

  function ReadField(b: Bytes, p: nat): (r: Next)
    ensures r.Found? ==> p < r.next <= |b|
  {
    GetField(GetToken, b, p)
  }

  method DecodeFrom(src: Bytes) returns (r: Option<Edit>)
    ensures r == Decode(ReadField, src, 0, Clear())
  {
    var p, e := 0, Clear();
    while true
      invariant p <= |src| && Decode(ReadField, src, p, e) == Decode(ReadField, src, 0, Clear())
      decreases |src| - p
    {
      var x := ReadField(src, p);
      match x
      case End => return if p == |src| then Some(e) else None;
      case Bad => return None;
      case Found(f, q) => p, e := q, Set(e, f);
    }
  }

  // ---- Encoding and the round trip ----------------------------------------------------------

  /** The parts of the field have the widths of their kinds, and keys are not empty. */
  predicate FieldOk(f: Field) { AllFit(Shape(Tag(f)), PartsOf(f)) }

  lemma {:induction false} MakeTokens(f: Field)
    ensures Make(Tag(f), PartsOf(f)) == Some(f)
  {
  }

  lemma {:induction false} TagReads(b: Bytes, p: nat, tag: nat, body: Bytes)
    requires tag < 128 && At(b, p, PutVarint(tag) + body)
    ensures GetVarint32(b, p, |b|) == Some(Parsed(tag, p + 1)) && At(b, p + 1, body)
  {
    AtConcat(b, p, PutVarint(tag), body);
    Varint32Inverse(tag, b, p, |b|);
  }

  lemma {:induction false} FieldParsed(get: TokenReader, b: Bytes, p: nat, tag: Parsed, ts: Got<seq<Token>>, f: Field)
    requires GetVarint32(b, p, |b|) == Some(tag) && GetTokens(get, b, tag.next, Shape(tag.value), []) == Some(ts)
    requires Make(tag.value, ts.value) == Some(f)
    ensures GetField(get, b, p) == Found(f, ts.next)
  {
  }

  /** A field reads back. */
  lemma {:induction false} FieldReads(get: TokenReader, b: Bytes, p: nat, f: Field)
    requires ReadsTokens(get) && FieldOk(f) && At(b, p, FieldBytes(f))
    ensures GetField(get, b, p) == Found(f, p + |FieldBytes(f)|)
  {
    var body := TokensBytes(PartsOf(f));
    TagReads(b, p, Tag(f), body);
    TokensRead(get, b, p + 1, Shape(Tag(f)), PartsOf(f));
    MakeTokens(f);
    FieldParsed(get, b, p, Parsed(Tag(f), p + 1), Got(PartsOf(f), p + 1 + |body|), f);
  }

  /** The reader returns any field that stands where it reads. */
  ghost predicate ReadsFields(read: FieldReader) {
    forall b, p: nat, f | FieldOk(f) && At(b, p, FieldBytes(f)) :: read(b, p) == Found(f, p + |FieldBytes(f)|)
  }

  lemma {:induction false} ReadFieldReads()
    ensures ReadsFields(ReadField) && forall b :: ReadField(b, |b|) == End
  {
    GetTokenReads();
    forall b, p: nat, f | FieldOk(f)
      && At(b, p, FieldBytes(f)) ensures ReadField(b, p) == Found(f, p + |FieldBytes(f)|) {
      FieldReads(GetToken, b, p, f);
    }
    forall b ensures ReadField(b, |b|) == End {
    }
  }

  function FieldParts(fs: seq<Field>): (xs: seq<Bytes>)
    ensures |xs| == |fs|
  {
    seq(|fs|, i requires 0 <= i < |fs| => FieldBytes(fs[i]))
  }

  function FieldsBytes(fs: seq<Field>): Bytes { Concat(FieldParts(fs)) }

  function SetAll(e: Edit, fs: seq<Field>): Edit
    decreases |fs|
  {
    if fs == [] then e else SetAll(Set(e, fs[0]), fs[1..])
  }

  lemma {:induction false} SetOneByOne(read: FieldReader, b: Bytes, e: Edit, fs: seq<Field>, ps: seq<nat>, i: nat)
    requires |ps| == |fs| + 1 && i <= |fs| && ps[i] <= |b| && ps[|fs|] == |b| && read(b, |b|) == End
    requires forall j | 0 <= j < |fs| :: read(b, ps[j]) == Found(fs[j], ps[j + 1])
    ensures Decode(read, b, ps[i], e) == Some(SetAll(e, fs[i..]))
    decreases |fs| - i
  {
    if i < |fs| {
      SetOneByOne(read, b, Set(e, fs[i]), fs, ps, i + 1);
      assert fs[i..][1..] == fs[i + 1..];
    } else {
      assert fs[i..] == [];
    }
  }

  lemma {:induction false} OneField(read: FieldReader, b: Bytes, p: nat, f: Field)
    requires ReadsFields(read) && FieldOk(f) && At(b, p, FieldBytes(f))
    ensures read(b, p) == Found(f, p + |FieldBytes(f)|)
  {
  }

  lemma {:induction false} FieldAtPlace(read: FieldReader, fs: seq<Field>, j: nat)
    requires ReadsFields(read) && j < |fs| && FieldOk(fs[j])
    ensures var ps := Places(0, FieldParts(fs)); read(FieldsBytes(fs), ps[j]) == Found(fs[j], ps[j + 1])
  {
    FieldPartAt(fs, j);
    OneField(read, FieldsBytes(fs), Places(0, FieldParts(fs))[j], fs[j]);
  }

  lemma {:induction false} FieldPartAt(fs: seq<Field>, j: nat)
    requires j < |fs|
    ensures var ps := Places(0, FieldParts(fs));
            At(FieldsBytes(fs), ps[j], FieldBytes(fs[j])) && ps[j + 1] == ps[j] + |FieldBytes(fs[j])|
  {
    assert At(FieldsBytes(fs), 0, FieldsBytes(fs)) && FieldParts(fs)[..|fs|] == FieldParts(fs);
    ConcatPlaces(FieldsBytes(fs), 0, FieldParts(fs), |fs|, j);
  }

  lemma {:induction false} FieldPlaces(read: FieldReader, fs: seq<Field>) returns (ps: seq<nat>)
    requires ReadsFields(read) && forall i | 0 <= i < |fs| :: FieldOk(fs[i])
    ensures |ps| == |fs| + 1 && ps[0] == 0 && ps[|fs|] == |FieldsBytes(fs)|
    ensures forall j | 0 <= j < |fs| :: read(FieldsBytes(fs), ps[j]) == Found(fs[j], ps[j + 1])
  {
    ps := Places(0, FieldParts(fs));
    PlacesEnds(0, FieldParts(fs));
    forall j | 0 <= j < |fs| ensures read(FieldsBytes(fs), ps[j]) == Found(fs[j], ps[j + 1]) {
      FieldAtPlace(read, fs, j);
    }
  }

  lemma {:induction false} FieldsDecode(read: FieldReader, e: Edit, fs: seq<Field>)
    requires ReadsFields(read) && (forall i | 0 <= i < |fs| :: FieldOk(fs[i]))
             && read(FieldsBytes(fs), |FieldsBytes(fs)|) == End
    ensures Decode(read, FieldsBytes(fs), 0, e) == Some(SetAll(e, fs))
  {
    var ps := FieldPlaces(read, fs);
    SetOneByOne(read, FieldsBytes(fs), e, fs, ps, 0);
    assert fs[0..] == fs;
  }

  function Opt<T>(o: Option<T>, make: T -> Field): seq<Field> { if o.Some? then [make(o.value)] else [] }

  /** The fields of an edit as EncodeTo writes them; `order` is the iteration order of the deleted files. */
  function Fields(e: Edit, order: seq<(nat, nat)>): seq<Field> {
    Opt(e.comparator, x => Comparator(x)) + Opt(e.logNumber, (n: nat) => LogNumber(n))
    + Opt(e.prevLogNumber, (n: nat) => PrevLogNumber(n)) + Opt(e.nextFile, (n: nat) => NextFile(n))
    + Opt(e.lastSequence, (n: nat) => LastSequence(n))
    + PointerFields(e.pointers) + DeletedFields(order) + AddedFields(e.added)
  }

  function PointerFields(ps: seq<(nat, Bytes)>): seq<Field> {
    seq(|ps|, i requires 0 <= i < |ps| => Pointer(ps[i].0, ps[i].1))
  }

  function DeletedFields(ds: seq<(nat, nat)>): seq<Field> {
    seq(|ds|, i requires 0 <= i < |ds| => Deleted(ds[i].0, ds[i].1))
  }

  function AddedFields(fs: seq<(nat, Meta)>): seq<Field> {
    seq(|fs|, i requires 0 <= i < |fs| => NewFile(fs[i].0, fs[i].1))
  }

  function Encode(e: Edit, order: seq<(nat, nat)>): Bytes { FieldsBytes(Fields(e, order)) }

  lemma {:induction false} SetAllConcat(e: Edit, a: seq<Field>, b: seq<Field>)
    ensures SetAll(e, a + b) == SetAll(SetAll(e, a), b)
    decreases |a|
  {
    if a == [] {
      assert a + b == b;
    } else {
      assert (a + b)[1..] == a[1..] + b;
      SetAllConcat(Set(e, a[0]), a[1..], b);
    }
  }

  lemma {:induction false} SetPointers(e: Edit, ps: seq<(nat, Bytes)>)
    ensures SetAll(e, PointerFields(ps)) == e.(pointers := e.pointers + ps)
    decreases |ps|
  {
    if ps != [] {
      assert PointerFields(ps)[1..] == PointerFields(ps[1..]);
      SetPointers(e.(pointers := e.pointers + [ps[0]]), ps[1..]);
      assert e.pointers + [ps[0]] + ps[1..] == e.pointers + ps;
    } else {
      assert e.pointers + ps == e.pointers;
    }
  }

  lemma {:induction false} SetDeleted(e: Edit, ds: seq<(nat, nat)>)
    ensures SetAll(e, DeletedFields(ds)) == e.(deleted := e.deleted + (set d | d in ds))
    decreases |ds|
  {
    if ds != [] {
      assert DeletedFields(ds)[1..] == DeletedFields(ds[1..]);
      SetDeleted(e.(deleted := e.deleted + {ds[0]}), ds[1..]);
      assert ds == [ds[0]] + ds[1..];
      assert e.deleted + {ds[0]} + (set d | d in ds[1..]) == e.deleted + (set d | d in ds);
    } else {
      assert e.deleted + (set d | d in ds) == e.deleted;
    }
  }

  lemma {:induction false} SetAdded(e: Edit, fs: seq<(nat, Meta)>)
    ensures SetAll(e, AddedFields(fs)) == e.(added := e.added + fs)
    decreases |fs|
  {
    if fs != [] {
      assert AddedFields(fs)[1..] == AddedFields(fs[1..]);
      SetAdded(e.(added := e.added + [fs[0]]), fs[1..]);
      assert e.added + [fs[0]] + fs[1..] == e.added + fs;
    } else {
      assert e.added + fs == e.added;
    }
  }

  /** Setting an optional field, or not. */
  lemma {:induction false} SetOpt<T>(e: Edit, o: Option<T>, make: T -> Field)
    ensures SetAll(e, Opt(o, make)) == if o.Some? then Set(e, make(o.value)) else e
  {
    if o.Some? {
      assert Opt(o, make)[1..] == [];
      assert SetAll(Set(e, make(o.value)), []) == Set(e, make(o.value));
    }
  }

  /** The fields of an edit, set on a clear edit, give the edit back. */
  lemma {:induction false} SetFields(e: Edit, order: seq<(nat, nat)>)
    requires e.deleted == set d | d in order
    ensures SetAll(Clear(), Fields(e, order)) == e
  {
    var a, b, c := Opt(e.comparator, x => Comparator(x)), Opt(e.logNumber, (n: nat) => LogNumber(n)),
                   Opt(e.prevLogNumber, (n: nat) => PrevLogNumber(n));
    var d, f := Opt(e.nextFile, (n: nat) => NextFile(n)), Opt(e.lastSequence, (n: nat) => LastSequence(n));
    var g, h, i := PointerFields(e.pointers), DeletedFields(order), AddedFields(e.added);
    SetAllConcat(Clear(), a + b + c + d + f + g + h, i);
    SetAllConcat(Clear(), a + b + c + d + f + g, h);
    SetAllConcat(Clear(), a + b + c + d + f, g);
    var s := SetAll(Clear(), a + b + c + d + f);
    assert s == Edit(e.comparator, e.logNumber, e.prevLogNumber, e.nextFile, e.lastSequence, [], {}, []) by {
      SetScalars(e);
    }
    SetPointers(s, e.pointers);
    SetDeleted(SetAll(s, g), order);
    SetAdded(SetAll(SetAll(s, g), h), e.added);
  }

  lemma {:induction false} SetScalars(e: Edit)
    ensures SetAll(Clear(), Opt(e.comparator, x => Comparator(x)) + Opt(e.logNumber, (n: nat) => LogNumber(n))
                            + Opt(e.prevLogNumber, (n: nat) => PrevLogNumber(n)) + Opt(e.nextFile,
                                (n: nat) => NextFile(n))
                            + Opt(e.lastSequence, (n: nat) => LastSequence(n)))
            == Edit(e.comparator, e.logNumber, e.prevLogNumber, e.nextFile, e.lastSequence, [], {}, [])
  {
    var a, b, c := Opt(e.comparator, x => Comparator(x)), Opt(e.logNumber, (n: nat) => LogNumber(n)),
                   Opt(e.prevLogNumber, (n: nat) => PrevLogNumber(n));
    var d, f := Opt(e.nextFile, (n: nat) => NextFile(n)), Opt(e.lastSequence, (n: nat) => LastSequence(n));
    SetAllConcat(Clear(), a + b + c + d, f);
    SetAllConcat(Clear(), a + b + c, d);
    SetAllConcat(Clear(), a + b, c);
    SetAllConcat(Clear(), a, b);
    SetOpt(Clear(), e.comparator, x => Comparator(x));
    SetOpt(SetAll(Clear(), a), e.logNumber, (n: nat) => LogNumber(n));
    SetOpt(SetAll(Clear(), a + b), e.prevLogNumber, (n: nat) => PrevLogNumber(n));
    SetOpt(SetAll(Clear(), a + b + c), e.nextFile, (n: nat) => NextFile(n));
    SetOpt(SetAll(Clear(), a + b + c + d), e.lastSequence, (n: nat) => LastSequence(n));
  }

  /** Decoding what was encoded gives the edit back, whatever order the deleted files were written in. */
  lemma {:induction false} RoundTrip(e: Edit, order: seq<(nat, nat)>)
    requires e.deleted == (set d | d in order)
    requires forall i | 0 <= i < |Fields(e, order)| :: FieldOk(Fields(e, order)[i])
    ensures Decode(ReadField, Encode(e, order), 0, Clear()) == Some(e)
  {
    ReadFieldReads();
    FieldsDecode(ReadField, Clear(), Fields(e, order));
    SetFields(e, order);
  }
}
