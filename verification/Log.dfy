/**
 The write-ahead log: records cut into fragments that never cross a 32 KB block, each with a
 checksummed header. The reader is given for arbitrary bytes.
 */
module Log {
  import opened DbFormat
  import opened Coding
  import opened Guard

  const BLOCK: nat := 32768
  const HEADER: nat := 7

  const FULL: Byte := 1
  const FIRST: Byte := 2
  const MIDDLE: Byte := 3
  const LAST: Byte := 4

  /** The reader's own results share the numbering: a fragment that carries one of these types reads as that result. */
  const EOF_TYPE: Byte := 5
  const BAD_TYPE: Byte := 6

  /** The checksum of type byte and payload, and its masking for storage. */
  datatype Checksum = Checksum(crc: Bytes -> nat, mask: nat -> nat, unmask: nat -> nat) {
    ghost predicate Ok() {
      && (forall b :: crc(b) < WORD)
      && (forall x: nat :: x < WORD ==> mask(x) < WORD && unmask(mask(x)) == x)
    }
  }

  /** A fragment as written. */
  datatype Fragment = Fragment(kind: Byte, payload: Bytes)

  function Encode(c: Checksum, f: Fragment): (r: Bytes)
    ensures |r| == HEADER + |f.payload|
  {
    Fixed32(c.mask(c.crc([f.kind] + f.payload))) + PutFixed(|f.payload|, 2) + [f.kind] + f.payload
  }

  // ---- Reading ------------------------------------------------------------------------------

  datatype Read = Record(fragment: Fragment) | Eof | Bad

  /** The reader's buffer is `file[pos..end]`; `eof` after a short read; `reports` counts corruption reports. */
  datatype Reader = Reader(pos: nat, end: nat, eof: bool, reports: nat)

  /** The next block, or what there is of it. */
  function Refill(file: Bytes, s: Reader): Reader
    requires s.end <= |file|
  {
    var e := if s.end + BLOCK <= |file| then s.end + BLOCK else |file|;
    Reader(s.end, e, e - s.end < BLOCK, s.reports)
  }

  predicate InFile(file: Bytes, s: Reader) { s.pos <= s.end <= |file| }

  /** One fragment from a buffer that holds a header. */
  function Parse(c: Checksum, file: Bytes, s: Reader): (Reader, Read)
    requires InFile(file, s) && s.pos + HEADER <= s.end
  {
    var length := GetFixed(file, s.pos + 4, 2);
    var kind := file[s.pos + 6];
    var drop := s.(pos := s.end);
    if HEADER + length > s.end - s.pos then
      if !s.eof then (drop.(reports := s.reports + 1), Bad) else (drop, Eof)
    else if kind == 0 && length == 0 then (drop, Bad)
    else if c.unmask(DecodeFixed32(file, s.pos)) != c.crc(file[s.pos + 6..s.pos + HEADER + length]) then
      (drop.(reports := s.reports + 1), Bad)
    else
      var next := s.(pos := s.pos + HEADER + length);
      if kind == EOF_TYPE then (next, Eof)
      else if kind == BAD_TYPE then (next, Bad)
      else (next, Record(Fragment(kind, file[s.pos + HEADER..s.pos + HEADER + length])))
  }

  /** ReadPhysicalRecord. */
  function ReadPhysical(c: Checksum, file: Bytes, s: Reader): (r: (Reader, Read))
    requires InFile(file, s)
    ensures InFile(file, r.0) && s.pos <= r.0.pos && (!r.1.Eof? ==> s.pos < r.0.pos)
    decreases if s.eof then 0 else 1, |file| - s.end
  {
    if s.end - s.pos >= HEADER then Parse(c, file, s)
    else if !s.eof then ReadPhysical(c, file, Refill(file, s))
    else (s.(pos := s.end), Eof)
  }

  method ReadPhysicalRecord(c: Checksum, file: Bytes, s0: Reader) returns (s: Reader, r: Read)
    requires InFile(file, s0)
    ensures (s, r) == ReadPhysical(c, file, s0)
  {
    s := s0;
    while true
      invariant InFile(file, s) && ReadPhysical(c, file, s) == ReadPhysical(c, file, s0)
      decreases if s.eof then 0 else 1, |file| - s.end
    {
      if s.end - s.pos < HEADER {
        if !s.eof {
          s := Refill(file, s);
          continue;
        }
        return s.(pos := s.end), Eof;
      }
      var t := Parse(c, file, s);
      return t.0, t.1;
    }
  }

  function Report(s: Reader, n: nat): Reader { s.(reports := s.reports + n) }

  /** ReadRecord, from within a fragmented record or not. */
  function ReadLogical(c: Checksum, file: Bytes, s: Reader, inFragmented: bool, scratch: Bytes)
    : (r: (Reader, Option<Bytes>))
    requires InFile(file, s)
    ensures InFile(file, r.0) && s.pos <= r.0.pos && (r.1.Some? ==> s.pos < r.0.pos)
    decreases |file| - s.pos
  {
    var (t, x) := ReadPhysical(c, file, s);
    match x
    case Eof => (t, None)
    case Bad => ReadLogical(c, file, Report(t, if inFragmented then 1 else 0), false, if inFragmented then []
      else scratch)
    case Record(f) =>
      var lost := if inFragmented && scratch != [] then 1 else 0;
      if f.kind == FULL then (Report(t, lost), Some(f.payload))
      else if f.kind == FIRST then ReadLogical(c, file, Report(t, lost), true, f.payload)
      else if f.kind == MIDDLE then
        if inFragmented then ReadLogical(c, file, t, true, scratch + f.payload)
        else ReadLogical(c, file, Report(t, 1), false, scratch)
      else if f.kind == LAST then
        if inFragmented then (t, Some(scratch + f.payload))
        else ReadLogical(c, file, Report(t, 1), false, scratch)
      else ReadLogical(c, file, Report(t, 1), false, [])
  }

  method ReadRecord(c: Checksum, file: Bytes, s0: Reader) returns (s: Reader, r: Option<Bytes>)
    requires InFile(file, s0)
    ensures (s, r) == ReadLogical(c, file, s0, false, [])
  {
    var inFragmented, scratch := false, [];
    s := s0;
    while true
      invariant InFile(file, s) && ReadLogical(c, file, s, inFragmented, scratch) == ReadLogical(c, file, s0, false, [])
      decreases |file| - s.pos
    {
      var t, x := ReadPhysicalRecord(c, file, s);
      s := t;
      match x
      case Eof => return s, None;
      case Bad =>
        if inFragmented {
          s, inFragmented, scratch := Report(s, 1), false, [];
        }
      case Record(f) =>
        if f.kind == FULL {
          s := Report(s, if inFragmented && scratch != [] then 1 else 0);
          return s, Some(f.payload);
        } else if f.kind == FIRST {
          s := Report(s, if inFragmented && scratch != [] then 1 else 0);
          scratch, inFragmented := f.payload, true;
        } else if f.kind == MIDDLE {
          if inFragmented {
            scratch := scratch + f.payload;
          } else {
            s := Report(s, 1);
          }
        } else if f.kind == LAST {
          if inFragmented {
            return s, Some(scratch + f.payload);
          }
          s := Report(s, 1);
        } else {
          s, inFragmented, scratch := Report(s, 1), false, [];
        }
    }
  }

  // ---- What is written --------------------------------------------------------------------

  /** A fragment never starts where its header would cross a block boundary. */
  function Skip(x: nat): nat { if BLOCK - x % BLOCK < HEADER then x + (BLOCK - x % BLOCK) else x }

  function End(fs: seq<Fragment>, starts: seq<nat>, i: nat): nat
    requires |fs| == |starts| && i <= |fs|
  {
    if i == 0 then 0 else starts[i - 1] + HEADER + |fs[i - 1].payload|
  }

  /** Fragment `i` stands at `starts[i]`, right after its predecessor but for padding, inside one block. */
  predicate FragmentAt(c: Checksum, log: Bytes, fs: seq<Fragment>, starts: seq<nat>, i: nat)
    requires |fs| == |starts| && i < |fs|
  {
    && starts[i] == Skip(End(fs, starts, i)) && starts[i] % BLOCK + HEADER + |fs[i].payload| <= BLOCK
    && FULL <= fs[i].kind <= LAST && At(log, starts[i], Encode(c, fs[i]))
  }

  /** The bytes between two fragments are zero. */
  ghost predicate Padded(log: Bytes, fs: seq<Fragment>, starts: seq<nat>)
    requires |fs| == |starts|
  {
    forall n | Unfolded(n) :: forall i | 0 <= i < |fs| :: ZeroBetween(log, End(fs, starts, i), starts[i])
  }

  predicate ZeroBetween(log: Bytes, a: nat, b: nat) { forall k | a <= k < b && k < |log| :: log[k] == 0 }

  /** The log is these fragments and nothing more. */
  ghost predicate IsLog(c: Checksum, log: Bytes, fs: seq<Fragment>, starts: seq<nat>) {
    && |fs| == |starts| && (forall i | 0 <= i < |fs| :: FragmentAt(c, log, fs, starts, i))
    && |log| == End(fs, starts, |fs|) && Padded(log, fs, starts)
  }

  function Payloads(fs: seq<Fragment>): Bytes {
    if fs == [] then [] else Payloads(fs[..|fs| - 1]) + fs[|fs| - 1].payload
  }

  /** `fs[a..b]` carries the record, cut as the writer cuts. */
  predicate Carries(fs: seq<Fragment>, a: nat, b: nat, record: Bytes)
    requires a <= b <= |fs|
  {
    && a < b && Payloads(fs[a..b]) == record
    && (forall i | a <= i < b :: fs[i].kind == KindOf(i == a, i == b - 1))
  }

  function KindOf(begin: bool, end: bool): Byte {
    if begin && end then FULL else if begin then FIRST else if end then LAST else MIDDLE
  }

  /** The records of the log: record `r` is carried by the fragments from `cuts[r]` to `cuts[r + 1]`. */
  ghost predicate Holds(fs: seq<Fragment>, cuts: seq<nat>, records: seq<Bytes>) {
    && |cuts| == |records| + 1 && cuts[0] == 0 && cuts[|records|] == |fs|
    && (forall r | 0 <= r < |records| :: RecordAt(fs, cuts, records, r))
  }

  predicate RecordAt(fs: seq<Fragment>, cuts: seq<nat>, records: seq<Bytes>, r: nat)
    requires |cuts| == |records| + 1 && r < |records|
  {
    cuts[r] <= cuts[r + 1] <= |fs| && Carries(fs, cuts[r], cuts[r + 1], records[r])
  }

  // ---- Reading it back, cut off anywhere --------------------------------------------------

  /** The reader is about to read fragment `i`. */
  ghost predicate Ready(file: Bytes, s: Reader, fs: seq<Fragment>, starts: seq<nat>, i: nat)
    requires |fs| == |starts| && i <= |fs|
  {
    && InFile(file, s) && End(fs, starts, i) <= s.pos
       && (if i < |fs| then Skip(s.pos) == starts[i] else |file| <= s.pos)
    && (if s.eof then s.end == |file| else s.end % BLOCK == 0)
    && (s.pos < s.end ==> s.end <= s.pos + (BLOCK - s.pos % BLOCK))
  }

  lemma {:induction false} FragmentBytes(c: Checksum, b: Bytes, p: nat, f: Fragment)
    requires c.Ok() && |f.payload| < BLOCK && At(b, p, Encode(c, f))
    ensures GetFixed(b, p + 4, 2) == |f.payload| && b[p + 6] == f.kind
    ensures c.unmask(DecodeFixed32(b, p)) == c.crc([f.kind] + f.payload)
    ensures b[p + 6..p + HEADER + |f.payload|] == [f.kind] + f.payload
            && b[p + HEADER..p + HEADER + |f.payload|] == f.payload
  {
    var sum, len, kind := Fixed32(c.mask(c.crc([f.kind] + f.payload))), PutFixed(|f.payload|, 2), [f.kind];
    AtConcat(b, p, sum + len + kind, f.payload);
    AtConcat(b, p, sum + len, kind);
    AtConcat(b, p, sum, len);
    Fixed32Inverse(c.mask(c.crc([f.kind] + f.payload)), b, p);
    assert Power256(2) == 65536;
    FixedInverse(|f.payload|, 2, b, p + 4);
    assert b[p + 6] == b[p + 6..p + 7][0];
    assert b[p + 6..p + HEADER + |f.payload|] == b[p + 6..p + 7] + b[p + 7..p + 7 + |f.payload|];
  }

  lemma {:induction false} GetFixedPrefix(a: Bytes, b: Bytes, p: nat, n: nat)
    requires a <= b && p + n <= |a|
    ensures GetFixed(a, p, n) == GetFixed(b, p, n)
    decreases n
  {
    if n > 0 {
      GetFixedPrefix(a, b, p + 1, n - 1);
    }
  }

  lemma {:induction false} AtInPrefix(a: Bytes, b: Bytes, p: nat, s: Bytes)
    requires a <= b && At(b, p, s) && p + |s| <= |a|
    ensures At(a, p, s)
  {
    assert a[p..p + |s|] == b[p..p + |s|];
  }

  /** A buffer that ends before the fragment does was cut off by the end of the file. */
  lemma {:induction false} CutOffIsEof(file: Bytes, s: Reader, length: nat)
    requires InFile(file, s) && s.pos < s.end <= s.pos + (BLOCK - s.pos % BLOCK)
    requires if s.eof then s.end == |file| else s.end % BLOCK == 0
    requires s.pos % BLOCK + HEADER + length <= BLOCK && HEADER + length > s.end - s.pos
    ensures s.eof
  {
  }

  /** With the whole fragment in the buffer, it is what Parse returns. */
  lemma {:induction false} ParseWhole(c: Checksum, file: Bytes, s: Reader, f: Fragment)
    requires c.Ok() && InFile(file, s) && |f.payload| < BLOCK && FULL <= f.kind <= LAST
    requires At(file, s.pos, Encode(c, f)) && s.pos + HEADER + |f.payload| <= s.end
    ensures Parse(c, file, s) == (s.(pos := s.pos + HEADER + |f.payload|), Record(f))
  {
    FragmentBytes(c, file, s.pos, f);
  }

  /** With only the header in the buffer at the end of the file, it is the end. */
  lemma {:induction false} ParseCut(c: Checksum, file: Bytes, s: Reader, length: nat)
    requires InFile(file, s) && s.pos + HEADER <= s.end && GetFixed(file, s.pos + 4, 2) == length
    requires s.eof && HEADER + length > s.end - s.pos
    ensures Parse(c, file, s) == (s.(pos := s.end), Eof)
  {
  }

  lemma {:induction false} ParseStep(c: Checksum, log: Bytes, file: Bytes, fs: seq<Fragment>, starts: seq<nat>,
                                     s: Reader, i: nat)
    requires c.Ok() && IsLog(c, log, fs, starts) && file <= log && i <= |fs|
    requires Ready(file, s, fs, starts, i) && s.pos + HEADER <= s.end
    ensures var (t, x) := Parse(c, file, s);
            && t.reports == s.reports
            && if i < |fs| && End(fs, starts, i + 1) <= |file| then x == Record(fs[i])
               && Ready(file, t, fs, starts, i + 1)
               else x == Eof
  {
    assert FragmentAt(c, log, fs, starts, i);
    var p, f := s.pos, fs[i];
    assert Skip(p) == p;
    if HEADER + |f.payload| > s.end - p {
      FragmentBytes(c, log, p, f);
      GetFixedPrefix(file, log, p + 4, 2);
      CutOffIsEof(file, s, |f.payload|);
      ParseCut(c, file, s, |f.payload|);
    } else {
      AtInPrefix(file, log, p, Encode(c, f));
      ParseWhole(c, file, s, f);
      NextReady(c, log, file, fs, starts, s, i);
    }
  }

  lemma {:induction false} NextReady(c: Checksum, log: Bytes, file: Bytes, fs: seq<Fragment>, starts: seq<nat>,
                                     s: Reader, i: nat)
    requires IsLog(c, log, fs, starts) && file <= log && i < |fs| && Ready(file, s, fs, starts, i)
    requires s.pos == starts[i] && s.pos + HEADER + |fs[i].payload| <= s.end
    ensures Ready(file, s.(pos := s.pos + HEADER + |fs[i].payload|), fs, starts, i + 1)
  {
    assert FragmentAt(c, log, fs, starts, i);
    assert i + 1 < |fs| ==> FragmentAt(c, log, fs, starts, i + 1);
    SameBlock(s.pos, HEADER + |fs[i].payload|, s.end);
  }

  lemma {:induction false} SameBlock(pos: nat, d: nat, end: nat)
    requires pos + d <= end <= pos + (BLOCK - pos % BLOCK)
    ensures pos + d < end ==> end <= pos + d + (BLOCK - (pos + d) % BLOCK)
  {
    if pos + d < end {
      assert (pos + d) % BLOCK == pos % BLOCK + d;
    }
  }

  /** Reading the next fragment succeeds exactly when all of it survived, and never reports anything. */
  lemma {:induction false} PhysicalStep(c: Checksum, log: Bytes, file: Bytes, fs: seq<Fragment>, starts: seq<nat>,
                                        s: Reader, i: nat)
    requires c.Ok() && IsLog(c, log, fs, starts) && file <= log && i <= |fs| && Ready(file, s, fs, starts, i)
    ensures var (t, x) := ReadPhysical(c, file, s);
            && t.reports == s.reports
            && if i < |fs| && End(fs, starts, i + 1) <= |file| then x == Record(fs[i])
               && Ready(file, t, fs, starts, i + 1)
               else x == Eof
    decreases if s.eof then 0 else 1, |file| - s.end
  {
    if s.end - s.pos >= HEADER {
      ParseStep(c, log, file, fs, starts, s, i);
    } else if !s.eof {
      RefillReady(file, s, fs, starts, i);
      PhysicalStep(c, log, file, fs, starts, Refill(file, s), i);
    } else if i < |fs| {
      assert End(fs, starts, i + 1) >= starts[i] + HEADER;
    }
  }

  lemma {:induction false} RefillReady(file: Bytes, s: Reader, fs: seq<Fragment>, starts: seq<nat>, i: nat)
    requires |fs| == |starts| && i <= |fs| && Ready(file, s, fs, starts, i) && !s.eof && s.end - s.pos < HEADER
    ensures Ready(file, Refill(file, s), fs, starts, i)
  {
  }

  // ---- Whole records ------------------------------------------------------------------------

  lemma {:induction false} PayloadsStep(fs: seq<Fragment>, a: nat, i: nat)
    requires a <= i < |fs|
    ensures Payloads(fs[a..i + 1]) == Payloads(fs[a..i]) + fs[i].payload
  {
    var upto := fs[a..i + 1];
    assert upto[..|upto| - 1] == fs[a..i] && upto[|upto| - 1] == fs[i];
  }

  /** What one fragment of the expected kind does. */
  lemma {:induction false} TakeFragment(c: Checksum, file: Bytes, s: Reader, t: Reader, f: Fragment, scratch: Bytes,
                                        begin: bool, end: bool)
    requires InFile(file, s) && ReadPhysical(c, file, s) == (t, Record(f)) && f.kind == KindOf(begin, end)
    requires begin ==> scratch == []
    ensures InFile(file, t)
    ensures ReadLogical(c, file, s, !begin, scratch)
            == if end then (t, Some(scratch + f.payload)) else ReadLogical(c, file, t, true, scratch + f.payload)
  {
    assert begin ==> scratch + f.payload == f.payload;
  }

  /** A fragment that did not survive takes the record that ends at `b` with it. */
  lemma {:induction false} Fetch(c: Checksum, log: Bytes, file: Bytes, fs: seq<Fragment>, starts: seq<nat>, s: Reader,
                                 i: nat, b: nat)
    returns (t: Reader, whole: bool)
    requires c.Ok() && IsLog(c, log, fs, starts) && file <= log && i < b <= |fs| && Ready(file, s, fs, starts, i)
    ensures t.reports == s.reports && ReadPhysical(c, file, s) == (t, if whole then Record(fs[i]) else Eof)
    ensures if whole then Ready(file, t, fs, starts, i + 1) && End(fs, starts, i + 1) <= |file|
            else |file| < End(fs, starts, b)
  {
    PhysicalStep(c, log, file, fs, starts, s, i);
    EndsGrow(c, log, fs, starts, i + 1, b);
    t, whole := ReadPhysical(c, file, s).0, ReadPhysical(c, file, s).1.Record?;
  }

  /** From inside a record: the rest of it is read if all of it survived, and dropped silently if not. */
  lemma {:induction false} RestOfRecord(c: Checksum, log: Bytes, file: Bytes, fs: seq<Fragment>, starts: seq<nat>,
                                        s: Reader,
                                        a: nat, i: nat, b: nat, record: Bytes, scratch: Bytes)
    requires c.Ok() && IsLog(c, log, fs, starts) && file <= log && a <= i < b <= |fs| && Carries(fs, a, b, record)
    requires Ready(file, s, fs, starts, i) && scratch == Payloads(fs[a..i])
    ensures RecordRead(file, s, fs, starts, b, record, ReadLogical(c, file, s, i > a, scratch))
    decreases b - i
  {
    var t, whole := Fetch(c, log, file, fs, starts, s, i, b);
    if whole {
      PayloadsStep(fs, a, i);
      TakeFragment(c, file, s, t, fs[i], scratch, i == a, i == b - 1);
      if i < b - 1 {
        RestOfRecord(c, log, file, fs, starts, t, a, i + 1, b, record, scratch + fs[i].payload);
      }
    } else {
      NoFragment(c, file, s, t, i > a, scratch);
    }
  }

  /** The record if all of it survived, and nothing otherwise; no report either way. */
  ghost predicate RecordRead(file: Bytes, s: Reader, fs: seq<Fragment>, starts: seq<nat>, b: nat, record: Bytes,
                             r: (Reader, Option<Bytes>))
    requires |fs| == |starts| && b <= |fs|
  {
    && r.0.reports == s.reports
    && if End(fs, starts, b) <= |file| then r.1 == Some(record) && Ready(file, r.0, fs, starts, b) else r.1 == None
  }

  lemma {:induction false} NoFragment(c: Checksum, file: Bytes, s: Reader, t: Reader, inFragmented: bool,
                                      scratch: Bytes)
    requires InFile(file, s) && ReadPhysical(c, file, s) == (t, Eof)
    ensures ReadLogical(c, file, s, inFragmented, scratch) == (t, None)
  {
  }

  lemma {:induction false} NextRecord(c: Checksum, log: Bytes, file: Bytes, fs: seq<Fragment>, starts: seq<nat>,
                                      s: Reader,
                   a: nat, b: nat, record: Bytes)
    requires c.Ok() && IsLog(c, log, fs, starts) && file <= log && a < b <= |fs| && Carries(fs, a, b, record)
    requires Ready(file, s, fs, starts, a)
    ensures RecordRead(file, s, fs, starts, b, record, ReadLogical(c, file, s, false, []))
  {
    assert fs[a..a] == [];
    RestOfRecord(c, log, file, fs, starts, s, a, a, b, record, []);
  }

  lemma {:induction false} EndsGrow(c: Checksum, log: Bytes, fs: seq<Fragment>, starts: seq<nat>, i: nat, j: nat)
    requires IsLog(c, log, fs, starts) && i <= j <= |fs|
    ensures End(fs, starts, i) <= End(fs, starts, j)
    decreases j
  {
    if i < j {
      assert FragmentAt(c, log, fs, starts, j - 1);
      EndsGrow(c, log, fs, starts, i, j - 1);
    }
  }

  /** Everything ReadRecord returns until it returns nothing. */
  function ReadAll(c: Checksum, file: Bytes, s: Reader): (Reader, seq<Bytes>)
    requires InFile(file, s)
    decreases |file| - s.pos
  {
    var (t, x) := ReadLogical(c, file, s, false, []);
    if x.None? then (t, []) else
      var (u, rest) := ReadAll(c, file, t);
      (u, [x.value] + rest)
  }

  /** How many of the records from `r` on survived whole in a file of `size` bytes: a prefix of them. */
  ghost function Survivors(fs: seq<Fragment>, starts: seq<nat>, cuts: seq<nat>, size: nat, r: nat): (n: nat)
    requires |fs| == |starts| && 1 <= |cuts| && r < |cuts| && forall k | 0 <= k < |cuts| :: cuts[k] <= |fs|
    ensures r + n < |cuts|
    ensures forall k | r < k <= r + n :: End(fs, starts, cuts[k]) <= size
    ensures r + n + 1 < |cuts| ==> End(fs, starts, cuts[r + n + 1]) > size
    decreases |cuts| - r
  {
    if r + 1 == |cuts| || End(fs, starts, cuts[r + 1]) > size then 0 else 1 + Survivors(fs, starts, cuts, size, r + 1)
  }

  lemma {:induction false} ReadAllFrom(c: Checksum, log: Bytes, file: Bytes, fs: seq<Fragment>, starts: seq<nat>,
                                       cuts: seq<nat>,
                                       records: seq<Bytes>, s: Reader, r: nat)
    requires c.Ok() && IsLog(c, log, fs, starts) && file <= log && Holds(fs, cuts, records) && r <= |records|
    requires forall k | 0 <= k < |cuts| :: cuts[k] <= |fs|
    requires Ready(file, s, fs, starts, cuts[r])
    ensures ReadAll(c, file, s).0.reports == s.reports
    ensures ReadAll(c, file, s).1 == records[r..r + Survivors(fs, starts, cuts, |file|, r)]
    decreases |records| - r
  {
    if r == |records| {
      NothingMore(c, log, file, fs, starts, s);
    } else {
      assert RecordAt(fs, cuts, records, r);
      NextRecord(c, log, file, fs, starts, s, cuts[r], cuts[r + 1], records[r]);
      if End(fs, starts, cuts[r + 1]) <= |file| {
        var t := ReadLogical(c, file, s, false, []).0;
        ReadAllFrom(c, log, file, fs, starts, cuts, records, t, r + 1);
        ReadAllStep(c, file, s, t, records, r, Survivors(fs, starts, cuts, |file|, r + 1));
      }
    }
  }

  lemma {:induction false} NothingMore(c: Checksum, log: Bytes, file: Bytes, fs: seq<Fragment>, starts: seq<nat>,
                                       s: Reader)
    requires c.Ok() && IsLog(c, log, fs, starts) && file <= log && Ready(file, s, fs, starts, |fs|)
    ensures ReadAll(c, file, s).1 == [] && ReadAll(c, file, s).0.reports == s.reports
  {
    PhysicalStep(c, log, file, fs, starts, s, |fs|);
  }

  lemma {:induction false} ReadAllStep(c: Checksum, file: Bytes, s: Reader, t: Reader, records: seq<Bytes>, r: nat,
                                       m: nat)
    requires InFile(file, s) && InFile(file, t) && r + 1 + m <= |records|
    requires ReadLogical(c, file, s, false, []) == (t, Some(records[r]))
             && ReadAll(c, file, t).1 == records[r + 1..r + 1 + m]
    ensures ReadAll(c, file, s).1 == records[r..r + 1 + m] && ReadAll(c, file, s).0 == ReadAll(c, file, t).0
  {
    SliceHead(records, r, m);
  }

  lemma {:induction false} SliceHead<T>(s: seq<T>, r: nat, m: nat)
    requires r + 1 + m <= |s|
    ensures s[r..r + 1 + m] == [s[r]] + s[r + 1..r + 1 + m]
  {
  }

  /**
   A log cut off anywhere reads back as exactly the records that survived whole, in order,
   and the reader reports no corruption.
   */
  lemma {:induction false} TruncatedLogReadsBack(c: Checksum, log: Bytes, size: nat, fs: seq<Fragment>,
                                                 starts: seq<nat>, cuts: seq<nat>,
                              records: seq<Bytes>)
    requires c.Ok() && IsLog(c, log, fs, starts) && Holds(fs, cuts, records) && size <= |log|
    requires forall k | 0 <= k < |cuts| :: cuts[k] <= |fs|
    ensures var (t, rs) := ReadAll(c, log[..size], Reader(0, 0, false, 0));
            t.reports == 0 && rs == records[..Survivors(fs, starts, cuts, size, 0)]
  {
    var s := Reader(0, 0, false, 0);
    assert |fs| > 0 ==> FragmentAt(c, log, fs, starts, 0);
    assert Ready(log[..size], s, fs, starts, 0);
    ReadAllFrom(c, log, log[..size], fs, starts, cuts, records, s, 0);
  }

  /** Uncut, every record comes back. */
  lemma {:induction false} WholeLogReadsBack(c: Checksum, log: Bytes, fs: seq<Fragment>, starts: seq<nat>,
                                             cuts: seq<nat>, records: seq<Bytes>)
    requires c.Ok() && IsLog(c, log, fs, starts) && Holds(fs, cuts, records)
    requires forall k | 0 <= k < |cuts| :: cuts[k] <= |fs|
    ensures var (t, rs) := ReadAll(c, log, Reader(0, 0, false, 0)); t.reports == 0 && rs == records
  {
    TruncatedLogReadsBack(c, log, |log|, fs, starts, cuts, records);
    assert log[..|log|] == log;
    var n := Survivors(fs, starts, cuts, |log|, 0);
    if n < |records| {
      EndsGrow(c, log, fs, starts, cuts[n + 1], |fs|);
    }
    assert records[..|records|] == records;
  }

  // ---- Reading arbitrary bytes ----------------------------------------------------------------

  /** At `p` stands a whole fragment whose stored length, type and checksum fit its payload. */
  ghost predicate Checked(c: Checksum, file: Bytes, p: nat, f: Fragment) {
    && p + HEADER + |f.payload| <= |file| && GetFixed(file, p + 4, 2) == |f.payload| && file[p + 6] == f.kind
    && file[p + HEADER..p + HEADER + |f.payload|] == f.payload
    && c.unmask(DecodeFixed32(file, p)) == c.crc(file[p + 6..p + HEADER + |f.payload|])
  }

  /** Whatever the bytes are, a fragment is returned only if it stands there with the right checksum. */
  lemma {:induction false} FragmentIsChecked(c: Checksum, file: Bytes, s: Reader) returns (p: nat)
    requires InFile(file, s) && ReadPhysical(c, file, s).1.Record?
    ensures var (t, x) := ReadPhysical(c, file, s);
            s.pos <= p && Checked(c, file, p, x.fragment) && t.pos == p + HEADER + |x.fragment.payload|
              && t.reports == s.reports
    decreases if s.eof then 0 else 1, |file| - s.end
  {
    if s.end - s.pos >= HEADER {
      p := s.pos;
    } else {
      p := FragmentIsChecked(c, file, Refill(file, s));
    }
  }

  /**
   A fragment whose checksum fails, or that runs over the block, is reported once and the rest of the
   block with it; one that the end of the file cuts off is not. Zeros, as preallocated files have them,
   are passed over without a report.
   */
  lemma {:induction false} ParseReports(c: Checksum, file: Bytes, s: Reader)
    requires InFile(file, s) && s.pos + HEADER <= s.end
    ensures var length := GetFixed(file, s.pos + 4, 2);
            var (t, x) := Parse(c, file, s);
            var over := s.pos + HEADER + length > s.end;
            var zero := length == 0 && file[s.pos + 6] == 0;
            var wrong := !over && !zero
                         && c.unmask(DecodeFixed32(file, s.pos)) != c.crc(file[s.pos + 6..s.pos + HEADER + length]);
            && (over && s.eof ==> x.Eof? && t.pos == s.end && t.reports == s.reports)
            && ((over && !s.eof) || wrong ==> x.Bad? && t.pos == s.end && t.reports == s.reports + 1)
            && (!over && zero ==> x.Bad? && t.pos == s.end && t.reports == s.reports)
            && (!over && !zero && !wrong && FULL <= file[s.pos + 6] <= LAST ==> x.Record?)
  {
  }

  /** Fragments one after another in the file, each with the right checksum. */
  ghost predicate Chain(c: Checksum, file: Bytes, ps: seq<nat>, fs: seq<Fragment>, from: nat, to: nat) {
    |ps| == |fs| && forall n | Unfolded(n) ::
      && (forall i | 0 <= i < |ps| :: Link(c, file, ps[i], fs[i], from, to))
      && (forall i, j | 0 <= i < j < |ps| :: ps[i] + HEADER + |fs[i].payload| <= ps[j])
  }

  ghost predicate Link(c: Checksum, file: Bytes, p: nat, f: Fragment, from: nat, to: nat) {
    from <= p && p + HEADER + |f.payload| <= to && Checked(c, file, p, f)
  }

  /** The types of the fragments of one record, of which the last may still be missing. */
  predicate Typed(fs: seq<Fragment>, whole: bool) {
    forall i | 0 <= i < |fs| :: fs[i].kind == KindOf(i == 0, whole && i == |fs| - 1)
  }

  lemma {:induction false} ChainMore(c: Checksum, file: Bytes, ps: seq<nat>, fs: seq<Fragment>, from: nat, to: nat,
                                     p: nat, f: Fragment)
    requires Chain(c, file, ps, fs, from, to) && from <= to <= p && Checked(c, file, p, f)
    ensures Chain(c, file, ps + [p], fs + [f], from, p + HEADER + |f.payload|)
    ensures Payloads(fs + [f]) == Payloads(fs) + f.payload
  {
    assert Unfolded(0);
    assert (fs + [f])[..|fs|] == fs;
    var qs, gs := ps + [p], fs + [f];
    forall i | 0 <= i < |qs| ensures Link(c, file, qs[i], gs[i], from, p + HEADER + |f.payload|) {
      assert i < |ps| ==> Link(c, file, ps[i], fs[i], from, to);
    }
    forall i, j | 0 <= i < j < |qs| ensures qs[i] + HEADER + |gs[i].payload| <= qs[j] {
      assert Link(c, file, ps[i], fs[i], from, to);
    }
  }

  /** What ReadRecord does with one result of ReadPhysicalRecord. */
  datatype Turn = Stop(s: Reader) | Give(s: Reader, record: Bytes) | Go(s: Reader, inFragmented: bool, scratch: Bytes)

  function TurnOf(t: Reader, x: Read, inFragmented: bool, scratch: Bytes): Turn {
    match x
    case Eof => Stop(t)
    case Bad => Go(Report(t, if inFragmented then 1 else 0), false, if inFragmented then [] else scratch)
    case Record(f) =>
      var lost := if inFragmented && scratch != [] then 1 else 0;
      if f.kind == FULL then Give(Report(t, lost), f.payload)
      else if f.kind == FIRST then Go(Report(t, lost), true, f.payload)
      else if f.kind == MIDDLE then
        if inFragmented then Go(t, true, scratch + f.payload) else Go(Report(t, 1), false, scratch)
      else if f.kind == LAST then
        if inFragmented then Give(t, scratch + f.payload) else Go(Report(t, 1), false, scratch)
      else Go(Report(t, 1), false, [])
  }

  lemma {:induction false} LogicalTurns(c: Checksum, file: Bytes, s: Reader, inFragmented: bool, scratch: Bytes)
    requires InFile(file, s)
    ensures var (t, x) := ReadPhysical(c, file, s);
            var n := TurnOf(t, x, inFragmented, scratch);
            ReadLogical(c, file, s, inFragmented, scratch) ==
              match n
              case Stop(u) => (u, None)
              case Give(u, r) => (u, Some(r))
              case Go(u, i, r) => ReadLogical(c, file, u, i, r)
  {
  }

  lemma {:induction false} TypedMore(gs: seq<Fragment>, f: Fragment, whole: bool)
    requires Typed(gs, false) && f.kind == KindOf(gs == [], whole)
    ensures Typed(gs + [f], whole)
  {
    var fs := gs + [f];
    forall i | 0 <= i < |fs| ensures fs[i].kind == KindOf(i == 0, whole && i == |fs| - 1) {
      assert i < |gs| ==> fs[i] == gs[i];
    }
  }

  /** What is collected is what the turn goes on with, or gives. */
  ghost predicate Matches(n: Turn, fs: seq<Fragment>, pos: nat) {
    && !n.Stop? && n.s.pos == pos
    && (n.Give? ==> fs != [] && Typed(fs, true) && n.record == Payloads(fs))
    && (n.Go? ==> Typed(fs, false) && n.scratch == Payloads(fs) && n.inFragmented == (fs != []))
  }

  lemma {:induction false} Extends(gs: seq<Fragment>, t: Reader, f: Fragment, whole: bool, scratch: Bytes)
    requires gs != [] && Typed(gs, false) && scratch == Payloads(gs) && f.kind == KindOf(false, whole)
    ensures Matches(TurnOf(t, Record(f), true, scratch), gs + [f], t.pos)
  {
    assert (gs + [f])[..|gs|] == gs;
    TypedMore(gs, f, whole);
  }

  lemma {:induction false} Restarts(t: Reader, f: Fragment, whole: bool, inFragmented: bool, scratch: Bytes)
    requires f.kind == KindOf(true, whole)
    ensures Matches(TurnOf(t, Record(f), inFragmented, scratch), [f], t.pos)
  {
    assert [f][..0] == [] && [] + f.payload == f.payload;
    TypedMore([], f, whole);
    assert [] + [f] == [f];
  }

  lemma {:induction false} Drops(t: Reader, f: Fragment, inFragmented: bool, scratch: Bytes)
    requires f.kind != FULL && f.kind != FIRST && !(inFragmented && (f.kind == MIDDLE || f.kind == LAST))
    requires !inFragmented ==> scratch == []
    ensures Matches(TurnOf(t, Record(f), inFragmented, scratch), [], t.pos)
  {
  }

  /** The fragments collected: those that were and this one, this one alone, or none. */
  lemma {:induction false} Collected(t: Reader, f: Fragment, inFragmented: bool, scratch: Bytes, gs: seq<Fragment>)
    returns (fs: seq<Fragment>)
    requires Typed(gs, false) && scratch == Payloads(gs) && inFragmented == (gs != [])
    ensures fs == gs + [f] || fs == [f] || fs == []
    ensures Matches(TurnOf(t, Record(f), inFragmented, scratch), fs, t.pos)
  {
    if f.kind == FULL || f.kind == FIRST {
      fs := [f];
      Restarts(t, f, f.kind == FULL, inFragmented, scratch);
    } else if inFragmented && (f.kind == MIDDLE || f.kind == LAST) {
      fs := gs + [f];
      Extends(gs, t, f, f.kind == LAST, scratch);
    } else {
      fs := [];
      Drops(t, f, inFragmented, scratch);
    }
  }

  lemma {:induction false} CollectedChain(c: Checksum, file: Bytes, f: Fragment, p: nat, to: nat, from: nat,
                                          qs: seq<nat>,
                                          gs: seq<Fragment>, fs: seq<Fragment>)
    returns (ps: seq<nat>)
    requires from <= to <= p && Checked(c, file, p, f) && Chain(c, file, qs, gs, from, to)
    requires fs == gs + [f] || fs == [f] || fs == []
    ensures Chain(c, file, ps, fs, from, p + HEADER + |f.payload|)
  {
    if fs == gs + [f] {
      ChainMore(c, file, qs, gs, from, to, p, f);
      ps := qs + [p];
    } else if fs == [f] {
      ChainMore(c, file, [], [], from, to, p, f);
      assert [] + [p] == [p] && [] + [f] == [f];
      ps := [p];
    } else {
      ps := [];
    }
  }

  lemma {:induction false} TurnCollects(c: Checksum, file: Bytes, t: Reader, x: Read, p: nat, to: nat,
                                        inFragmented: bool,
                                        scratch: Bytes, from: nat, qs: seq<nat>, gs: seq<Fragment>)
    returns (ps: seq<nat>, fs: seq<Fragment>)
    requires from <= to && !x.Eof?
    requires x.Record? ==> to <= p && Checked(c, file, p, x.fragment) && t.pos == p + HEADER + |x.fragment.payload|
    requires Chain(c, file, qs, gs, from, to) && Typed(gs, false) && scratch == Payloads(gs)
             && inFragmented == (gs != [])
    ensures Chain(c, file, ps, fs, from, t.pos) && Matches(TurnOf(t, x, inFragmented, scratch), fs, t.pos)
  {
    ps, fs := [], [];
    if x.Record? {
      fs := Collected(t, x.fragment, inFragmented, scratch, gs);
      ps := CollectedChain(c, file, x.fragment, p, to, from, qs, gs, fs);
    }
  }

  /** One turn of ReadRecord, and the fragments collected after it. */
  lemma {:induction false} OneTurn(c: Checksum, file: Bytes, s: Reader, inFragmented: bool, scratch: Bytes,
                                   from: nat, qs: seq<nat>, gs: seq<Fragment>)
    returns (n: Turn, ps: seq<nat>, fs: seq<Fragment>)
    requires InFile(file, s) && ReadLogical(c, file, s, inFragmented, scratch).1.Some?
    requires from <= s.pos && Chain(c, file, qs, gs, from, s.pos) && Typed(gs, false) && scratch == Payloads(gs)
    requires inFragmented == (gs != [])
    ensures InFile(file, n.s) && s.pos < n.s.pos && Chain(c, file, ps, fs, from, n.s.pos) && Matches(n, fs, n.s.pos)
    ensures n.Give? ==> ReadLogical(c, file, s, inFragmented, scratch) == (n.s, Some(n.record))
    ensures n.Go? ==>
              ReadLogical(c, file, s, inFragmented, scratch) == ReadLogical(c, file, n.s, n.inFragmented, n.scratch)
  {
    LogicalTurns(c, file, s, inFragmented, scratch);
    var next := ReadPhysical(c, file, s);
    n := TurnOf(next.0, next.1, inFragmented, scratch);
    var p := s.pos;
    if next.1.Record? {
      p := FragmentIsChecked(c, file, s);
    }
    ps, fs := TurnCollects(c, file, next.0, next.1, p, s.pos, inFragmented, scratch, from, qs, gs);
  }

  /**
   Whatever the bytes are, a record is returned only if its fragments stand in the file in order, each
   with the right checksum and of the types of one record, and the record is their payloads joined.
   */
  lemma {:induction false} RecordIsChecked(c: Checksum, file: Bytes, s: Reader, inFragmented: bool, scratch: Bytes,
                                           from: nat, qs: seq<nat>, gs: seq<Fragment>)
    returns (ps: seq<nat>, fs: seq<Fragment>)
    requires InFile(file, s) && ReadLogical(c, file, s, inFragmented, scratch).1.Some?
    requires from <= s.pos && Chain(c, file, qs, gs, from, s.pos) && Typed(gs, false) && scratch == Payloads(gs)
    requires inFragmented == (gs != [])
    ensures var r := ReadLogical(c, file, s, inFragmented, scratch);
            fs != [] && Chain(c, file, ps, fs, from, r.0.pos) && Typed(fs, true) && r.1 == Some(Payloads(fs))
    decreases |file| - s.pos
  {
    var n;
    n, ps, fs := OneTurn(c, file, s, inFragmented, scratch, from, qs, gs);
    if n.Go? {
      ps, fs := RecordIsChecked(c, file, n.s, n.inFragmented, n.scratch, from, ps, fs);
    }
  }
}
