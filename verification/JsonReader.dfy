/** The reader of scalars, the parser as the source runs it, and the round trips. */
module JsonReader {
  import opened DbFormat
  import opened Guard
  import opened JsonText
  import opened JsonNumber
  import opened JsonTree
  import opened JsonParser
  import opened JsonRoundTrip

  /** strtod: a double, unless it is out of range. */
  type ToDouble = string -> Option<real>

  /** A word of letters at `b`. */
  function Word(t: string, b: nat, w: string, j: Json): Option<(Json, nat)>
    requires w != ""
  {
    if Stands(t, b, w) then Some((j, b + |w| - 1)) else None
  }

  function NumberAt(t: string, b: nat, dbl: ToDouble): (r: Option<(Json, nat)>)
    requires b < |t|
    ensures r.Some? ==> b <= r.value.1 < |t| && Tree(r.value.0)
  {
    var n := ParseNumber(t, b, RangeSide);
    if n.None? then None
    else
      match n.value.0
      case Integer(i) => Some((Int(i), n.value.1))
      case Double(s) => if dbl(s).None? then None else Some((Dbl(dbl(s).value), n.value.1))
  }

  function StringAt(t: string, b: nat): (r: Option<(Json, nat)>)
    requires b < |t|
    ensures r.Some? ==> b <= r.value.1 < |t| && Tree(r.value.0)
  {
    var s := Scan(t, b + 1, "", Unescape);
    if s.None? then None else Some((Str(s.value.0), s.value.1))
  }

  /** The switch on the first character of a value that is no container. */
  function ScalarAt(t: string, b: nat, dbl: ToDouble): (r: Option<(Json, nat)>)
    ensures r.Some? ==> b <= r.value.1 < |t| && Tree(r.value.0)
  {
    if b >= |t| then None
    else if t[b] == '"' then StringAt(t, b)
    else if t[b] == 'f' then Word(t, b, "false", Bool(false))
    else if t[b] == 't' then Word(t, b, "true", Bool(true))
    else if t[b] == 'n' then Word(t, b, "null", Null)
    else NumberAt(t, b, dbl)
  }

  function Scalars(dbl: ToDouble): Reader { (t: string, b: nat) => ScalarAt(t, b, dbl) }

  // ---- Scalars read back ----------------------------------------------------------------------

  lemma {:induction false} StringReads(t: string, b: nat, s: string)
    requires Stands(t, b, "\"" + Escaped(s) + "\"")
    ensures b < |t| && t[b] == '"' && StringAt(t, b) == Some((Str(s), b + |Escaped(s)| + 1))
  {
    var w := Escaped(s);
    assert "\"" + w + "\"" == "\"" + (w + "\"");
    StandsConcat(t, b, "\"", w + "\"");
    StandsAt(t, b, "\"", 0);
    StandsConcat(t, b + 1, w, "\"");
    StandsAt(t, b + 1 + |w|, "\"", 0);
    EscapedReads(t, b + 1, s, "");
    assert "" + s == s;
  }

  lemma {:induction false} IntReads(t: string, b: nat, i: int, w: string, dbl: ToDouble)
    requires MIN_INT64 <= i <= MAX_INT64 && w == Written(i) && Stands(t, b, w) && NumberStops(t, b + |w|)
    ensures b < |t| && NumberAt(t, b, dbl) == Some((Int(i), b + |w| - 1)) && (t[b] == '-' || IsDigit(t[b]))
  {
    IntegerReads(t, b, i, w);
    StandsAt(t, b, w, 0);
    if i >= 0 {
      DecimalIsNumeral(i);
    }
  }

  /** The three words, told apart by their first letter. */
  lemma {:induction false} WordReads(t: string, b: nat, w: string, j: Json, dbl: ToDouble)
    requires Stands(t, b, w) && ((w == "null" && j == Null) || (w == "true" && j == Bool(true))
             || (w == "false" && j == Bool(false)))
    ensures ScalarAt(t, b, dbl) == Some((j, b + |w| - 1))
  {
    StandsAt(t, b, w, 0);
  }

  lemma {:induction false} IntScalar(t: string, b: nat, i: int, w: string, dbl: ToDouble)
    requires MIN_INT64 <= i <= MAX_INT64 && w == Written(i) && Stands(t, b, w) && NumberStops(t, b + |w|)
    ensures ScalarAt(t, b, dbl) == Some((Int(i), b + |w| - 1))
  {
    IntReads(t, b, i, w, dbl);
  }

  lemma {:induction false} StringScalar(t: string, b: nat, s: string, w: string, dbl: ToDouble)
    requires w == "\"" + Escaped(s) + "\"" && Stands(t, b, w)
    ensures ScalarAt(t, b, dbl) == Some((Str(s), b + |w| - 1))
  {
    StringReads(t, b, s);
  }

  lemma {:induction false} ScalarReadsBack(t: string, b: nat, j: Json, st: Style, dbl: ToDouble)
    requires ScalarStands(t, b, j, st)
    ensures ScalarAt(t, b, dbl) == Some((j, b + |Scalar(j, st)| - 1))
  {
    var w := Scalar(j, st);
    match j
    case Str(s) => StringScalar(t, b, s, w, dbl);
    case Int(i) => IntScalar(t, b, i, w, dbl);
    case Bool(v) => WordReads(t, b, w, j, dbl);
    case Null => WordReads(t, b, w, j, dbl);
  }

  lemma {:induction false} ScalarsFaithful(dbl: ToDouble)
    ensures Faithful(Scalars(dbl))
  {
    forall t, b: nat, j, st | ScalarStands(t, b, j, st)
      ensures Scalars(dbl)(t, b) == Some((j, b + |Scalar(j, st)| - 1))
    {
      ScalarReadsBack(t, b, j, st, dbl);
    }
  }

  // ---- Round trips ----------------------------------------------------------------------------

  lemma {:induction false} RunRuns(t: string, run: Runner, read: Reader)
    requires run == (st => Run(t, st, read))
    ensures Runs(t, run, read)
  {
  }

  lemma {:induction false} SkipRest(t: string, e: nat, post: string)
    requires Stands(t, e, post) && e + |post| == |t| && AllSpace(post)
    ensures Skip(t, e) == |t|
  {
    forall i | e <= i < |t| ensures IsSpace(t[i]) {
      StandsAt(t, e, post, i - e);
    }
  }

  lemma {:induction false} TextLies(t: string, pre: string, w: string, post: string)
    requires t == pre + w + post && AllSpace(pre) && AllSpace(post) && w != "" && !IsSpace(w[0])
    ensures Skip(t, 0) == |pre| < |t| && Here(t, |pre|, w) && NumberStops(t, |pre| + |w|) && Skip(t, |pre| + |w|) == |t|
  {
    var b, e := |pre|, |pre| + |w|;
    assert t == pre + (w + post);
    StandsConcat(t, 0, pre, w + post);
    StandsConcat(t, b, w, post);
    StandsAt(t, b, w, 0);
    SkipGap(t, 0, pre);
    assert e < |t| ==> t[e] == post[0];
    SkipRest(t, e, post);
  }

  /** A text that is one value between white space. */
  lemma {:induction false} WholeParses(t: string, b: nat, j: Json, q: nat, run: Runner, read: Reader)
    requires Skip(t, 0) == b < |t| && run == (st => Run(t, st, read)) && Reads(t, b, j, q, run, read)
             && Skip(t, q + 1) == |t|
    ensures Parsed(t, read) == Outcome(true, Some(j), [], [])
  {
    assert Visited(START);
    assert Run(t, ReadValue(t, b, START, read), read) == run(Push(START, q, j));
  }

  lemma {:induction false} PrintedHead(j: Json, st: Style, n: nat, w: string)
    requires Printed(j, st, n, w)
    ensures w != "" && !IsSpace(w[0])
  {
    assert Unfolded(0);
    WriteHead(j, st, n);
  }

  lemma {:induction false} PrintedReads(t: string, b: nat, j: Json, w: string, st: Style, n: nat, read: Reader)
    returns (run: Runner)
    requires Printed(j, st, n, w) && Spaced(st) && Faithful(read) && Here(t, b, w) && NumberStops(t, b + |w|)
    ensures w != "" && run == (st => Run(t, st, read)) && Reads(t, b, j, b + |w| - 1, run, read)
  {
    run := st => Run(t, st, read);
    RunRuns(t, run, read);
    ValueReads(t, b, j, w, st, n, run, read);
  }

  lemma {:induction false} LiesParses(t: string, b: nat, w: string, j: Json, st: Style, n: nat, read: Reader)
    requires Skip(t, 0) == b < |t| && Here(t, b, w) && NumberStops(t, b + |w|) && Skip(t, b + |w|) == |t|
    requires Printed(j, st, n, w) && Spaced(st) && Faithful(read)
    ensures Parsed(t, read) == Outcome(true, Some(j), [], [])
  {
    var run := PrintedReads(t, b, j, w, st, n, read);
    WholeParses(t, b, j, b + |w| - 1, run, read);
  }

  /** A text that is a printed tree, in white space, is parsed to the tree. */
  lemma {:induction false} TextParses(t: string, pre: string, w: string, post: string, j: Json, st: Style, n: nat,
                                      read: Reader)
    requires t == pre + w + post && AllSpace(pre) && AllSpace(post) && Printed(j, st, n, w) && Spaced(st)
             && Faithful(read)
    ensures Parsed(t, read) == Outcome(true, Some(j), [], [])
  {
    PrintedHead(j, st, n, w);
    TextLies(t, pre, w, post);
    LiesParses(t, |pre|, w, j, st, n, read);
  }

  lemma {:induction false} CompactSpaced(dbl: real -> string)
    ensures Spaced(Compact(dbl))
  {
    assert ":"[1..] == "";
  }

  lemma {:induction false} IndentedSpaced(indent: nat, dbl: real -> string)
    ensures Spaced(Indented(indent, dbl))
  {
    assert ": "[1..] == " ";
  }

  /** Json::str and back. */
  lemma {:induction false} CompactRoundTrip(j: Json, out: real -> string, dbl: ToDouble)
    requires Tree(j) && Clean(j)
    ensures Parsed(Write(j, Compact(out), 0), Scalars(dbl)) == Outcome(true, Some(j), [], [])
  {
    ScalarsFaithful(dbl);
    CompactSpaced(out);
    var w := Write(j, Compact(out), 0);
    assert w == "" + w + "";
    TextParses(w, "", w, "", j, Compact(out), 0, Scalars(dbl));
  }

  /** Json::pretty and back. */
  lemma {:induction false} PrettyRoundTrip(j: Json, indent: nat, n: nat, out: real -> string, dbl: ToDouble)
    requires Tree(j) && Clean(j)
    ensures Parsed(Write(j, Indented(indent, out), n), Scalars(dbl)) == Outcome(true, Some(j), [], [])
  {
    ScalarsFaithful(dbl);
    IndentedSpaced(indent, out);
    var w := Write(j, Indented(indent, out), n);
    assert w == "" + w + "";
    TextParses(w, "", w, "", j, Indented(indent, out), n, Scalars(dbl));
  }
}
