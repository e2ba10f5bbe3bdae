/**
 Keys are written without escapes, up to their first zero byte, and read up to the next quote.
 Which trees survive printing and parsing: among those without doubles, exactly the ones whose
 keys hold neither.
 */
module JsonKeys {
  import opened DbFormat
  import opened JsonText
  import opened JsonTree
  import opened JsonParser
  import opened JsonReader

  predicate Doubleless(j: Json) {
    match j
    case Dbl(_) => false
    case Arr(items) => forall i | 0 <= i < |items| :: items[i].Val? ==> Doubleless(items[i].json)
    case Obj(items) => forall i | 0 <= i < |items| :: items[i].Val? ==> Doubleless(items[i].json)
    case _ => true
  }

  // ---- No parsed key holds a quote ------------------------------------------------------------

  predicate Quoteless(j: Json) {
    match j
    case Arr(items) => forall i | 0 <= i < |items| :: QuotelessItem(items[i])
    case Obj(items) => forall i | 0 <= i < |items| :: QuotelessItem(items[i])
    case _ => true
  }

  predicate QuotelessItem(x: Item) {
    match x
    case Key(k) => '"' !in k
    case Val(j) => Quoteless(j)
  }

  predicate Unquoted(st: State) {
    (forall i | 0 <= i < |st.s| :: QuotelessItem(st.s[i])) && (st.at.End? ==> Quoteless(st.at.val))
  }

  /** The reader leaves containers to the parser. */
  ghost predicate OnlyScalars(read: Reader) {
    forall t, b: nat | read(t, b).Some? :: !read(t, b).value.0.Arr? && !read(t, b).value.0.Obj?
  }

  lemma {:induction false} KeyUnquoted(t: string, b: nat)
    requires b < |t| && ParseKey(t, b).Some?
    ensures '"' !in ParseKey(t, b).value.0
  {
  }

  lemma {:induction false} ReadUnquoted(t: string, b: nat, st: State, read: Reader)
    requires b < |t| && OnlyScalars(read) && Unquoted(st)
    ensures Unquoted(ReadValue(t, b, st, read))
  {
  }

  lemma {:induction false} MemberUnquoted(t: string, b: nat, st: State, read: Reader)
    requires b < |t| && OnlyScalars(read) && Unquoted(st)
    ensures Unquoted(Member(t, b, st, read))
  {
    var k := ParseKey(t, b);
    if k.Some? {
      KeyUnquoted(t, b);
      var c := st.(s := st.s + [Key(k.value.0)]);
      assert Unquoted(c);
      var v := AfterColon(t, k.value.1);
      if v.Some? {
        ReadUnquoted(t, v.value, c, read);
      }
    }
  }

  lemma {:induction false} CloseUnquoted(st: State)
    requires CanClose(st.s, st.u, st.size) && Unquoted(st)
    ensures Unquoted(AtClose(st))
  {
    var x := st.s[st.size - 1];
    assert QuotelessItem(x);
    if |st.s| > st.size {
      assert Quoteless(x.json.(items := st.s[st.size..]));
    }
  }

  lemma {:induction false} BegUnquoted(t: string, st: State, read: Reader)
    requires st.b < |t| && OnlyScalars(read) && Unquoted(st)
    ensures Unquoted(AtValBeg(t, st, read))
  {
    var b := Skip(t, st.b + 1);
    if b < |t| {
      if st.kind.InObj? {
        MemberUnquoted(t, b, st, read);
      } else {
        ReadUnquoted(t, b, st, read);
      }
    }
  }

  lemma {:induction false} StepUnquoted(t: string, st: State, read: Reader)
    requires Able(t, st) && OnlyScalars(read) && Unquoted(st)
    ensures Unquoted(Step(t, st, read))
  {
    if st.at.Close? {
      CloseUnquoted(st);
    } else if st.at.ValBeg? {
      BegUnquoted(t, st, read);
    }
  }

  lemma {:induction false} CleanUpFails(s: seq<Item>, u: seq<Frame>, size: nat, kind: Kind)
    ensures CleanUp(s, u, size, kind).Outcome? ==> !CleanUp(s, u, size, kind).ok
    decreases |u|
  {
    if s != [] && CanClose(Padded(s, size, kind), u, size) {
      var f := u[|u| - 1];
      CleanUpFails(Collect(Padded(s, size, kind), size), u[..|u| - 1], f.size, f.kind);
    }
  }

  lemma {:induction false} RunUnquoted(t: string, st: State, read: Reader)
    requires OnlyScalars(read) && Unquoted(st)
    ensures var r := Run(t, st, read); r.Outcome? && r.ok ==> r.val.Some? && Quoteless(r.val.value)
    decreases |t| - st.b, Rank(st.at)
  {
    if st.at.Fail? {
      CleanUpFails(st.s, st.u, st.size, st.kind);
    } else if Able(t, st) && !st.at.End? {
      StepUnquoted(t, st, read);
      RunUnquoted(t, Step(t, st, read), read);
    }
  }

  /** No tree that the parser accepts has a key with a quote in it. */
  lemma {:induction false} ParsedKeys(t: string, read: Reader)
    requires OnlyScalars(read)
    ensures var r := Parsed(t, read); r.Outcome? && r.ok ==> r.val.Some? && Quoteless(r.val.value)
  {
    var b := Skip(t, 0);
    if b < |t| {
      ReadUnquoted(t, b, START, read);
      RunUnquoted(t, ReadValue(t, b, START, read), read);
    }
  }

  // ---- Keys are printed up to their first zero byte -------------------------------------------

  function CutItem(x: Item): Item {
    match x
    case Key(k) => Key(CString(k))
    case Val(j) => Val(Cut(j))
  }

  /** The tree with every key cut at its first zero byte. */
  function Cut(j: Json): Json {
    match j
    case Arr(items) => Arr(seq(|items|, i requires 0 <= i < |items| => CutItem(items[i])))
    case Obj(items) => Obj(seq(|items|, i requires 0 <= i < |items| => CutItem(items[i])))
    case _ => j
  }

  lemma {:induction false} CutTree(j: Json)
    requires Tree(j)
    ensures Tree(Cut(j))
  {
    if j.Arr? || j.Obj? {
      forall i | 0 <= i < |j.items| ensures TreeItem(CutItem(j.items[i])) {
        assert TreeItem(j.items[i]);
        if j.items[i].Val? {
          CutTree(j.items[i].json);
        }
      }
    }
  }

  lemma {:induction false} CStringTwice(k: string)
    ensures 0 as char !in CString(k) && CString(CString(k)) == CString(k)
    ensures CString(k) <= k && (CString(k) == k ==> 0 as char !in k)
  {
  }

  predicate CutItems(items: seq<Item>, cut: seq<Item>) {
    |items| == |cut| && forall i | 0 <= i < |items| :: cut[i] == CutItem(items[i])
  }

  lemma {:induction false} WriteCut(j: Json, st: Style, n: nat)
    requires Tree(j)
    ensures Tree(Cut(j)) && Write(Cut(j), st, n) == Write(j, st, n)
    decreases j
  {
    CutTree(j);
    if j.Arr? {
      ElementsCut(j, Cut(j), 0, st, n);
    } else if j.Obj? {
      MembersCut(j, Cut(j), 0, st, n);
    }
  }

  /** Two arrays whose elements from `i` on are written alike. */
  lemma {:induction false} SameElements(j: Json, h: Json, i: nat, st: Style, n: nat)
    requires Tree(j) && Tree(h) && j.Arr? && h.Arr? && |j.items| == |h.items| && i < |j.items|
    requires TreeItem(j.items[i]) && TreeItem(h.items[i])
    requires Write(j.items[i].json, st, n + st.step) == Write(h.items[i].json, st, n + st.step)
    requires Elements(j, i + 1, st, n) == Elements(h, i + 1, st, n)
    ensures Elements(j, i, st, n) == Elements(h, i, st, n)
  {
  }

  lemma {:induction false} ElementsCut(j: Json, h: Json, i: nat, st: Style, n: nat)
    requires Tree(j) && Tree(h) && j.Arr? && h.Arr? && CutItems(j.items, h.items) && i <= |j.items|
    ensures Elements(h, i, st, n) == Elements(j, i, st, n)
    decreases j, |j.items| - i
  {
    if i < |j.items| {
      var x, y := j.items[i], h.items[i];
      assert TreeItem(x) && TreeItem(y) && y.json == Cut(x.json);
      WriteCut(x.json, st, n + st.step);
      ElementsCut(j, h, i + 1, st, n);
      SameElements(h, j, i, st, n);
    }
  }

  /** Two objects whose members from `i` on are written alike. */
  lemma {:induction false} SameMembers(j: Json, h: Json, i: nat, st: Style, n: nat)
    requires Tree(j) && Tree(h) && j.Obj? && h.Obj? && |j.items| == |h.items| && i + 1 < |j.items| && i % 2 == 0
    requires CString(j.items[i].key) == CString(h.items[i].key)
    requires TreeItem(j.items[i + 1]) && TreeItem(h.items[i + 1])
    requires Write(j.items[i + 1].json, st, n + st.step) == Write(h.items[i + 1].json, st, n + st.step)
    requires Members(j, i + 2, st, n) == Members(h, i + 2, st, n)
    ensures Members(j, i, st, n) == Members(h, i, st, n)
  {
  }

  lemma {:induction false} MembersCut(j: Json, h: Json, i: nat, st: Style, n: nat)
    requires Tree(j) && Tree(h) && j.Obj? && h.Obj? && CutItems(j.items, h.items) && i <= |j.items| && i % 2 == 0
    ensures Members(h, i, st, n) == Members(j, i, st, n)
    decreases j, |j.items| - i
  {
    if i < |j.items| {
      var x, y := j.items[i + 1], h.items[i + 1];
      assert TreeItem(x) && TreeItem(y) && y.json == Cut(x.json);
      CStringTwice(j.items[i].key);
      WriteCut(x.json, st, n + st.step);
      MembersCut(j, h, i + 2, st, n);
      SameMembers(h, j, i, st, n);
    }
  }

  lemma {:induction false} CutIsClean(j: Json)
    requires Quoteless(j) && Doubleless(j)
    ensures Clean(Cut(j))
  {
    if j.Arr? || j.Obj? {
      forall i | 0 <= i < |j.items| ensures CleanItem(CutItem(j.items[i])) {
        var x := j.items[i];
        assert QuotelessItem(x);
        if x.Val? {
          CutIsClean(x.json);
        } else {
          CStringTwice(x.key);
        }
      }
    }
  }

  lemma {:induction false} CleanIsQuoteless(j: Json)
    requires Clean(j)
    ensures Quoteless(j) && Cut(j) == j
  {
    if j.Arr? || j.Obj? {
      forall i | 0 <= i < |j.items| ensures QuotelessItem(j.items[i]) && CutItem(j.items[i]) == j.items[i] {
        var x := j.items[i];
        assert CleanItem(x);
        if x.Val? {
          CleanIsQuoteless(x.json);
        }
      }
    }
  }

  // ---- Exactly the clean trees come back ------------------------------------------------------

  lemma {:induction false} ScalarsOnly(dbl: ToDouble)
    ensures OnlyScalars(Scalars(dbl))
  {
  }

  /** What comes back from a tree without quotes in its keys: the tree with its keys cut. */
  lemma {:induction false} CompactGivesCut(j: Json, out: real -> string, dbl: ToDouble)
    requires Tree(j) && Quoteless(j) && Doubleless(j)
    ensures Parsed(Write(j, Compact(out), 0), Scalars(dbl)) == Outcome(true, Some(Cut(j)), [], [])
  {
    WriteCut(j, Compact(out), 0);
    CutIsClean(j);
    CompactRoundTrip(Cut(j), out, dbl);
  }

  lemma {:induction false} PrettyGivesCut(j: Json, indent: nat, n: nat, out: real -> string, dbl: ToDouble)
    requires Tree(j) && Quoteless(j) && Doubleless(j)
    ensures Parsed(Write(j, Indented(indent, out), n), Scalars(dbl)) == Outcome(true, Some(Cut(j)), [], [])
  {
    WriteCut(j, Indented(indent, out), n);
    CutIsClean(j);
    PrettyRoundTrip(Cut(j), indent, n, out, dbl);
  }

  lemma {:induction false} CompactRoundTripIff(j: Json, out: real -> string, dbl: ToDouble)
    requires Tree(j) && Doubleless(j)
    ensures Parsed(Write(j, Compact(out), 0), Scalars(dbl)) == Outcome(true, Some(j), [], []) <==> Clean(j)
  {
    ScalarsOnly(dbl);
    ParsedKeys(Write(j, Compact(out), 0), Scalars(dbl));
    if Clean(j) {
      CleanIsQuoteless(j);
    }
    if Quoteless(j) {
      CutIsClean(j);
      CompactGivesCut(j, out, dbl);
    }
  }

  lemma {:induction false} PrettyRoundTripIff(j: Json, indent: nat, n: nat, out: real -> string, dbl: ToDouble)
    requires Tree(j) && Doubleless(j)
    ensures Parsed(Write(j, Indented(indent, out), n), Scalars(dbl)) == Outcome(true, Some(j), [], []) <==> Clean(j)
  {
    ScalarsOnly(dbl);
    ParsedKeys(Write(j, Indented(indent, out), n), Scalars(dbl));
    if Clean(j) {
      CleanIsQuoteless(j);
    }
    if Quoteless(j) {
      CutIsClean(j);
      PrettyGivesCut(j, indent, n, out, dbl);
    }
  }
}
