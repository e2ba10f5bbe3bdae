/**
 The language that the parser reads, as a relation between text and tree that knows nothing of
 labels and stacks; the parser accepts exactly the texts of this language and returns their trees.
 White space may stand between tokens, keys are quoted and have no escapes, and a comma may stand
 before a closing bracket. How a scalar reads is a parameter.
 */
module JsonGrammar {
  import opened DbFormat
  import opened JsonText
  import opened JsonTree
  import opened JsonParser
  import RT = JsonRoundTrip
  import JsonReader
  import JsonKeys

  const BLANK: set<char> := {' ', '\n', '\r', '\t'}

  /** From `p` on there is white space and then, at `b`, something else. */
  predicate Gap(t: string, p: nat, b: nat) {
    p <= b < |t| && t[b] !in BLANK && forall i | p <= i < b :: t[i] in BLANK
  }

  /** A key from quote to quote. */
  predicate KeyAt(t: string, b: nat, e: nat, k: string) {
    b < e < |t| && t[b] == '"' && t[e] == '"' && k == t[b + 1..e] && '"' !in k
  }

  /** After the key that ends at `e`: a colon, and then a value at `v`. */
  ghost predicate ColonThen(t: string, e: nat, v: nat) {
    exists c: nat :: e < c < v && Gap(t, e + 1, c) && t[c] == ':' && Gap(t, c + 1, v)
  }

  function ClosingOf(obj: bool): char { if obj then '}' else ']' }

  /** The value `j` stands from `b` to `q`. */
  ghost predicate Value(t: string, b: nat, q: nat, j: Json, read: Reader)
    requires b <= q < |t|
    decreases q - b, 2
  {
    if t[b] == '{' then j.Obj? && Rest(t, b, q, j.items, true, read)
    else if t[b] == '[' then j.Arr? && Rest(t, b, q, j.items, false, read)
    else read(t, b) == Some((j, q))
  }

  /** After an opening bracket or a comma at `p`: the items, and the closing bracket at `q`. */
  ghost predicate Rest(t: string, p: nat, q: nat, items: seq<Item>, obj: bool, read: Reader)
    requires p <= q < |t|
    decreases q - p, 1
  {
    exists b: nat :: p < b <= q && Gap(t, p + 1, b) &&
      if t[b] == ClosingOf(obj) then b == q && items == []
      else if obj then MembersFrom(t, p, b, q, items, read)
      else ElementsFrom(t, p, b, q, items, read)
  }

  ghost predicate ElementsFrom(t: string, p: nat, b: nat, q: nat, items: seq<Item>, read: Reader)
    requires p < b <= q < |t|
    decreases q - p, 0
  {
    items != [] && items[0].Val? && exists x: nat :: b <= x < q && Value(t, b, x, items[0].json, read)
                                                     && After(t, x, q, items[1..], false, read)
  }

  ghost predicate MembersFrom(t: string, p: nat, b: nat, q: nat, items: seq<Item>, read: Reader)
    requires p < b <= q < |t|
    decreases q - p, 0
  {
    && |items| >= 2 && items[0].Key? && items[1].Val?
    && exists e: nat, v: nat, x: nat :: b < e < v <= x < q && KeyAt(t, b, e, items[0].key) && ColonThen(t, e, v)
                                        && Value(t, v, x, items[1].json, read) && After(t, x, q, items[2..], true, read)
  }

  /** After a value that ends at `x`: a comma and more, or the closing bracket. */
  ghost predicate After(t: string, x: nat, q: nat, items: seq<Item>, obj: bool, read: Reader)
    requires x < q < |t|
    decreases q - x, 1
  {
    exists b: nat :: x < b <= q && Gap(t, x + 1, b) &&
      if t[b] == ClosingOf(obj) then b == q && items == []
      else t[b] == ',' && b < q && Rest(t, b, q, items, obj, read)
  }

  /** The whole text is one value between white space. */
  ghost predicate Document(t: string, j: Json, read: Reader) {
    exists b: nat, q: nat :: b <= q < |t| && Gap(t, 0, b) && Value(t, b, q, j, read)
      && forall i | q < i < |t| :: t[i] in BLANK
  }

  // ---- Tokens ---------------------------------------------------------------------------------

  lemma {:induction false} SkipIsGap(t: string, p: nat)
    requires p <= |t|
    ensures var b := Skip(t, p); if b < |t| then Gap(t, p, b) else forall i | p <= i < |t| :: t[i] in BLANK
    decreases |t| - p
  {
    if p < |t| && IsSpace(t[p]) {
      SkipIsGap(t, p + 1);
    }
  }

  lemma {:induction false} GapIsSkip(t: string, p: nat, b: nat)
    requires Gap(t, p, b)
    ensures Skip(t, p) == b
    decreases b - p
  {
    if p < b {
      GapIsSkip(t, p + 1, b);
    }
  }

  lemma {:induction false} BlankToEnd(t: string, p: nat)
    requires p <= |t| && forall i | p <= i < |t| :: t[i] in BLANK
    ensures Skip(t, p) == |t|
    decreases |t| - p
  {
    if p < |t| {
      BlankToEnd(t, p + 1);
    }
  }

  lemma {:induction false} KeyParses(t: string, b: nat, e: nat, k: string)
    requires KeyAt(t, b, e, k)
    ensures ParseKey(t, b) == Some((k, e))
  {
    assert forall i | b + 1 <= i < e :: t[i] == k[i - b - 1];
  }

  lemma {:induction false} ParsedIsKey(t: string, b: nat)
    requires b < |t| && ParseKey(t, b).Some?
    ensures KeyAt(t, b, ParseKey(t, b).value.1, ParseKey(t, b).value.0)
  {
  }

  lemma {:induction false} ColonParses(t: string, e: nat, v: nat)
    requires e < |t| && ColonThen(t, e, v)
    ensures AfterColon(t, e) == Some(v)
  {
    var c: nat :| e < c < v && Gap(t, e + 1, c) && t[c] == ':' && Gap(t, c + 1, v);
    GapIsSkip(t, e + 1, c);
    GapIsSkip(t, c + 1, v);
  }

  lemma {:induction false} ParsedIsColon(t: string, e: nat)
    requires e < |t| && AfterColon(t, e).Some?
    ensures ColonThen(t, e, AfterColon(t, e).value)
  {
    var c := Skip(t, e + 1);
    SkipIsGap(t, e + 1);
    SkipIsGap(t, c + 1);
  }

  // ---- Every text of the language is read -----------------------------------------------------

  function KindOf(obj: bool): Kind { if obj then InObj else InArr }

  lemma {:induction false} GapOnward(t: string, p: nat, b: nat)
    requires Gap(t, p + 1, b)
    ensures RT.Onward(t, p, b)
  {
    GapIsSkip(t, p + 1, b);
  }

  lemma {:induction false} MemberStands(t: string, b: nat, e: nat, k: string, v: nat)
    requires KeyAt(t, b, e, k) && ColonThen(t, e, v)
    ensures RT.MemberStands(t, b, k, v)
  {
    KeyParses(t, b, e, k);
    ColonParses(t, e, v);
  }

  lemma {:induction false} ValueIsRead(t: string, b: nat, q: nat, j: Json, run: RT.Runner, read: Reader)
    requires b <= q < |t| && Value(t, b, q, j, read) && RT.Runs(t, run, read)
    ensures RT.Reads(t, b, j, q, run, read)
    decreases q - b, 2
  {
    if t[b] == '{' || t[b] == '[' {
      var obj := t[b] == '{';
      RestIsRead(t, b, q, j.items, obj, [], run, read);
      assert [] + j.items == j.items;
      RT.OpenReads(t, b, KindOf(obj), q, j, run, read);
    }
  }

  lemma {:induction false} RestIsRead(t: string, p: nat, q: nat, items: seq<Item>, obj: bool, done: seq<Item>,
                                      run: RT.Runner, read: Reader)
    requires p <= q < |t| && Rest(t, p, q, items, obj, read) && RT.Runs(t, run, read)
    ensures RT.Finishes(t, KindOf(obj), done, ValBeg, p, q, RT.Container(KindOf(obj), done + items), run)
    decreases q - p, 1
  {
    var b: nat :| p < b <= q && Gap(t, p + 1, b) &&
      if t[b] == ClosingOf(obj) then b == q && items == []
      else if obj then MembersFrom(t, p, b, q, items, read)
      else ElementsFrom(t, p, b, q, items, read);
    GapOnward(t, p, b);
    if t[b] == ClosingOf(obj) {
      assert done + items == done;
      RT.Bracket(t, KindOf(obj), done, ValBeg, p, q, run, read);
    } else if obj {
      MembersAreRead(t, p, b, q, items, done, run, read);
    } else {
      ElementsAreRead(t, p, b, q, items, done, run, read);
    }
  }

  lemma {:induction false} ElementsAreRead(t: string, p: nat, b: nat, q: nat, items: seq<Item>, done: seq<Item>,
                                           run: RT.Runner, read: Reader)
    requires p < b <= q < |t| && ElementsFrom(t, p, b, q, items, read) && RT.Runs(t, run, read)
    requires RT.Onward(t, p, b) && t[b] != ']'
    ensures RT.Finishes(t, InArr, done, ValBeg, p, q, RT.Container(InArr, done + items), run)
    decreases q - p, 0
  {
    var x: nat :| b <= x < q && Value(t, b, x, items[0].json, read) && After(t, x, q, items[1..], false, read);
    ValueIsRead(t, b, x, items[0].json, run, read);
    RT.Element(t, done, p, b, x, items[0].json, run, read);
    var more := done + [items[0]];
    assert done + [Val(items[0].json)] == more && more + items[1..] == done + items;
    AfterIsRead(t, x, q, items[1..], false, more, run, read);
    RT.MovesOn(t, InArr, done, ValBeg, p, more, ValEnd, x, q, RT.Container(InArr, done + items), run);
  }

  lemma {:induction false} MembersAreRead(t: string, p: nat, b: nat, q: nat, items: seq<Item>, done: seq<Item>,
                                          run: RT.Runner, read: Reader)
    requires p < b <= q < |t| && MembersFrom(t, p, b, q, items, read) && RT.Runs(t, run, read)
    requires RT.Onward(t, p, b) && t[b] != '}'
    ensures RT.Finishes(t, InObj, done, ValBeg, p, q, RT.Container(InObj, done + items), run)
    decreases q - p, 0
  {
    var e: nat, v: nat, x: nat :| b < e < v <= x < q && KeyAt(t, b, e, items[0].key) && ColonThen(t, e, v)
      && Value(t, v, x, items[1].json, read) && After(t, x, q, items[2..], true, read);
    MemberStands(t, b, e, items[0].key, v);
    ValueIsRead(t, v, x, items[1].json, run, read);
    RT.Member(t, done, p, b, items[0].key, v, x, items[1].json, run, read);
    var more := done + [items[0], items[1]];
    assert done + [Key(items[0].key), Val(items[1].json)] == more && more + items[2..] == done + items;
    AfterIsRead(t, x, q, items[2..], true, more, run, read);
    RT.MovesOn(t, InObj, done, ValBeg, p, more, ValEnd, x, q, RT.Container(InObj, done + items), run);
  }

  lemma {:induction false} AfterIsRead(t: string, x: nat, q: nat, items: seq<Item>, obj: bool, done: seq<Item>,
                                       run: RT.Runner, read: Reader)
    requires x < q < |t| && After(t, x, q, items, obj, read) && RT.Runs(t, run, read)
    ensures RT.Finishes(t, KindOf(obj), done, ValEnd, x, q, RT.Container(KindOf(obj), done + items), run)
    decreases q - x, 1
  {
    var b: nat :| x < b <= q && Gap(t, x + 1, b) &&
      if t[b] == ClosingOf(obj) then b == q && items == []
      else t[b] == ',' && b < q && Rest(t, b, q, items, obj, read);
    GapOnward(t, x, b);
    if t[b] == ClosingOf(obj) {
      assert done + items == done;
      RT.Bracket(t, KindOf(obj), done, ValEnd, x, q, run, read);
    } else {
      RT.Comma(t, KindOf(obj), done, x, b, run, read);
      RestIsRead(t, b, q, items, obj, done, run, read);
      RT.MovesOn(t, KindOf(obj), done, ValEnd, x, done, ValBeg, b, q, RT.Container(KindOf(obj), done + items), run);
    }
  }

  // ---- Nothing else is ------------------------------------------------------------------------

  predicate Accepts(r: Outcome) { r.Outcome? && r.ok }

  lemma {:induction false} FailIsNo(t: string, st: State, read: Reader)
    requires st.at.Fail?
    ensures !Accepts(Run(t, st, read))
  {
    JsonKeys.CleanUpFails(st.s, st.u, st.size, st.kind);
  }

  /** What the machine does next, if it is to accept. */
  lemma {:induction false} Goes(t: string, st: State, read: Reader)
    requires Accepts(Run(t, st, read)) && st.b < |t| && (st.at.ValBeg? || st.at.ValEnd?)
    ensures Accepts(Run(t, Step(t, st, read), read)) && !Step(t, st, read).at.Fail?
  {
    if Step(t, st, read).at.Fail? {
      FailIsNo(t, Step(t, st, read), read);
    }
  }

  lemma {:induction false} ReadIsValue(t: string, b: nat, c: State, run: RT.Runner, read: Reader)
    returns (q: nat, j: Json)
    requires b < |t| && run == (st => Run(t, st, read)) && RT.Runs(t, run, read)
    requires Accepts(run(ReadValue(t, b, c, read)))
    ensures b <= q < |t| && Value(t, b, q, j, read) && Accepts(run(Push(c, q, j)))
    decreases |t| - b, 2
  {
    if t[b] == '{' || t[b] == '[' {
      var obj := t[b] == '{';
      RT.Opens(c, b, KindOf(obj));
      var items;
      q, items := RestIsThere(t, b, obj, [], c, run, read);
      j := RT.Container(KindOf(obj), items);
      ValueIsRead(t, b, q, j, run, read);
      assert RT.Visited(c);
    } else {
      if read(t, b).None? {
        FailIsNo(t, ReadValue(t, b, c, read), read);
      }
      q, j := read(t, b).value.1, read(t, b).value.0;
    }
  }

  lemma {:induction false} RestIsThere(t: string, p: nat, obj: bool, done: seq<Item>, c: State, run: RT.Runner,
                                       read: Reader)
    returns (q: nat, items: seq<Item>)
    requires p < |t| && run == (st => Run(t, st, read)) && RT.Runs(t, run, read)
    requires Accepts(run(RT.Inner(c, KindOf(obj), done, ValBeg, p)))
    ensures p <= q < |t| && Rest(t, p, q, items, obj, read)
    decreases |t| - p, 1
  {
    var st := RT.Inner(c, KindOf(obj), done, ValBeg, p);
    Goes(t, st, read);
    SkipIsGap(t, p + 1);
    var b := Skip(t, p + 1);
    if t[b] == ClosingOf(obj) {
      q, items := b, [];
    } else if obj {
      q, items := MembersAreThere(t, p, b, done, c, run, read);
    } else {
      q, items := ElementsAreThere(t, p, b, done, c, run, read);
    }
  }

  lemma {:induction false} ElementsAreThere(t: string, p: nat, b: nat, done: seq<Item>, c: State, run: RT.Runner,
                                            read: Reader)
    returns (q: nat, items: seq<Item>)
    requires p < b < |t| && run == (st => Run(t, st, read)) && RT.Runs(t, run, read)
    requires Accepts(run(ReadValue(t, b, RT.Inner(c, InArr, done, ValBeg, p), read)))
    ensures b <= q < |t| && ElementsFrom(t, p, b, q, items, read)
    decreases |t| - p, 0
  {
    var x, j := ReadIsValue(t, b, RT.Inner(c, InArr, done, ValBeg, p), run, read);
    RT.Pushes(c, InArr, done, ValBeg, p, x, j);
    var rest;
    q, rest := AfterIsThere(t, x, false, done + [Val(j)], c, run, read);
    items := [Val(j)] + rest;
    assert items[1..] == rest;
  }

  lemma {:induction false} MembersAreThere(t: string, p: nat, b: nat, done: seq<Item>, c: State, run: RT.Runner,
                                           read: Reader)
    returns (q: nat, items: seq<Item>)
    requires p < b < |t| && run == (st => Run(t, st, read)) && RT.Runs(t, run, read)
    requires Accepts(run(Member(t, b, RT.Inner(c, InObj, done, ValBeg, p), read)))
    ensures b <= q < |t| && MembersFrom(t, p, b, q, items, read)
    decreases |t| - p, 0
  {
    var st := RT.Inner(c, InObj, done, ValBeg, p);
    if Member(t, b, st, read).at.Fail? {
      FailIsNo(t, Member(t, b, st, read), read);
    }
    var k, e := ParseKey(t, b).value.0, ParseKey(t, b).value.1;
    var v := AfterColon(t, e).value;
    ParsedIsKey(t, b);
    ParsedIsColon(t, e);
    var c' := RT.Inner(c, InObj, done + [Key(k)], ValBeg, p);
    assert st.s + [Key(k)] == c'.s;
    var x, j := ReadIsValue(t, v, c', run, read);
    RT.Pushes(c, InObj, done + [Key(k)], ValBeg, p, x, j);
    var rest;
    q, rest := AfterIsThere(t, x, true, done + [Key(k)] + [Val(j)], c, run, read);
    items := [Key(k), Val(j)] + rest;
    assert items[2..] == rest;
  }

  lemma {:induction false} AfterIsThere(t: string, x: nat, obj: bool, done: seq<Item>, c: State, run: RT.Runner,
                                        read: Reader)
    returns (q: nat, items: seq<Item>)
    requires x < |t| && run == (st => Run(t, st, read)) && RT.Runs(t, run, read)
    requires Accepts(run(RT.Inner(c, KindOf(obj), done, ValEnd, x)))
    ensures x < q < |t| && After(t, x, q, items, obj, read)
    decreases |t| - x, 1
  {
    var st := RT.Inner(c, KindOf(obj), done, ValEnd, x);
    Goes(t, st, read);
    SkipIsGap(t, x + 1);
    var b := Skip(t, x + 1);
    if t[b] == ClosingOf(obj) {
      q, items := b, [];
    } else {
      q, items := RestIsThere(t, b, obj, done, c, run, read);
    }
  }

  // ---- The parser's language ------------------------------------------------------------------

  lemma {:induction false} DocumentParses(t: string, j: Json, read: Reader)
    requires Document(t, j, read)
    ensures Parsed(t, read) == Outcome(true, Some(j), [], [])
  {
    var b: nat, q: nat :| b <= q < |t| && Gap(t, 0, b) && Value(t, b, q, j, read)
      && forall i | q < i < |t| :: t[i] in BLANK;
    var run: RT.Runner := st => Run(t, st, read);
    JsonReader.RunRuns(t, run, read);
    ValueIsRead(t, b, q, j, run, read);
    GapIsSkip(t, 0, b);
    BlankToEnd(t, q + 1);
    JsonReader.WholeParses(t, b, j, q, run, read);
  }

  lemma {:induction false} AcceptedIsDocument(t: string, read: Reader) returns (j: Json)
    requires Accepts(Parsed(t, read))
    ensures Document(t, j, read) && Parsed(t, read).val == Some(j)
  {
    var b := Skip(t, 0);
    SkipIsGap(t, 0);
    var run: RT.Runner := st => Run(t, st, read);
    JsonReader.RunRuns(t, run, read);
    var q;
    q, j := ReadIsValue(t, b, START, run, read);
    ValueIsRead(t, b, q, j, run, read);
    assert RT.Visited(START);
    SkipIsGap(t, q + 1);
  }

  /** The parser accepts a text exactly if it is in the language, and returns its tree, with both stacks empty. */
  lemma {:induction false} ParsedIffDocument(t: string, j: Json, read: Reader)
    ensures Parsed(t, read) == Outcome(true, Some(j), [], []) <==> Document(t, j, read)
  {
    if Parsed(t, read) == Outcome(true, Some(j), [], []) {
      var _ := AcceptedIsDocument(t, read);
    } else if Document(t, j, read) {
      DocumentParses(t, j, read);
    }
  }

  /** Every other text is refused. */
  lemma {:induction false} RefusedIffNot(t: string, read: Reader)
    ensures Parsed(t, read).Outcome? && (Parsed(t, read).ok <==> exists j :: Document(t, j, read))
  {
    ParseEmpties(t, read);
    if Accepts(Parsed(t, read)) {
      var j := AcceptedIsDocument(t, read);
    } else if j :| Document(t, j, read) {
      DocumentParses(t, j, read);
    }
  }
}
