/** Parsing what a printer wrote gives the tree back. */
module JsonRoundTrip {
  import opened DbFormat
  import opened Guard
  import opened JsonText
  import opened JsonNumber
  import opened JsonTree
  import opened JsonParser

  // ---- Steps of the machine -------------------------------------------------------------------

  /** The state inside a container that was opened in `c`, with these children read. */
  function Inner(c: State, kind: Kind, items: seq<Item>, at: Label, b: nat): State {
    State(at, b, c.s + [Val(Empty(kind))] + items, c.u + [Frame(c.size, c.kind)], |c.s| + 1, kind)
  }

  lemma {:induction false} Opens(c: State, b: nat, kind: Kind)
    ensures Open(c, b, kind) == Inner(c, kind, [], ValBeg, b)
  {
    assert c.s + [Val(Empty(kind))] + [] == c.s + [Val(Empty(kind))];
  }

  lemma {:induction false} Pushes(c: State, kind: Kind, items: seq<Item>, at: Label, b: nat, p: nat, j: Json)
    requires !kind.Top?
    ensures Push(Inner(c, kind, items, at, b), p, j) == Inner(c, kind, items + [Val(j)], ValEnd, p)
  {
    var s := c.s + [Val(Empty(kind))];
    assert s + items + [Val(j)] == s + (items + [Val(j)]);
  }

  /** A marker like `Unfolded`, for facts about the text alone. */
  predicate Looked(n: nat) { n >= 0 }

  /** The end of the machine from a state: what `Run` gives, or any function that respects the steps. */
  type Runner = State -> Outcome

  ghost predicate Runs(t: string, run: Runner, read: Reader) {
    forall a: State {:trigger Stepped(a)} | Stepped(a) && Able(t, a) && !a.at.Fail? && !a.at.End? ::
      run(a) == run(Step(t, a, read))
  }

  predicate Stepped(a: State) { a.b >= 0 }

  /** A marker for the states a fact about all states is used in. */
  predicate Visited(c: State) { c.b >= 0 }

  /** A value that stands at `b` and ends at `q` is pushed, whatever state waits for it. */
  ghost predicate Reads(t: string, b: nat, j: Json, q: nat, run: Runner, read: Reader) {
    b <= q < |t| && forall c: State {:trigger Visited(c)} | Visited(c) ::
      run(ReadValue(t, b, c, read)) == run(Push(c, q, j))
  }

  /** Inside a container, the machine gets from one state to the other. */
  ghost predicate Moves(kind: Kind, items: seq<Item>, at: Label, p: nat, items': seq<Item>, at': Label, p': nat,
                        run: Runner) {
    forall c: State {:trigger Visited(c)} | Visited(c) ::
      run(Inner(c, kind, items, at, p)) == run(Inner(c, kind, items', at', p'))
  }

  /** The container is closed at `e` and is the value `j`. */
  ghost predicate Finishes(t: string, kind: Kind, items: seq<Item>, at: Label, p: nat, e: nat, j: Json, run: Runner) {
    e < |t| && forall c: State {:trigger Visited(c)} | Visited(c) ::
      run(Inner(c, kind, items, at, p)) == run(Push(c, e, j))
  }

  lemma {:induction false} MovesOn(t: string, kind: Kind, items: seq<Item>, at: Label, p: nat, items': seq<Item>,
                                   at': Label, p': nat,
                                   e: nat, j: Json, run: Runner)
    requires Moves(kind, items, at, p, items', at', p', run) && Finishes(t, kind, items', at', p', e, j, run)
    ensures Finishes(t, kind, items, at, p, e, j, run)
  {
  }

  lemma {:induction false} RunStep(t: string, a: State, b: State, run: Runner, read: Reader)
    requires Runs(t, run, read)
    requires Able(t, a) && !a.at.Fail? && !a.at.End? && b == Step(t, a, read)
    ensures run(a) == run(b)
  {
    assert Stepped(a);
  }

  function Container(kind: Kind, items: seq<Item>): Json { if kind.InObj? then Obj(items) else Arr(items) }

  lemma {:induction false} InnerCollects(c: State, kind: Kind, items: seq<Item>, e: nat)
    requires !kind.Top?
    ensures var st := Inner(c, kind, items, Close, e);
            CanClose(st.s, st.u, st.size) && Collect(st.s, st.size) == c.s + [Val(Container(kind, items))]
  {
    var st := Inner(c, kind, items, Close, e);
    assert st.s[|c.s|] == Val(Empty(kind)) && st.s[..|c.s|] == c.s && st.s[|c.s| + 1..] == items;
  }

  lemma {:induction false} InnerCloses(c: State, kind: Kind, items: seq<Item>, e: nat)
    requires !kind.Top?
    ensures var st := Inner(c, kind, items, Close, e);
            CanClose(st.s, st.u, st.size) && AtClose(st) == Push(c, e, Container(kind, items))
  {
    var st := Inner(c, kind, items, Close, e);
    InnerCollects(c, kind, items, e);
    assert st.u[|st.u| - 1] == Frame(c.size, c.kind) && st.u[..|st.u| - 1] == c.u;
    var r := c.s + [Val(Container(kind, items))];
    assert r[..|r| - 1] == c.s;
  }

  /** Closing a container completes a value of the enclosing one. */
  lemma {:induction false} Closes(t: string, kind: Kind, items: seq<Item>, e: nat, run: Runner, read: Reader)
    requires Runs(t, run, read)
    requires e < |t| && !kind.Top?
    ensures Finishes(t, kind, items, Close, e, e, Container(kind, items), run)
  {
    forall c: State | Visited(c)
      ensures run(Inner(c, kind, items, Close, e)) == run(Push(c, e, Container(kind, items)))
    {
      InnerCloses(c, kind, items, e);
      RunStep(t, Inner(c, kind, items, Close, e), Push(c, e, Container(kind, items)), run, read);
    }
  }

  /** After `p`: white space, then `b`. */
  ghost predicate Onward(t: string, p: nat, b: nat) { p < b < |t| && forall k | Looked(k) :: Skip(t, p + 1) == b }

  /** After a value: a comma. */
  lemma {:induction false} Comma(t: string, kind: Kind, items: seq<Item>, q: nat, b: nat, run: Runner, read: Reader)
    requires Runs(t, run, read)
    requires Onward(t, q, b) && t[b] == ','
    ensures Moves(kind, items, ValEnd, q, items, ValBeg, b, run)
  {
    assert Looked(0);
    forall c: State | Visited(c)
      ensures run(Inner(c, kind, items, ValEnd, q)) == run(Inner(c, kind, items, ValBeg, b))
    {
      RunStep(t, Inner(c, kind, items, ValEnd, q), Inner(c, kind, items, ValBeg, b), run, read);
    }
  }

  lemma {:induction false} ToBracket(t: string, kind: Kind, items: seq<Item>, at: Label, q: nat, e: nat, run: Runner,
                                     read: Reader)
    requires Runs(t, run, read)
    requires Onward(t, q, e) && t[e] == Closing(kind) && (at.ValBeg? || at.ValEnd?) && !kind.Top?
    ensures Moves(kind, items, at, q, items, Close, e, run)
  {
    assert Looked(0);
    forall c: State | Visited(c)
      ensures run(Inner(c, kind, items, at, q)) == run(Inner(c, kind, items, Close, e))
    {
      RunStep(t, Inner(c, kind, items, at, q), Inner(c, kind, items, Close, e), run, read);
    }
  }

  /** Before or after a value: the closing bracket. */
  lemma {:induction false} Bracket(t: string, kind: Kind, items: seq<Item>, at: Label, q: nat, e: nat, run: Runner,
                                   read: Reader)
    requires Runs(t, run, read)
    requires Onward(t, q, e) && t[e] == Closing(kind) && (at.ValBeg? || at.ValEnd?) && !kind.Top?
    ensures Finishes(t, kind, items, at, q, e, Container(kind, items), run)
  {
    ToBracket(t, kind, items, at, q, e, run, read);
    Closes(t, kind, items, e, run, read);
    MovesOn(t, kind, items, at, q, items, Close, e, e, Container(kind, items), run);
  }

  /** A value of an array. */
  lemma {:induction false} Element(t: string, items: seq<Item>, p: nat, b: nat, q: nat, x: Json, run: Runner,
                                   read: Reader)
    requires Runs(t, run, read)
    requires Onward(t, p, b) && t[b] != ']' && Reads(t, b, x, q, run, read)
    ensures Moves(InArr, items, ValBeg, p, items + [Val(x)], ValEnd, q, run)
  {
    assert Looked(0);
    forall c: State | Visited(c)
      ensures run(Inner(c, InArr, items, ValBeg, p)) == run(Inner(c, InArr, items + [Val(x)], ValEnd, q))
    {
      var a := Inner(c, InArr, items, ValBeg, p);
      assert Visited(a);
      Pushes(c, InArr, items, ValBeg, p, q, x);
      RunStep(t, a, ReadValue(t, b, a, read), run, read);
    }
  }

  /** A member of an object: its key, the colon, then its value. */
  lemma {:induction false} Member(t: string, items: seq<Item>, p: nat, b: nat, k: string, v: nat, q: nat, x: Json,
                                  run: Runner, read: Reader)
    requires Runs(t, run, read)
    requires Onward(t, p, b) && t[b] != '}' && MemberStands(t, b, k, v) && Reads(t, v, x, q, run, read)
    ensures Moves(InObj, items, ValBeg, p, items + [Key(k), Val(x)], ValEnd, q, run)
  {
    assert Looked(0);
    forall c: State | Visited(c)
      ensures run(Inner(c, InObj, items, ValBeg, p)) == run(Inner(c, InObj, items + [Key(k), Val(x)], ValEnd, q))
    {
      var a := Inner(c, InObj, items + [Key(k)], ValBeg, p);
      assert Visited(a);
      Pushes(c, InObj, items + [Key(k)], ValBeg, p, q, x);
      assert items + [Key(k)] + [Val(x)] == items + [Key(k), Val(x)];
      KeyStep(t, c, items, p, b, k, v, read);
      RunStep(t, Inner(c, InObj, items, ValBeg, p), ReadValue(t, v, a, read), run, read);
    }
  }

  /** The key `k` at `b` and, after the colon, a value at `v`. */
  ghost predicate MemberStands(t: string, b: nat, k: string, v: nat) {
    b < |t| && v < |t| && forall n | Looked(n) ::
      ParseKey(t, b).Some? && ParseKey(t, b).value.0 == k && AfterColon(t, ParseKey(t, b).value.1) == Some(v)
  }

  lemma {:induction false} KeyStep(t: string, c: State, items: seq<Item>, p: nat, b: nat, k: string, v: nat,
                                   read: Reader)
    requires Onward(t, p, b) && t[b] != '}' && MemberStands(t, b, k, v)
    ensures AtValBeg(t, Inner(c, InObj, items, ValBeg, p), read) ==
              ReadValue(t, v, Inner(c, InObj, items + [Key(k)], ValBeg, p), read)
  {
    assert Looked(0);
    var s := c.s + [Val(Empty(InObj))];
    assert s + items + [Key(k)] == s + (items + [Key(k)]);
  }

  // ---- Printed text ---------------------------------------------------------------------------

  /** Only white space between the tokens. */
  ghost predicate Spaced(st: Style) {
    forall k | Unfolded(k) ::
      (forall n: nat :: AllSpace(st.gap(n))) && (forall n: nat :: AllSpace(st.last(n))) && ColonOk(st.colon)
  }

  predicate ColonOk(colon: string) { colon != "" && colon[0] == ':' && AllSpace(colon[1..]) }

  /** The reader reads back what the printer writes for a scalar. */
  ghost predicate Faithful(read: Reader) {
    forall k | Unfolded(k) ::
      forall t, b: nat, j, st | ScalarStands(t, b, j, st) :: read(t, b) == Some((j, b + |Scalar(j, st)| - 1))
  }

  predicate ScalarStands(t: string, b: nat, j: Json, st: Style) {
    !j.Arr? && !j.Obj? && Tree(j) && Clean(j) && Stands(t, b, Scalar(j, st)) && NumberStops(t, b + |Scalar(j, st)|)
  }

  /** A character that can begin a value and is not a bracket. */
  predicate Begins(c: char) { !IsSpace(c) && c != '{' && c != '[' && c != '}' && c != ']' }

  lemma {:induction false} ScalarHead(j: Json, st: Style)
    requires !j.Arr? && !j.Obj? && Tree(j) && Clean(j)
    ensures Scalar(j, st) != "" && Begins(Scalar(j, st)[0])
  {
    if j.Int? && j.i >= 0 {
      DecimalIsNumeral(j.i);
      assert IsDigit(Decimal(j.i)[0]);
    }
  }

  lemma {:induction false} WriteHead(j: Json, st: Style, n: nat)
    requires Tree(j) && Clean(j)
    ensures var w := Write(j, st, n);
            w != "" && !IsSpace(w[0]) && w[0] != '}' && w[0] != ']' &&
            (j.Arr? ==> w[0] == '[') && (j.Obj? ==> w[0] == '{') && (!j.Arr? && !j.Obj? ==> Begins(w[0]))
  {
    if !j.Arr? && !j.Obj? {
      ScalarHead(j, st);
    }
  }

  /** White space of a style, then something else. */
  lemma {:induction false} GapThen(t: string, q: nat, gap: string, w: string)
    requires Stands(t, q, gap + w) && AllSpace(gap) && w != "" && !IsSpace(w[0])
    ensures Stands(t, q + |gap|, w) && q + |gap| < |t| && t[q + |gap|] == w[0] && Skip(t, q) == q + |gap|
  {
    StandsConcat(t, q, gap, w);
    StandsAt(t, q + |gap|, w, 0);
    SkipGap(t, q, gap);
  }

  /** What may follow a value: a comma, a closing bracket or white space. */
  lemma {:induction false} Stops(t: string, p: nat, w: string)
    requires Stands(t, p, w) && w != "" && (w[0] == ',' || w[0] == ']' || w[0] == '}' || IsSpace(w[0]))
    ensures NumberStops(t, p)
  {
    StandsAt(t, p, w, 0);
  }

  lemma {:induction false} KeyIs(k: string)
    requires CleanKey(k)
    ensures CString(k) == k
  {
  }

  lemma {:induction false} KeyReads(t: string, b: nat, k: string)
    requires CleanKey(k) && Stands(t, b, Quoted(k))
    ensures b < |t| && t[b] == '"' && ParseKey(t, b) == Some((k, b + |k| + 1))
  {
    var w := Quoted(k);
    StandsAt(t, b, w, 0);
    StandsAt(t, b, w, |k| + 1);
    forall i | b < i <= b + |k| ensures t[i] != '"' {
      StandsAt(t, b, w, i - b);
      assert w[i - b] == k[i - b - 1];
    }
    FindOnward(t, b + 1, b + |k| + 1, |t|, '"');
    assert t[b + 1..b + |k| + 1] == k by {
      forall i | 0 <= i < |k| ensures t[b + 1 + i] == k[i] {
        StandsAt(t, b, w, i + 1);
      }
    }
  }

  lemma {:induction false} ColonReads(t: string, p: nat, colon: string, w: string)
    requires p < |t| && Stands(t, p + 1, colon + w) && ColonOk(colon) && w != "" && !IsSpace(w[0])
    ensures AfterColon(t, p) == Some(p + 1 + |colon|) && Stands(t, p + 1 + |colon|, w)
  {
    assert colon + w == [':'] + (colon[1..] + w);
    StandsConcat(t, p + 1, [':'], colon[1..] + w);
    StandsAt(t, p + 1, [':'], 0);
    GapThen(t, p + 2, colon[1..], w);
  }

  /** `w` stands at `p`; unfolded only where the text itself matters. */
  ghost predicate Here(t: string, p: nat, w: string) {
    p + |w| <= |t| && forall n | Looked(n) :: Stands(t, p, w)
  }

  /** Not the white space before a token, nor a closing bracket. */
  predicate Opening(w: string) { w != "" && !IsSpace(w[0]) && w[0] != '}' && w[0] != ']' }

  /** What may follow a value. */
  predicate Following(w: string) { w != "" && (w[0] == ',' || w[0] == ']' || w[0] == '}' || IsSpace(w[0])) }

  lemma {:induction false} HereSplits(t: string, p: nat, a: string, b: string, ab: string)
    requires Here(t, p, ab) && ab == a + b
    ensures Here(t, p, a) && Here(t, p + |a|, b)
  {
    assert Looked(0);
    StandsConcat(t, p, a, b);
  }

  lemma {:induction false} HereOpens(t: string, p: nat, gap: string, w: string, ab: string)
    requires p < |t| && Here(t, p + 1, ab) && ab == gap + w && AllSpace(gap) && w != "" && !IsSpace(w[0])
    ensures Onward(t, p, p + 1 + |gap|) && t[p + 1 + |gap|] == w[0] && Here(t, p + 1 + |gap|, w)
  {
    assert Looked(0);
    GapThen(t, p + 1, gap, w);
  }

  lemma {:induction false} HereStops(t: string, p: nat, w: string)
    requires Here(t, p, w) && Following(w)
    ensures NumberStops(t, p)
  {
    assert Looked(0);
    Stops(t, p, w);
  }

  lemma {:induction false} StandsFive(t: string, q: nat, a: string, b: string, c: string, d: string, e: string)
    requires Stands(t, q, a + (b + (c + (d + e))))
    ensures Stands(t, q, a) && Stands(t, q + |a|, b) && Stands(t, q + |a| + |b|, c)
    ensures Stands(t, q + |a| + |b| + |c|, d) && Stands(t, q + |a| + |b| + |c| + |d|, e)
  {
    StandsConcat(t, q, a, b + (c + (d + e)));
    StandsConcat(t, q + |a|, b, c + (d + e));
    StandsConcat(t, q + |a| + |b|, c, d + e);
    StandsConcat(t, q + |a| + |b| + |c|, d, e);
  }

  /** A text of five parts. */
  lemma {:induction false} HereFive(t: string, q: nat, a: string, b: string, c: string, d: string, e: string,
                                    all: string)
    requires Here(t, q, all) && all == a + (b + (c + (d + e)))
    ensures Here(t, q, a) && Here(t, q + |a|, b) && Here(t, q + |a| + |b|, c)
    ensures Here(t, q + |a| + |b| + |c|, d) && Here(t, q + |a| + |b| + |c| + |d|, e)
    ensures |all| == |a| + |b| + |c| + |d| + |e|
  {
    assert Looked(0);
    StandsFive(t, q, a, b, c, d, e);
  }

  /** White space, and then a token. */
  lemma {:induction false} OnwardGap(t: string, p: nat, gap: string, w: string)
    requires p < |t| && Here(t, p + 1, gap) && AllSpace(gap) && Here(t, p + 1 + |gap|, w) && w != "" && !IsSpace(w[0])
    ensures Onward(t, p, p + 1 + |gap|) && t[p + 1 + |gap|] == w[0]
  {
    assert Looked(0);
    StandsAt(t, p + 1 + |gap|, w, 0);
    SkipGap(t, p + 1, gap);
  }

  /** An element and what follows it. */
  lemma {:induction false} ElementAt(t: string, p: nat, gap: string, w: string, rest: string)
    requires p < |t| && Here(t, p + 1, gap) && Here(t, p + 1 + |gap|, w) && Here(t, p + 1 + |gap| + |w|, rest)
    requires AllSpace(gap) && Opening(w) && Following(rest)
    ensures Onward(t, p, p + 1 + |gap|) && t[p + 1 + |gap|] != ']' && NumberStops(t, p + 1 + |gap| + |w|)
  {
    OnwardGap(t, p, gap, w);
    HereStops(t, p + 1 + |gap| + |w|, rest);
  }

  lemma {:induction false} ColonIs(t: string, p: nat, colon: string, w: string)
    requires p < |t| && Here(t, p + 1, colon) && Here(t, p + 1 + |colon|, w) && ColonOk(colon) && w != ""
             && !IsSpace(w[0])
    ensures AfterColon(t, p) == Some(p + 1 + |colon|)
  {
    assert Looked(0);
    StandsConcat(t, p + 1, colon, w);
    ColonReads(t, p, colon, w);
  }

  lemma {:induction false} KeyHere(t: string, b: nat, k: string)
    requires Here(t, b, Quoted(k)) && CleanKey(k)
    ensures b + |k| + 1 < |t| && t[b] == '"' && ParseKey(t, b) == Some((k, b + |k| + 1))
  {
    assert Looked(0);
    KeyReads(t, b, k);
  }

  lemma {:induction false} MemberIs(t: string, b: nat, k: string, colon: string, w: string)
    requires Here(t, b, Quoted(k)) && Here(t, b + |k| + 2, colon) && Here(t, b + |k| + 2 + |colon|, w) && CleanKey(k)
    requires ColonOk(colon) && w != "" && !IsSpace(w[0])
    ensures MemberStands(t, b, k, b + |k| + 2 + |colon|)
  {
    KeyHere(t, b, k);
    ColonIs(t, b + |k| + 1, colon, w);
    HereStarts(t, b + |k| + 2 + |colon|, w);
  }

  /** A member and what follows it. */
  lemma {:induction false} MemberAt(t: string, p: nat, gap: string, k: string, colon: string, w: string, rest: string)
    requires p < |t| && Here(t, p + 1, gap) && Here(t, p + 1 + |gap|, Quoted(k))
             && Here(t, p + 1 + |gap| + |k| + 2, colon)
    requires var v := p + 1 + |gap| + |k| + 2 + |colon|; Here(t, v, w) && Here(t, v + |w|, rest)
    requires AllSpace(gap) && CleanKey(k) && ColonOk(colon) && Opening(w) && Following(rest)
    ensures var b := p + 1 + |gap|;
            var v := b + |k| + 2 + |colon|;
            Onward(t, p, b) && t[b] != '}' && MemberStands(t, b, k, v) && NumberStops(t, v + |w|)
  {
    var b := p + 1 + |gap|;
    OnwardGap(t, p, gap, Quoted(k));
    MemberIs(t, b, k, colon, w);
    HereStops(t, b + |k| + 2 + |colon| + |w|, rest);
  }

  lemma {:induction false} MemberPlace(t: string, p: nat, gap: string, k: string, colon: string, w: string,
                                       rest: string, e: string)
    requires p < |t| && Here(t, p + 1, e) && e == gap + (Quoted(k) + (colon + (w + rest)))
    requires AllSpace(gap) && CleanKey(k) && ColonOk(colon) && Opening(w) && Following(rest)
    ensures var b := p + 1 + |gap|;
            var v := b + |k| + 2 + |colon|;
            Onward(t, p, b) && t[b] != '}' && MemberStands(t, b, k, v) && NumberStops(t, v + |w|)
              && Here(t, v, w) && Here(t, v + |w|, rest) &&
            v + |w| + |rest| == p + 1 + |e|
  {
    HereFive(t, p + 1, gap, Quoted(k), colon, w, rest, e);
    MemberAt(t, p, gap, k, colon, w, rest);
  }

  // ---- Arrays ---------------------------------------------------------------------------------

  /** The text of a clean tree at column `n`. */
  ghost predicate Printed(j: Json, st: Style, n: nat, w: string) {
    forall k | Unfolded(k) :: Tree(j) && Clean(j) && w == Write(j, st, n)
  }

  /** The text of the elements of a clean array from index `i` on, with the closing bracket. */
  ghost predicate Tail(j: Json, i: nat, st: Style, n: nat, e: string) {
    forall k | Unfolded(k) :: Tree(j) && Clean(j) && j.Arr? && i <= |j.items| && e == Elements(j, i, st, n) + "]"
  }

  lemma {:induction false} AfterHead(last: string, bracket: string)
    requires AllSpace(last) && (bracket == "]" || bracket == "}")
    ensures Following(last + bracket)
  {
  }

  /** The element at `i`, and what follows it. */
  lemma {:induction false} TailSplits(j: Json, i: nat, st: Style, n: nat, e: string)
    returns (x: Json, w: string, rest: string)
    requires Tail(j, i, st, n, e) && j.Arr? && i < |j.items| && Spaced(st)
    ensures j.items[..i] + [Val(x)] == j.items[..i + 1] && x < j && Printed(x, st, n + st.step, w) && Opening(w)
            && Following(rest)
    ensures e == st.gap(n) + (w + rest) && AllSpace(st.gap(n)) && AllSpace(st.last(n))
    ensures i + 1 < |j.items| ==> rest[0] == ',' && Tail(j, i + 1, st, n, rest[1..])
    ensures i + 1 == |j.items| ==> rest == st.last(n) + "]" && AllSpace(st.last(n))
  {
    assert Unfolded(0);
    assert TreeItem(j.items[i]) && CleanItem(j.items[i]);
    x := j.items[i].json;
    w := Write(x, st, n + st.step);
    WriteHead(x, st, n + st.step);
    if i + 1 < |j.items| {
      rest := "," + (Elements(j, i + 1, st, n) + "]");
      assert rest[1..] == Elements(j, i + 1, st, n) + "]";
    } else {
      rest := st.last(n) + "]";
      AfterHead(st.last(n), "]");
    }
  }

  /** After the last element: white space and the closing bracket. */
  lemma {:induction false} LastElement(t: string, kind: Kind, q: nat, items: seq<Item>, last: string, rest: string,
                                       run: Runner, read: Reader)
    requires Runs(t, run, read)
    requires q < |t| && Here(t, q + 1, rest) && rest == last + [Closing(kind)] && AllSpace(last) && !kind.Top?
    ensures Finishes(t, kind, items, ValEnd, q, q + |rest|, Container(kind, items), run)
  {
    HereOpens(t, q, last, [Closing(kind)], rest);
    Bracket(t, kind, items, ValEnd, q, q + |rest|, run, read);
  }

  /** After another element: a comma. */
  lemma {:induction false} NextElement(t: string, kind: Kind, q: nat, items: seq<Item>, rest: string, run: Runner,
                                       read: Reader)
    requires Runs(t, run, read)
    requires q < |t| && Here(t, q + 1, rest) && rest != "" && rest[0] == ','
    ensures q + 1 < |t| && Here(t, q + 2, rest[1..]) && Moves(kind, items, ValEnd, q, items, ValBeg, q + 1, run)
  {
    assert rest == "" + rest && rest == "," + rest[1..];
    HereOpens(t, q, "", rest, rest);
    HereSplits(t, q + 1, ",", rest[1..], rest);
    Comma(t, kind, items, q, q + 1, run, read);
  }

  /** The element at `i` in the text: it stands at `b`, and `rest` follows it. */
  lemma {:induction false} ElementLies(t: string, p: nat, j: Json, i: nat, e: string, st: Style, n: nat)
    returns (b: nat, x: Json, w: string, rest: string)
    requires Tail(j, i, st, n, e) && j.Arr? && i < |j.items| && Spaced(st) && p < |t| && Here(t, p + 1, e)
    ensures j.items[..i] + [Val(x)] == j.items[..i + 1] && x < j && Printed(x, st, n + st.step, w) && w != ""
    ensures Onward(t, p, b) && t[b] != ']' && Here(t, b, w) && NumberStops(t, b + |w|)
    ensures Here(t, b + |w|, rest) && b + |w| + |rest| == p + 1 + |e| && rest != ""
    ensures i + 1 < |j.items| ==> rest[0] == ',' && Tail(j, i + 1, st, n, rest[1..])
    ensures i + 1 == |j.items| ==> rest == st.last(n) + "]" && AllSpace(st.last(n))
  {
    x, w, rest := TailSplits(j, i, st, n, e);
    b := p + 1 + |st.gap(n)|;
    HereSplits(t, p + 1, st.gap(n), w + rest, e);
    HereSplits(t, b, w, rest, w + rest);
    ElementAt(t, p, st.gap(n), w, rest);
  }

  /** The element at `i` is read. */
  lemma {:induction false} OneElement(t: string, p: nat, j: Json, i: nat, e: string, st: Style, n: nat, run: Runner,
                                      read: Reader)
    returns (q: nat, rest: string)
    requires Runs(t, run, read)
    requires Tail(j, i, st, n, e) && j.Arr? && i < |j.items| && Spaced(st) && Faithful(read) && p < |t|
             && Here(t, p + 1, e)
    ensures q < |t| && Here(t, q + 1, rest) && q + |rest| == p + |e| && rest != ""
    ensures Moves(InArr, j.items[..i], ValBeg, p, j.items[..i + 1], ValEnd, q, run)
    ensures i + 1 < |j.items| ==> rest[0] == ',' && Tail(j, i + 1, st, n, rest[1..])
    ensures i + 1 == |j.items| ==> rest == st.last(n) + "]" && AllSpace(st.last(n))
    decreases j, |j.items| - i, 0
  {
    var b, x, w;
    b, x, w, rest := ElementLies(t, p, j, i, e, st, n);
    q := b + |w| - 1;
    ValueReads(t, b, x, w, st, n + st.step, run, read);
    Element(t, j.items[..i], p, b, q, x, run, read);
  }

  /** From the opening bracket or a comma before the element at `i` to the closing bracket. */
  lemma {:induction false} ElementsRead(t: string, p: nat, j: Json, i: nat, e: string, st: Style, n: nat, run: Runner,
                                        read: Reader)
    requires Runs(t, run, read)
    requires Tail(j, i, st, n, e) && j.Arr? && i < |j.items| && Spaced(st) && Faithful(read) && p < |t|
             && Here(t, p + 1, e)
    ensures Finishes(t, InArr, j.items[..i], ValBeg, p, p + |e|, j, run)
    decreases j, |j.items| - i, 1
  {
    var q, rest := OneElement(t, p, j, i, e, st, n, run, read);
    var items := j.items[..i + 1];
    if i + 1 < |j.items| {
      NextElement(t, InArr, q, items, rest, run, read);
      ElementsRead(t, q + 1, j, i + 1, rest[1..], st, n, run, read);
      MovesOn(t, InArr, items, ValEnd, q, items, ValBeg, q + 1, p + |e|, j, run);
    } else {
      assert items == j.items;
      LastElement(t, InArr, q, items, st.last(n), rest, run, read);
    }
    MovesOn(t, InArr, j.items[..i], ValBeg, p, items, ValEnd, q, p + |e|, j, run);
  }

  lemma {:induction false} ArrayText(j: Json, st: Style, n: nat, w: string) returns (e: string)
    requires Printed(j, st, n, w) && j.Arr?
    ensures Tail(j, 0, st, n, e) && w == "[" + e && (j.items == [] ==> e == "]") && e != ""
  {
    assert Unfolded(0);
    e := Elements(j, 0, st, n) + "]";
    assert "[" + Elements(j, 0, st, n) + "]" == "[" + e;
  }

  /** The bracket at `b` opens the container. */
  lemma {:induction false} OpenReads(t: string, b: nat, kind: Kind, e: nat, j: Json, run: Runner, read: Reader)
    requires b <= e && b < |t|
             && t[b] == (if kind.InObj? then '{' else '[') && !kind.Top? && Finishes(t, kind, [], ValBeg, b, e, j, run)
    ensures Reads(t, b, j, e, run, read)
  {
    forall c: State | Visited(c)
      ensures run(ReadValue(t, b, c, read)) == run(Push(c, e, j))
    {
      Opens(c, b, kind);
    }
  }

  lemma {:induction false} ArrayReads(t: string, b: nat, j: Json, w: string, st: Style, n: nat, run: Runner,
                                      read: Reader)
    requires Runs(t, run, read)
    requires Printed(j, st, n, w) && j.Arr? && Spaced(st) && Faithful(read) && Here(t, b, w)
    ensures w != "" && Reads(t, b, j, b + |w| - 1, run, read)
    decreases j, |j.items| + 1
  {
    var e := ArrayText(j, st, n, w);
    HereSplits(t, b, "[", e, w);
    HereStarts(t, b, "[");
    if j.items == [] {
      assert e == "" + e;
      HereOpens(t, b, "", e, e);
      Bracket(t, InArr, [], ValBeg, b, b + 1, run, read);
    } else {
      assert j.items[..0] == [];
      ElementsRead(t, b, j, 0, e, st, n, run, read);
    }
    OpenReads(t, b, InArr, b + |e|, j, run, read);
  }

  lemma {:induction false} HereStarts(t: string, b: nat, w: string)
    requires Here(t, b, w) && w != ""
    ensures b < |t| && t[b] == w[0]
  {
    assert Looked(0);
    StandsAt(t, b, w, 0);
  }

  // ---- Objects --------------------------------------------------------------------------------

  /** The text of the members of a clean object from index `i` on, with the closing bracket. */
  ghost predicate MemberTail(j: Json, i: nat, st: Style, n: nat, e: string) {
    forall k | Unfolded(k) :: Tree(j) && Clean(j) && j.Obj? && i % 2 == 0 && i <= |j.items|
      && e == Members(j, i, st, n) + "}"
  }

  lemma {:induction false} Regroup(gap: string, k: string, colon: string, w: string, rest: string, bracket: string)
    ensures gap + k + colon + w + rest + bracket == gap + (k + (colon + (w + (rest + bracket))))
  {
  }

  lemma {:induction false} MembersText(j: Json, i: nat, st: Style, n: nat, k: string, w: string, rest: string)
    requires Tree(j) && j.Obj? && i + 1 < |j.items| && i % 2 == 0 && j.items[i] == Key(k) && CleanKey(k)
    requires TreeItem(j.items[i + 1]) && w == Write(j.items[i + 1].json, st, n + st.step)
    requires rest == if i + 2 < |j.items| then "," + Members(j, i + 2, st, n) else st.last(n)
    ensures Members(j, i, st, n) + "}" == st.gap(n) + (Quoted(k) + (st.colon + (w + (rest + "}"))))
  {
    KeyIs(k);
    Regroup(st.gap(n), Quoted(k), st.colon, w, rest, "}");
  }

  lemma {:induction false} TakeTwo(items: seq<Item>, i: nat)
    requires i + 1 < |items|
    ensures items[..i] + [items[i], items[i + 1]] == items[..i + 2]
  {
  }

  /** The member at `i`, and what follows it. */
  lemma {:induction false} MembersSplit(j: Json, i: nat, st: Style, n: nat, e: string)
    returns (k: string, x: Json, w: string, rest: string)
    requires MemberTail(j, i, st, n, e) && j.Obj? && i < |j.items| && Spaced(st)
    ensures i + 1 < |j.items| && |j.items| % 2 == 0 && i % 2 == 0 && CleanKey(k)
    ensures j.items[..i] + [Key(k), Val(x)] == j.items[..i + 2] && x < j && Printed(x, st, n + st.step, w)
            && Opening(w) && Following(rest)
    ensures e == st.gap(n) + (Quoted(k) + (st.colon + (w + rest)))
    ensures AllSpace(st.gap(n)) && AllSpace(st.last(n)) && ColonOk(st.colon)
    ensures i + 2 < |j.items| ==> rest[0] == ',' && MemberTail(j, i + 2, st, n, rest[1..])
    ensures i + 2 == |j.items| ==> rest == st.last(n) + "}"
  {
    assert Unfolded(0);
    assert TreeItem(j.items[i + 1]) && CleanItem(j.items[i + 1]) && CleanItem(j.items[i]);
    TakeTwo(j.items, i);
    k := j.items[i].key;
    x := j.items[i + 1].json;
    w := Write(x, st, n + st.step);
    WriteHead(x, st, n + st.step);
    if i + 2 < |j.items| {
      var next := Members(j, i + 2, st, n);
      rest := "," + next + "}";
      assert rest[1..] == next + "}";
      MembersText(j, i, st, n, k, w, "," + next);
    } else {
      rest := st.last(n) + "}";
      AfterHead(st.last(n), "}");
      MembersText(j, i, st, n, k, w, st.last(n));
    }
  }

  /** The member at `i` in the text: its key stands at `b`, its value at `v`, and `rest` follows it. */
  lemma {:induction false} MemberLies(t: string, p: nat, j: Json, i: nat, e: string, st: Style, n: nat)
    returns (b: nat, k: string, v: nat, x: Json, w: string, rest: string)
    requires MemberTail(j, i, st, n, e) && j.Obj? && i < |j.items| && Spaced(st) && p < |t| && Here(t, p + 1, e)
    ensures i + 1 < |j.items| && |j.items| % 2 == 0 && i % 2 == 0
    ensures j.items[..i] + [Key(k), Val(x)] == j.items[..i + 2] && x < j && Printed(x, st, n + st.step, w) && w != ""
    ensures Onward(t, p, b) && t[b] != '}' && MemberStands(t, b, k, v) && Here(t, v, w) && NumberStops(t, v + |w|)
    ensures Here(t, v + |w|, rest) && v + |w| + |rest| == p + 1 + |e| && rest != ""
    ensures i + 2 < |j.items| ==> rest[0] == ',' && MemberTail(j, i + 2, st, n, rest[1..])
    ensures i + 2 == |j.items| ==> rest == st.last(n) + "}" && AllSpace(st.last(n))
  {
    k, x, w, rest := MembersSplit(j, i, st, n, e);
    b := p + 1 + |st.gap(n)|;
    v := b + |k| + 2 + |st.colon|;
    MemberPlace(t, p, st.gap(n), k, st.colon, w, rest, e);
  }

  /** The member at `i` is read. */
  lemma {:induction false} OneMember(t: string, p: nat, j: Json, i: nat, e: string, st: Style, n: nat, run: Runner,
                                     read: Reader)
    returns (q: nat, rest: string)
    requires Runs(t, run, read)
    requires MemberTail(j, i, st, n, e) && j.Obj? && i < |j.items| && Spaced(st) && Faithful(read) && p < |t|
             && Here(t, p + 1, e)
    ensures q < |t| && Here(t, q + 1, rest) && q + |rest| == p + |e| && rest != "" && i + 1 < |j.items|
            && |j.items| % 2 == 0 && i % 2 == 0
    ensures Moves(InObj, j.items[..i], ValBeg, p, j.items[..i + 2], ValEnd, q, run)
    ensures i + 2 < |j.items| ==> rest[0] == ',' && MemberTail(j, i + 2, st, n, rest[1..])
    ensures i + 2 == |j.items| ==> rest == st.last(n) + "}" && AllSpace(st.last(n))
    decreases j, |j.items| - i, 0
  {
    var b, k, v, x, w;
    b, k, v, x, w, rest := MemberLies(t, p, j, i, e, st, n);
    q := v + |w| - 1;
    ValueReads(t, v, x, w, st, n + st.step, run, read);
    Member(t, j.items[..i], p, b, k, v, q, x, run, read);
  }

  /** From the opening bracket or a comma before the member at `i` to the closing bracket. */
  lemma {:induction false} MembersRead(t: string, p: nat, j: Json, i: nat, e: string, st: Style, n: nat, run: Runner,
                                       read: Reader)
    requires Runs(t, run, read)
    requires MemberTail(j, i, st, n, e) && j.Obj? && i < |j.items| && Spaced(st) && Faithful(read) && p < |t|
             && Here(t, p + 1, e)
    ensures Finishes(t, InObj, j.items[..i], ValBeg, p, p + |e|, j, run)
    decreases j, |j.items| - i, 1
  {
    var q, rest := OneMember(t, p, j, i, e, st, n, run, read);
    var items := j.items[..i + 2];
    if i + 2 < |j.items| {
      NextElement(t, InObj, q, items, rest, run, read);
      MembersRead(t, q + 1, j, i + 2, rest[1..], st, n, run, read);
      MovesOn(t, InObj, items, ValEnd, q, items, ValBeg, q + 1, p + |e|, j, run);
    } else {
      assert items == j.items;
      LastElement(t, InObj, q, items, st.last(n), rest, run, read);
    }
    MovesOn(t, InObj, j.items[..i], ValBeg, p, items, ValEnd, q, p + |e|, j, run);
  }

  lemma {:induction false} ObjectText(j: Json, st: Style, n: nat, w: string) returns (e: string)
    requires Printed(j, st, n, w) && j.Obj?
    ensures MemberTail(j, 0, st, n, e) && w == "{" + e && (j.items == [] ==> e == "}") && e != ""
  {
    assert Unfolded(0);
    e := Members(j, 0, st, n) + "}";
    assert "{" + Members(j, 0, st, n) + "}" == "{" + e;
  }

  lemma {:induction false} ObjectReads(t: string, b: nat, j: Json, w: string, st: Style, n: nat, run: Runner,
                                       read: Reader)
    requires Runs(t, run, read)
    requires Printed(j, st, n, w) && j.Obj? && Spaced(st) && Faithful(read) && Here(t, b, w)
    ensures w != "" && Reads(t, b, j, b + |w| - 1, run, read)
    decreases j, |j.items| + 1
  {
    var e := ObjectText(j, st, n, w);
    HereSplits(t, b, "{", e, w);
    HereStarts(t, b, "{");
    if j.items == [] {
      assert e == "" + e;
      HereOpens(t, b, "", e, e);
      Bracket(t, InObj, [], ValBeg, b, b + 1, run, read);
    } else {
      assert j.items[..0] == [];
      MembersRead(t, b, j, 0, e, st, n, run, read);
    }
    OpenReads(t, b, InObj, b + |e|, j, run, read);
  }

  // ---- Values ---------------------------------------------------------------------------------

  lemma {:induction false} ScalarReads(t: string, b: nat, j: Json, w: string, st: Style, n: nat, run: Runner,
                                       read: Reader)
    requires Printed(j, st, n, w) && !j.Arr? && !j.Obj? && Faithful(read) && Here(t, b, w) && NumberStops(t, b + |w|)
    ensures w != "" && Reads(t, b, j, b + |w| - 1, run, read)
  {
    assert Unfolded(0) && Looked(0);
    ScalarHead(j, st);
    StandsAt(t, b, w, 0);
    assert ScalarStands(t, b, j, st);
  }

  /** A printed value is read wherever it stands. */
  lemma {:induction false} ValueReads(t: string, b: nat, j: Json, w: string, st: Style, n: nat, run: Runner,
                                      read: Reader)
    requires Runs(t, run, read)
    requires Printed(j, st, n, w) && Spaced(st) && Faithful(read) && Here(t, b, w) && NumberStops(t, b + |w|)
    ensures w != "" && Reads(t, b, j, b + |w| - 1, run, read)
    decreases j
  {
    if j.Arr? {
      ArrayReads(t, b, j, w, st, n, run, read);
    } else if j.Obj? {
      ObjectReads(t, b, j, w, st, n, run, read);
    } else {
      ScalarReads(t, b, j, w, st, n, run, read);
    }
  }
}
