/**
 Parser::parse: a machine of labels over two explicit stacks. `s` holds the containers being read
 and the keys and values read so far; `u` holds, for each open container, where the children of the
 enclosing one begin in `s` and what kind it is.
 */
module JsonParser {
  import opened DbFormat
  import opened Guard
  import opened JsonText
  import opened JsonTree

  /** A reader of scalars; the position is that of the last character. */
  type Reader = f: (string, nat) -> Option<(Json, nat)> |
    forall t, b: nat | f(t, b).Some? :: b <= f(t, b).value.1 < |t| && Tree(f(t, b).value.0)
    witness (t, b) => None

  datatype Kind = Top | InObj | InArr

  function Empty(kind: Kind): Json { if kind.InObj? then Obj([]) else Arr([]) }

  datatype Frame = Frame(size: nat, kind: Kind)

  /** The labels; `kind` in the state tells the object ones from the array ones. */
  datatype Label = ValBeg | ValEnd | Close | End(val: Json) | Fail

  datatype State = State(at: Label, b: nat, s: seq<Item>, u: seq<Frame>, size: nat, kind: Kind)

  /** `Stuck` is a pop from an empty stack or a read past the end. */
  datatype Outcome = Stuck | Outcome(ok: bool, val: Option<Json>, s: seq<Item>, u: seq<Frame>)

  // ---- The labels -----------------------------------------------------------------------------

  function Open(st: State, b: nat, kind: Kind): State {
    State(ValBeg, b, st.s + [Val(Empty(kind))], st.u + [Frame(st.size, st.kind)], |st.s| + 1, kind)
  }

  /** A value is complete; its last character is at `p`. */
  function Push(st: State, p: nat, j: Json): State {
    if st.kind.Top? then st.(at := End(j), b := p) else st.(at := ValEnd, b := p, s := st.s + [Val(j)])
  }

  function ReadValue(t: string, b: nat, st: State, read: Reader): State
    requires b < |t|
  {
    if t[b] == '{' then Open(st, b, InObj)
    else if t[b] == '[' then Open(st, b, InArr)
    else
      var r := read(t, b);
      if r.None? then st.(at := Fail) else Push(st, r.value.1, r.value.0)
  }

  /** Parser::parse_key: a quoted key without escapes; the position is that of the closing quote. */
  function ParseKey(t: string, b: nat): (r: Option<(string, nat)>)
    requires b < |t|
    ensures r.Some? ==> b < r.value.1 < |t|
  {
    var p := if t[b] == '"' then Find(t, b + 1, |t|, '"') else None;
    if p.None? then None else Some((t[b + 1..p.value], p.value))
  }

  /** Where the value begins after a key that ends at `p`, if there is a colon and a value. */
  function AfterColon(t: string, p: nat): (r: Option<nat>)
    requires p < |t|
    ensures r.Some? ==> p < r.value < |t|
  {
    var c := Skip(t, p + 1);
    if c == |t| || t[c] != ':' then None
    else
      var v := Skip(t, c + 1);
      if v == |t| then None else Some(v)
  }

  function Member(t: string, b: nat, st: State, read: Reader): State
    requires b < |t|
  {
    var k := ParseKey(t, b);
    if k.None? then st.(at := Fail)
    else
      var c := st.(s := st.s + [Key(k.value.0)]);
      var v := AfterColon(t, k.value.1);
      if v.None? then c.(at := Fail) else ReadValue(t, v.value, c, read)
  }

  function Closing(kind: Kind): char { if kind.InObj? then '}' else ']' }

  function AtValBeg(t: string, st: State, read: Reader): State
    requires st.b < |t|
  {
    var b := Skip(t, st.b + 1);
    if b == |t| then st.(at := Fail)
    else if t[b] == Closing(st.kind) then st.(at := Close, b := b)
    else if st.kind.InObj? then Member(t, b, st, read)
    else ReadValue(t, b, st, read)
  }

  function AtValEnd(t: string, st: State): State
    requires st.b < |t|
  {
    var b := Skip(t, st.b + 1);
    if b == |t| then st.(at := Fail)
    else if t[b] == ',' then st.(at := ValBeg, b := b)
    else if t[b] == Closing(st.kind) then st.(at := Close, b := b)
    else st.(at := Fail)
  }

  /** There is a container to close and a frame to return to. */
  predicate CanClose(s: seq<Item>, u: seq<Frame>, size: nat) {
    u != [] && 0 < size <= |s| && s[size - 1].Val? && (s[size - 1].json.Arr? || s[size - 1].json.Obj?)
  }

  /** The items above the container become its children. */
  function Collect(s: seq<Item>, size: nat): (r: seq<Item>)
    requires 0 < size <= |s| && s[size - 1].Val? && (s[size - 1].json.Arr? || s[size - 1].json.Obj?)
    ensures |r| == size && r[..size - 1] == s[..size - 1] && r[size - 1].Val?
  {
    if |s| > size then s[..size - 1] + [Val(s[size - 1].json.(items := s[size..]))] else s
  }

  function AtClose(st: State): State
    requires CanClose(st.s, st.u, st.size)
  {
    var s := Collect(st.s, st.size);
    var f := st.u[|st.u| - 1];
    var u := st.u[..|st.u| - 1];
    if !f.kind.Top? then State(ValEnd, st.b, s, u, f.size, f.kind)
    else State(End(s[|s| - 1].json), st.b, s[..|s| - 1], u, f.size, f.kind)
  }

  /** A key without a value gets a null. */
  function Padded(s: seq<Item>, size: nat, kind: Kind): seq<Item> {
    if kind.InObj? && |s| > size && (|s| - size) % 2 == 1 then s + [Val(Null)] else s
  }

  /** The error exit: every open container is closed as it is, so that the tree can be released. */
  function CleanUp(s: seq<Item>, u: seq<Frame>, size: nat, kind: Kind): Outcome
    decreases |u|
  {
    if s == [] then Outcome(false, None, s, u)
    else
      var p := Padded(s, size, kind);
      if !CanClose(p, u, size) then Stuck
      else
        var c := Collect(p, size);
        var f := u[|u| - 1];
        if !f.kind.Top? then CleanUp(c, u[..|u| - 1], f.size, f.kind)
        else Outcome(false, Some(c[|c| - 1].json), c[..|c| - 1], u[..|u| - 1])
  }

  predicate Able(t: string, st: State) {
    st.b < |t| && (st.at.Close? ==> CanClose(st.s, st.u, st.size))
  }

  function Step(t: string, st: State, read: Reader): (r: State)
    requires Able(t, st)
    ensures (st.at.ValBeg? || st.at.ValEnd?) && !r.at.Fail? ==> st.b < r.b < |t|
    ensures st.at.Close? ==> r.b == st.b && (r.at.ValEnd? || r.at.End?)
  {
    match st.at
    case ValBeg => AtValBeg(t, st, read)
    case ValEnd => AtValEnd(t, st)
    case Close => AtClose(st)
    case _ => st
  }

  function Run(t: string, st: State, read: Reader): Outcome
    decreases |t| - st.b, if st.at.Fail? then 0 else if st.at.Close? then 2 else 1
  {
    if st.at.Fail? then CleanUp(st.s, st.u, st.size, st.kind)
    else if !Able(t, st) then Stuck
    else if st.at.End? then Outcome(Skip(t, st.b + 1) == |t|, Some(st.at.val), st.s, st.u)
    else Run(t, Step(t, st, read), read)
  }

  const START: State := State(ValBeg, 0, [], [], 0, Top)

  function Parsed(t: string, read: Reader): Outcome {
    var b := Skip(t, 0);
    if b == |t| then Outcome(false, None, [], []) else Run(t, ReadValue(t, b, START, read), read)
  }

  // ---- The discipline of the stacks -----------------------------------------------------------

  /** The children read so far, when a value is due. */
  predicate Waiting(kind: Kind, items: seq<Item>) {
    match kind
    case Top => items == []
    case InObj => Alternates(items) && |items| % 2 == 1
    case InArr => Values(items)
  }

  /** The children read so far, between values. */
  predicate Ready(kind: Kind, items: seq<Item>) {
    match kind
    case Top => false
    case InObj => Alternates(items) && |items| % 2 == 0
    case InArr => Values(items)
  }

  /** The children read so far, at an error. */
  predicate Broken(kind: Kind, items: seq<Item>) { Ready(kind, items) || Waiting(kind, items) }

  /** The stacks below the children of the innermost container. */
  predicate Nested(s: seq<Item>, u: seq<Frame>, size: nat, kind: Kind)
    decreases |u|
  {
    size <= |s| &&
    if kind.Top? then u == [] && size == 0
    else
      u != [] && size > 0 && s[size - 1] == Val(Empty(kind)) &&
      var f := u[|u| - 1];
      f.size <= size - 1 && Waiting(f.kind, s[f.size..size - 1]) && Nested(s[..size - 1], u[..|u| - 1], f.size, f.kind)
  }

  predicate AllTrees(s: seq<Item>) { forall i | 0 <= i < |s| :: TreeItem(s[i]) }

  /** The stacks are in order. */
  ghost predicate Sound(s: seq<Item>, u: seq<Frame>, size: nat, kind: Kind) {
    size <= |s| && forall n | Unfolded(n) :: AllTrees(s) && Nested(s, u, size, kind)
  }

  /** Both stacks are empty and what is returned, or left for release, is a tree. */
  predicate Settled(r: Outcome) {
    r.Outcome? && r.s == [] && r.u == [] && (r.val.Some? ==> Tree(r.val.value)) && (r.ok ==> r.val.Some?)
  }

  ghost predicate Valid(t: string, st: State) {
    Sound(st.s, st.u, st.size, st.kind) && (!st.at.Fail? ==> st.b < |t|) &&
    match st.at
    case End(v) => st.s == [] && st.u == [] && Tree(v)
    case Fail => Broken(st.kind, st.s[st.size..])
    case _ => Ready(st.kind, st.s[st.size..])
  }

  /** Pushes above the children's base leave what is below in order. */
  lemma {:induction false} NestedPush(s: seq<Item>, u: seq<Frame>, size: nat, kind: Kind, x: seq<Item>)
    requires Nested(s, u, size, kind)
    ensures Nested(s + x, u, size, kind)
  {
    var r := s + x;
    if !kind.Top? {
      var f := u[|u| - 1];
      assert r[f.size..size - 1] == s[f.size..size - 1] && r[..size - 1] == s[..size - 1];
    }
  }

  lemma {:induction false} NestedOpen(s: seq<Item>, u: seq<Frame>, size: nat, kind: Kind, inner: Kind)
    requires Nested(s, u, size, kind) && Waiting(kind, s[size..]) && !inner.Top?
    ensures Nested(s + [Val(Empty(inner))], u + [Frame(size, kind)], |s| + 1, inner)
  {
    var r := s + [Val(Empty(inner))];
    var v := u + [Frame(size, kind)];
    assert r[..|s|] == s && v[..|u|] == u && r[size..|s|] == s[size..];
  }

  lemma {:induction false} TreesPush(s: seq<Item>, x: Item)
    requires AllTrees(s) && TreeItem(x)
    ensures AllTrees(s + [x])
  {
    var r := s + [x];
    forall i | 0 <= i < |r| ensures TreeItem(r[i]) {
      assert i < |s| ==> r[i] == s[i];
    }
  }

  lemma {:induction false} SoundOpen(s: seq<Item>, u: seq<Frame>, size: nat, kind: Kind, inner: Kind)
    requires Sound(s, u, size, kind) && Waiting(kind, s[size..]) && !inner.Top?
    ensures Sound(s + [Val(Empty(inner))], u + [Frame(size, kind)], |s| + 1, inner)
  {
    assert Unfolded(0);
    NestedOpen(s, u, size, kind, inner);
    TreesPush(s, Val(Empty(inner)));
  }

  lemma {:induction false} SoundPush(s: seq<Item>, u: seq<Frame>, size: nat, kind: Kind, x: Item)
    requires Sound(s, u, size, kind) && TreeItem(x)
    ensures Sound(s + [x], u, size, kind) && (s + [x])[size..] == s[size..] + [x]
  {
    assert Unfolded(0);
    NestedPush(s, u, size, kind, [x]);
    TreesPush(s, x);
  }

  lemma {:induction false} OpenValid(t: string, st: State, b: nat, kind: Kind)
    requires Sound(st.s, st.u, st.size, st.kind) && Waiting(st.kind, st.s[st.size..]) && b < |t| && !kind.Top?
    ensures Valid(t, Open(st, b, kind))
  {
    SoundOpen(st.s, st.u, st.size, st.kind, kind);
    var r := Open(st, b, kind);
    assert r.s[r.size..] == [];
  }

  lemma {:induction false} SoundTop(s: seq<Item>, u: seq<Frame>, size: nat)
    requires Sound(s, u, size, Top) && Waiting(Top, s[size..])
    ensures s == [] && u == [] && size == 0
  {
    assert Unfolded(0);
  }

  lemma {:induction false} PushValid(t: string, st: State, p: nat, j: Json)
    requires Sound(st.s, st.u, st.size, st.kind) && Waiting(st.kind, st.s[st.size..]) && p < |t| && Tree(j)
    ensures Valid(t, Push(st, p, j))
  {
    if st.kind.Top? {
      SoundTop(st.s, st.u, st.size);
    } else {
      SoundPush(st.s, st.u, st.size, st.kind, Val(j));
      WaitingPush(st.kind, st.s[st.size..], Val(j));
    }
  }

  lemma {:induction false} ReadValueValid(t: string, b: nat, st: State, read: Reader)
    requires Sound(st.s, st.u, st.size, st.kind) && Waiting(st.kind, st.s[st.size..]) && b < |t|
    ensures Valid(t, ReadValue(t, b, st, read))
  {
    var r := read(t, b);
    if t[b] == '{' {
      OpenValid(t, st, b, InObj);
    } else if t[b] == '[' {
      OpenValid(t, st, b, InArr);
    } else if r.Some? {
      PushValid(t, st, r.value.1, r.value.0);
    }
  }

  lemma {:induction false} KeyValid(st: State, k: string)
    requires Sound(st.s, st.u, st.size, st.kind) && st.kind.InObj? && Ready(st.kind, st.s[st.size..])
    ensures var s := st.s + [Key(k)]; Sound(s, st.u, st.size, st.kind) && Waiting(st.kind, s[st.size..])
  {
    SoundPush(st.s, st.u, st.size, st.kind, Key(k));
  }

  lemma {:induction false} MemberValid(t: string, b: nat, st: State, read: Reader)
    requires Sound(st.s, st.u, st.size, st.kind) && st.kind.InObj? && Ready(st.kind, st.s[st.size..]) && b < |t|
    ensures Valid(t, Member(t, b, st, read))
  {
    var k := ParseKey(t, b);
    if k.Some? {
      KeyValid(st, k.value.0);
      var v := AfterColon(t, k.value.1);
      if v.Some? {
        ReadValueValid(t, v.value, st.(s := st.s + [Key(k.value.0)]), read);
      }
    }
  }

  lemma {:induction false} ChildrenAreTrees(s: seq<Item>, size: nat)
    requires AllTrees(s) && size <= |s|
    ensures forall i | 0 <= i < |s| - size :: TreeItem(s[size..][i])
  {
    forall i | 0 <= i < |s| - size ensures TreeItem(s[size..][i]) {
      assert TreeItem(s[size + i]);
    }
  }

  lemma {:induction false} CollectTree(s: seq<Item>, size: nat, kind: Kind)
    requires 0 < size <= |s| && s[size - 1] == Val(Empty(kind)) && AllTrees(s) && Ready(kind, s[size..])
    ensures Tree(Collect(s, size)[size - 1].json)
  {
    ChildrenAreTrees(s, size);
  }

  lemma {:induction false} CollectTrees(s: seq<Item>, size: nat, kind: Kind)
    requires 0 < size <= |s| && s[size - 1] == Val(Empty(kind)) && AllTrees(s) && Ready(kind, s[size..])
    ensures AllTrees(Collect(s, size))
  {
    var c := Collect(s, size);
    CollectTree(s, size, kind);
    forall i | 0 <= i < |c| ensures TreeItem(c[i]) {
      if i < size - 1 {
        assert c[..size - 1][i] == s[..size - 1][i];
      }
    }
  }

  lemma {:induction false} WaitingPush(kind: Kind, items: seq<Item>, x: Item)
    requires Waiting(kind, items) && x.Val? && !kind.Top?
    ensures Ready(kind, items + [x])
  {
  }

  /** A container closed with well-formed children is a tree, and takes its own place as a value. */
  lemma {:induction false} CollectValid(s: seq<Item>, u: seq<Frame>, size: nat, kind: Kind, c: seq<Item>, f: Frame)
    requires Sound(s, u, size, kind) && Ready(kind, s[size..])
    requires CanClose(s, u, size) && f == u[|u| - 1] && c == Collect(s, size)
    ensures Sound(c, u[..|u| - 1], f.size, f.kind)
    ensures f.kind.Top? ==> |c| == 1 && |u| == 1
    ensures !f.kind.Top? ==> Ready(f.kind, c[f.size..])
  {
    assert Unfolded(0);
    CollectTrees(s, size, kind);
    assert c == s[..size - 1] + [c[size - 1]];
    NestedPush(s[..size - 1], u[..|u| - 1], f.size, f.kind, [c[size - 1]]);
    if !f.kind.Top? {
      WaitingPush(f.kind, s[f.size..size - 1], c[size - 1]);
      assert c[f.size..] == s[f.size..size - 1] + [c[size - 1]];
    }
  }

  lemma {:induction false} SoundCloses(s: seq<Item>, u: seq<Frame>, size: nat, kind: Kind)
    requires Sound(s, u, size, kind) && !kind.Top?
    ensures CanClose(s, u, size)
  {
    assert Unfolded(0);
  }

  lemma {:induction false} CloseValid(t: string, st: State)
    requires Valid(t, st) && st.at.Close?
    ensures CanClose(st.s, st.u, st.size) && Valid(t, AtClose(st))
  {
    SoundCloses(st.s, st.u, st.size, st.kind);
    var c := Collect(st.s, st.size);
    var f := st.u[|st.u| - 1];
    CollectValid(st.s, st.u, st.size, st.kind, c, f);
    if f.kind.Top? {
      TopCloses(c, st.u[..|st.u| - 1], f.size);
    }
  }

  /** The outermost container leaves empty stacks. */
  lemma {:induction false} TopCloses(c: seq<Item>, u: seq<Frame>, size: nat)
    requires Sound(c, u, size, Top) && |c| == 1 && u == []
    ensures TreeItem(c[0]) && c[..0] == [] && Sound([], [], size, Top)
  {
    assert Unfolded(0);
  }

  /** Where a value or member begins. */
  lemma {:induction false} BeginValid(t: string, b: nat, st: State, read: Reader, r: State)
    requires Sound(st.s, st.u, st.size, st.kind) && Ready(st.kind, st.s[st.size..]) && b < |t|
    requires r == if st.kind.InObj? then Member(t, b, st, read) else ReadValue(t, b, st, read)
    ensures Valid(t, r)
  {
    if st.kind.InObj? {
      MemberValid(t, b, st, read);
    } else {
      ReadValueValid(t, b, st, read);
    }
  }

  lemma {:induction false} ValBegValid(t: string, st: State, read: Reader)
    requires Valid(t, st) && st.at.ValBeg?
    ensures Valid(t, AtValBeg(t, st, read))
  {
    var b := Skip(t, st.b + 1);
    if b < |t| && t[b] != Closing(st.kind) {
      BeginValid(t, b, st, read, AtValBeg(t, st, read));
    }
  }

  lemma {:induction false} ValEndValid(t: string, st: State)
    requires Valid(t, st) && st.at.ValEnd?
    ensures Valid(t, AtValEnd(t, st))
  {
  }

  /** Every step keeps the discipline, so no step can be stuck. */
  lemma {:induction false} StepValid(t: string, st: State, read: Reader)
    requires Valid(t, st) && !st.at.Fail? && !st.at.End?
    ensures Able(t, st) && Valid(t, Step(t, st, read))
  {
    match st.at
    case ValBeg => ValBegValid(t, st, read);
    case ValEnd => ValEndValid(t, st);
    case Close => CloseValid(t, st);
  }

  lemma {:induction false} PadValid(s: seq<Item>, u: seq<Frame>, size: nat, kind: Kind)
    requires Sound(s, u, size, kind) && Broken(kind, s[size..]) && s != []
    ensures var p := Padded(s, size, kind); p != [] && Sound(p, u, size, kind) && Ready(kind, p[size..])
  {
    var p := Padded(s, size, kind);
    if p != s {
      SoundPush(s, u, size, kind, Val(Null));
    } else if kind.Top? {
      SoundTop(s, u, size);
    }
  }

  /** One container more is closed. */
  lemma {:induction false} CleanUpStep(s: seq<Item>, u: seq<Frame>, size: nat, kind: Kind)
    returns (c: seq<Item>, f: Frame)
    requires Sound(s, u, size, kind) && Broken(kind, s[size..]) && s != []
    ensures CanClose(Padded(s, size, kind), u, size) && c == Collect(Padded(s, size, kind), size) && f == u[|u| - 1]
    ensures f.kind.Top? ==>
              |c| == 1 && |u| == 1 && Tree(c[0].json)
                && CleanUp(s, u, size, kind) == Outcome(false, Some(c[0].json), [], [])
    ensures !f.kind.Top? ==>
              CleanUp(s, u, size, kind) == CleanUp(c, u[..|u| - 1], f.size, f.kind) &&
              Sound(c, u[..|u| - 1], f.size, f.kind) && Broken(f.kind, c[f.size..])
  {
    PadValid(s, u, size, kind);
    var p := Padded(s, size, kind);
    SoundCloses(p, u, size, kind);
    c := Collect(p, size);
    f := u[|u| - 1];
    CollectValid(p, u, size, kind, c, f);
    if f.kind.Top? {
      TopCloses(c, u[..|u| - 1], f.size);
    }
  }

  /** The error exit empties both stacks, and what it leaves for release is a tree. */
  lemma {:induction false} CleanUpEmpties(s: seq<Item>, u: seq<Frame>, size: nat, kind: Kind)
    requires Sound(s, u, size, kind) && Broken(kind, s[size..])
    ensures Settled(CleanUp(s, u, size, kind)) && !CleanUp(s, u, size, kind).ok
    decreases |u|
  {
    if s == [] {
      assert Unfolded(0);
    } else {
      var c, f := CleanUpStep(s, u, size, kind);
      if !f.kind.Top? {
        CleanUpEmpties(c, u[..|u| - 1], f.size, f.kind);
      }
    }
  }

  lemma {:induction false} RunStep(t: string, st: State, read: Reader)
    requires Able(t, st) && !st.at.Fail? && !st.at.End?
    ensures Run(t, st, read) == Run(t, Step(t, st, read), read)
  {
  }

  lemma {:induction false} EndSettles(t: string, st: State, read: Reader)
    requires Valid(t, st) && st.at.End?
    ensures Settled(Run(t, st, read))
  {
  }

  lemma {:induction false} RunEmpties(t: string, st: State, read: Reader)
    requires Valid(t, st)
    ensures Settled(Run(t, st, read))
    decreases |t| - st.b, Rank(st.at)
  {
    if st.at.Fail? {
      CleanUpEmpties(st.s, st.u, st.size, st.kind);
    } else if st.at.End? {
      EndSettles(t, st, read);
    } else {
      StepValid(t, st, read);
      var next := Step(t, st, read);
      RunEmpties(t, next, read);
      RunStep(t, st, read);
    }
  }

  /** On every text the parser ends, with both stacks empty, and what it returns is a tree. */
  lemma {:induction false} ParseEmpties(t: string, read: Reader)
    ensures Settled(Parsed(t, read))
  {
    var b := Skip(t, 0);
    if b < |t| {
      ReadValueValid(t, b, START, read);
      RunEmpties(t, ReadValue(t, b, START, read), read);
    }
  }

  // ---- The parser -----------------------------------------------------------------------------

  function Rank(at: Label): nat { if at.Fail? then 0 else if at.Close? then 2 else 1 }

  /** From `st` the machine comes to `goal`. */
  ghost predicate Ends(t: string, st: State, read: Reader, goal: Outcome) {
    forall n | Unfolded(n) :: Run(t, st, read) == goal
  }

  lemma {:induction false} EndsStep(t: string, st: State, read: Reader, goal: Outcome)
    requires Valid(t, st) && !st.at.Fail? && !st.at.End? && Ends(t, st, read, goal)
    ensures Able(t, st)
    ensures var r := Step(t, st, read);
            Valid(t, r) && Ends(t, r, read, goal)
              && (|t| - r.b < |t| - st.b || (r.b == st.b && Rank(r.at) < Rank(st.at)))
  {
    StepValid(t, st, read);
    RunStep(t, st, read);
  }

  /** The two stacks that the source keeps between calls. */
  class Parser {
    var stack: seq<Item>
    var ustack: seq<Frame>

    constructor ()
      ensures stack == [] && ustack == []
    {
      stack, ustack := [], [];
    }

    ghost function At(at: Label, b: nat, size: nat, kind: Kind): State
      reads this
    {
      State(at, b, stack, ustack, size, kind)
    }

    /** The switch on the first character of a value, at `v`. */
    method Value(t: string, v: nat, b: nat, size: nat, kind: Kind, read: Reader)
      returns (at': Label, b': nat, size': nat, kind': Kind)
      requires v < |t|
      modifies this
      ensures At(at', b', size', kind') == ReadValue(t, v, old(At(ValBeg, b, size, kind)), read)
    {
      at', b', size', kind' := ValBeg, b, size, kind;
      if t[v] == '{' || t[v] == '[' {
        ustack := ustack + [Frame(size, kind)];
        kind' := if t[v] == '{' then InObj else InArr;
        stack := stack + [Val(Empty(kind'))];
        b', size' := v, |stack|;
      } else {
        var r := read(t, v);
        if r.None? {
          at' := Fail;
        } else if kind.Top? {
          at', b' := End(r.value.0), r.value.1;
        } else {
          stack := stack + [Val(r.value.0)];
          at', b' := ValEnd, r.value.1;
        }
      }
    }

    method ValueBegins(t: string, b: nat, size: nat, kind: Kind, read: Reader)
      returns (at': Label, b': nat, size': nat, kind': Kind)
      requires b < |t|
      modifies this
      ensures At(at', b', size', kind') == AtValBeg(t, old(At(ValBeg, b, size, kind)), read)
    {
      at', b', size', kind' := Fail, b, size, kind;
      var p := Skip(t, b + 1);
      if p == |t| {
        return;
      }
      if t[p] == Closing(kind) {
        at', b' := Close, p;
        return;
      }
      if kind.InObj? {
        var k := ParseKey(t, p);
        if k.None? {
          return;
        }
        stack := stack + [Key(k.value.0)];
        var v := AfterColon(t, k.value.1);
        if v.None? {
          return;
        }
        p := v.value;
      }
      at', b', size', kind' := Value(t, p, b, size, kind, read);
    }

    method ContainerCloses(b: nat, size: nat, kind: Kind) returns (at': Label, size': nat, kind': Kind)
      requires CanClose(stack, ustack, size)
      modifies this
      ensures At(at', b, size', kind') == AtClose(old(At(Close, b, size, kind)))
    {
      stack := Collect(stack, size);
      var f := ustack[|ustack| - 1];
      ustack := ustack[..|ustack| - 1];
      size', kind' := f.size, f.kind;
      if f.kind.Top? {
        at' := End(stack[|stack| - 1].json);
        stack := stack[..|stack| - 1];
      } else {
        at' := ValEnd;
      }
    }

    /** One container more is closed at the error exit. */
    method CloseOne(size: nat, kind: Kind) returns (val: Option<Json>, size': nat, kind': Kind)
      requires Sound(stack, ustack, size, kind) && Broken(kind, stack[size..]) && stack != []
      modifies this
      ensures |ustack| < |old(ustack)|
      ensures kind'.Top? ==>
                stack == [] && ustack == []
                  && CleanUp(old(stack), old(ustack), size, kind) == Outcome(false, val, [], [])
      ensures !kind'.Top? ==>
                CleanUp(old(stack), old(ustack), size, kind) == CleanUp(stack, ustack, size', kind') &&
                Sound(stack, ustack, size', kind') && Broken(kind', stack[size'..])
    {
      ghost var c, g := CleanUpStep(stack, ustack, size, kind);
      var closed := Collect(Padded(stack, size, kind), size);
      var f := ustack[|ustack| - 1];
      assert closed == c && f == g;
      val, size', kind' := None, f.size, f.kind;
      ustack := ustack[..|ustack| - 1];
      if f.kind.Top? {
        val := Some(closed[|closed| - 1].json);
        stack := closed[..|closed| - 1];
      } else {
        stack := closed;
      }
    }

    /** The error exit. */
    method Fails(size: nat, kind: Kind) returns (val: Option<Json>)
      requires Sound(stack, ustack, size, kind) && Broken(kind, stack[size..])
      modifies this
      ensures CleanUp(old(stack), old(ustack), size, kind) == Outcome(false, val, stack, ustack)
    {
      var n, k := size, kind;
      while stack != []
        invariant Sound(stack, ustack, n, k) && Broken(k, stack[n..])
        invariant CleanUp(stack, ustack, n, k) == CleanUp(old(stack), old(ustack), size, kind)
        decreases |ustack|
      {
        val, n, k := CloseOne(n, k);
        if k.Top? {
          return;
        }
      }
      val := None;
    }

    method ValueEnds(t: string, b: nat, kind: Kind) returns (at': Label, b': nat)
      requires b < |t|
      ensures forall size :: At(at', b', size, kind) == AtValEnd(t, At(ValEnd, b, size, kind))
    {
      at', b' := Fail, b;
      var p := Skip(t, b + 1);
      if p < |t| {
        if t[p] == ',' {
          at', b' := ValBeg, p;
        } else if t[p] == Closing(kind) {
          at', b' := Close, p;
        }
      }
    }

    /** From one label to the next. */
    method Goto(t: string, at: Label, b: nat, size: nat, kind: Kind, read: Reader)
      returns (at': Label, b': nat, size': nat, kind': Kind)
      requires Able(t, At(at, b, size, kind)) && (at.ValBeg? || at.ValEnd? || at.Close?)
      modifies this
      ensures At(at', b', size', kind') == Step(t, old(At(at, b, size, kind)), read)
    {
      match at
      case ValBeg =>
        at', b', size', kind' := ValueBegins(t, b, size, kind, read);
      case ValEnd =>
        size', kind' := size, kind;
        at', b' := ValueEnds(t, b, kind);
      case Close =>
        b' := b;
        at', size', kind' := ContainerCloses(b, size, kind);
    }

    /** Parser::parse. */
    method Parse(t: string, read: Reader) returns (ok: bool, val: Option<Json>)
      requires stack == [] && ustack == []
      modifies this
      ensures stack == [] && ustack == [] && Parsed(t, read) == Outcome(ok, val, [], [])
    {
      ParseEmpties(t, read);
      var b := Skip(t, 0);
      if b == |t| {
        return false, None;
      }
      ReadValueValid(t, b, START, read);
      var at, size, kind;
      at, b, size, kind := Value(t, b, 0, 0, Top, read);
      assert Ends(t, At(at, b, size, kind), read, Parsed(t, read));
      while !at.Fail? && !at.End?
        invariant Valid(t, At(at, b, size, kind)) && Ends(t, At(at, b, size, kind), read, Parsed(t, read))
        decreases |t| - b, Rank(at)
      {
        EndsStep(t, At(at, b, size, kind), read, Parsed(t, read));
        at, b, size, kind := Goto(t, at, b, size, kind, read);
      }
      assert Unfolded(0);
      if at.Fail? {
        val := Fails(size, kind);
        ok := false;
      } else {
        ok, val := Skip(t, b + 1) == |t|, Some(at.val);
      }
    }
  }
}
