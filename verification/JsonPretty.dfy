/**
 The indented print, line by line: brackets on lines of their own, the lines of each element moved
 right by the indentation, commas at the ends of elements.
 */
module JsonPretty {
  import opened DbFormat
  import opened JsonText
  import opened JsonNumber
  import opened JsonTree

  function Joined(ls: seq<string>, sep: string): string {
    if ls == [] then "" else if |ls| == 1 then ls[0] else ls[0] + sep + Joined(ls[1..], sep)
  }

  /** Every line moved right. */
  function Shifted(ls: seq<string>, k: nat): (r: seq<string>)
    ensures |r| == |ls|
  {
    seq(|ls|, i requires 0 <= i < |ls| => Blanks(k) + ls[i])
  }

  /** The first line begins with `s`. */
  function Headed(s: string, ls: seq<string>): seq<string>
    requires ls != []
  {
    [s + ls[0]] + ls[1..]
  }

  /** The last line ends with `s`. */
  function Tailed(ls: seq<string>, s: string): seq<string>
    requires ls != []
  {
    ls[..|ls| - 1] + [ls[|ls| - 1] + s]
  }

  lemma {:induction false} JoinedFront(x: string, ls: seq<string>, sep: string)
    requires ls != []
    ensures Joined([x] + ls, sep) == x + sep + Joined(ls, sep)
  {
    assert ([x] + ls)[1..] == ls;
  }

  lemma {:induction false} Rejoin(x: string, sep: string, y: string, z: string)
    ensures x + sep + (y + sep + z) == (x + sep + y) + sep + z
  {
  }

  lemma {:induction false} JoinedConcat(a: seq<string>, b: seq<string>, sep: string)
    requires a != [] && b != []
    ensures Joined(a + b, sep) == Joined(a, sep) + sep + Joined(b, sep)
  {
    var x, rest := a[0], a[1..];
    if rest == [] {
      assert a + b == [x] + b;
      JoinedFront(x, b, sep);
    } else {
      JoinedConcat(rest, b, sep);
      assert a + b == [x] + (rest + b) && a == [x] + rest;
      JoinedFront(x, rest + b, sep);
      JoinedFront(x, rest, sep);
      Rejoin(x, sep, Joined(rest, sep), Joined(b, sep));
    }
  }

  lemma {:induction false} JoinedHeaded(s: string, ls: seq<string>, sep: string)
    requires ls != []
    ensures Joined(Headed(s, ls), sep) == s + Joined(ls, sep)
  {
    assert Headed(s, ls)[1..] == ls[1..];
  }

  lemma {:induction false} JoinedTailed(ls: seq<string>, s: string, sep: string)
    requires ls != []
    ensures Joined(Tailed(ls, s), sep) == Joined(ls, sep) + s
  {
    var t := Tailed(ls, s);
    if |ls| > 1 {
      assert t[1..] == Tailed(ls[1..], s) && t[0] == ls[0];
      JoinedTailed(ls[1..], s, sep);
    }
  }

  lemma {:induction false} JoinedShifted(ls: seq<string>, k: nat, sep: string)
    requires ls != []
    ensures Joined(Shifted(ls, k), sep) == Blanks(k) + Joined(ls, sep + Blanks(k))
  {
    if |ls| > 1 {
      assert Shifted(ls, k)[1..] == Shifted(ls[1..], k);
      JoinedShifted(ls[1..], k, sep);
    }
  }

  // ---- The lines of a tree --------------------------------------------------------------------

  function Lines(j: Json, k: nat, dbl: real -> string): (ls: seq<string>)
    requires Tree(j)
    ensures ls != []
    decreases j, 1, 0
  {
    match j
    case Arr(items) => if items == [] then ["[]"] else ["["] + Body(j, 0, k, dbl) + ["]"]
    case Obj(items) => if items == [] then ["{}"] else ["{"] + Body(j, 0, k, dbl) + ["}"]
    case _ => [Scalar(j, Indented(k, dbl))]
  }

  /** The lines between the brackets, from item `i` on. */
  function Body(j: Json, i: nat, k: nat, dbl: real -> string): (ls: seq<string>)
    requires Tree(j) && (j.Arr? || j.Obj?) && i <= |j.items| && (j.Obj? ==> i % 2 == 0)
    ensures i < |j.items| ==> ls != []
    decreases j, 0, |j.items| - i
  {
    if i == |j.items| then []
    else
      var v := if j.Obj? then i + 1 else i;
      assert TreeItem(j.items[v]);
      var ls := Lines(j.items[v].json, k, dbl);
      var named := if j.Obj? then Headed(Quoted(CString(j.items[i].key)) + ": ", ls) else ls;
      Shifted(Tailed(named, if v + 1 < |j.items| then "," else ""), k) + Body(j, v + 1, k, dbl)
  }

  // ---- Printing gives these lines -------------------------------------------------------------

  /** The end of a line, and the blanks that the next one begins with. */
  function Turn(c: nat): string { "\n" + Blanks(c) }

  lemma {:induction false} TurnMore(c: nat, k: nat)
    ensures Turn(c) + Blanks(k) == Turn(c + k)
  {
  }

  /** One item: its name, its value and what follows, on lines moved right. */
  function ItemLines(name: string, ls: seq<string>, after: string, k: nat): (r: seq<string>)
    requires ls != []
    ensures r != []
  {
    Shifted(Tailed(Headed(name, ls), after), k)
  }

  lemma {:induction false} ItemJoins(name: string, ls: seq<string>, after: string, k: nat, c: nat)
    requires ls != []
    ensures Turn(c) + Joined(ItemLines(name, ls, after, k), Turn(c)) ==
            Turn(c + k) + name + Joined(ls, Turn(c + k)) + after
  {
    var named := Headed(name, ls);
    var all := Tailed(named, after);
    JoinedShifted(all, k, Turn(c));
    TurnMore(c, k);
    JoinedTailed(named, after, Turn(c + k));
    JoinedHeaded(name, ls, Turn(c + k));
    var w := Joined(ls, Turn(c + k));
    assert Turn(c) + (Blanks(k) + (name + w + after)) == Turn(c) + Blanks(k) + name + w + after;
  }

  lemma {:induction false} Unnamed(ls: seq<string>)
    requires ls != []
    ensures Headed("", ls) == ls
  {
    assert "" + ls[0] == ls[0];
  }

  lemma {:induction false} LastIs(c: nat, k: nat, dbl: real -> string)
    ensures Indented(k, dbl).gap(c + k) == Turn(c + k) && Indented(k, dbl).last(c + k) == Turn(c)
    ensures Indented(k, dbl).step == k && Indented(k, dbl).colon == ": "
  {
    assert c == 0 ==> Blanks(c) == "";
  }

  /** `tail` is what is printed from one item on; its lines are these, and the bracket's line follows. */
  ghost predicate Prints(tail: string, ls: seq<string>, c: nat) {
    ls != [] && tail == Turn(c) + Joined(ls, Turn(c)) + Turn(c)
  }

  /** The last item. */
  lemma {:induction false} LastPrints(name: string, ls: seq<string>, k: nat, c: nat, tail: string)
    requires ls != [] && tail == Turn(c + k) + name + Joined(ls, Turn(c + k)) + Turn(c)
    ensures Prints(tail, ItemLines(name, ls, "", k), c)
  {
    ItemJoins(name, ls, "", k, c);
  }

  /** An item and more after it. */
  lemma {:induction false} MorePrints(name: string, ls: seq<string>, k: nat, c: nat, tail: string, more: seq<string>,
                                      rest: string)
    requires ls != [] && Prints(rest, more, c) && tail == Turn(c + k) + name + Joined(ls, Turn(c + k)) + ("," + rest)
    ensures Prints(tail, ItemLines(name, ls, ",", k) + more, c)
  {
    var item := ItemLines(name, ls, ",", k);
    ItemJoins(name, ls, ",", k, c);
    JoinedConcat(item, more, Turn(c));
    var x, y := Joined(item, Turn(c)), Joined(more, Turn(c));
    Moved(Turn(c + k) + name + Joined(ls, Turn(c + k)), rest);
    assert tail == Turn(c) + x + rest;
    Weave(Turn(c), x, y);
  }

  lemma {:induction false} ElementText(j: Json, i: nat, k: nat, c: nat, dbl: real -> string, w: string)
    requires Tree(j) && j.Arr? && i < |j.items| && TreeItem(j.items[i])
    requires w == Write(j.items[i].json, Indented(k, dbl), c + k + k)
    ensures Elements(j, i, Indented(k, dbl), c + k) == Turn(c + k) + "" + w +
            if i + 1 < |j.items| then "," + Elements(j, i + 1, Indented(k, dbl), c + k) else Turn(c)
  {
    LastIs(c, k, dbl);
    assert Turn(c + k) + "" == Turn(c + k);
  }

  lemma {:induction false} ElementBody(j: Json, i: nat, k: nat, dbl: real -> string, ls: seq<string>)
    requires Tree(j) && j.Arr? && i < |j.items| && TreeItem(j.items[i]) && ls == Lines(j.items[i].json, k, dbl)
    ensures Body(j, i, k, dbl) == ItemLines("", ls, if i + 1 < |j.items| then "," else "", k) + Body(j, i + 1, k, dbl)
  {
    Unnamed(ls);
  }

  lemma {:induction false} MemberText(j: Json, i: nat, k: nat, c: nat, dbl: real -> string, w: string, name: string)
    requires Tree(j) && j.Obj? && i + 1 < |j.items| && i % 2 == 0 && TreeItem(j.items[i + 1])
    requires w == Write(j.items[i + 1].json, Indented(k, dbl), c + k + k)
    requires name == Quoted(CString(j.items[i].key)) + ": "
    ensures Members(j, i, Indented(k, dbl), c + k) == Turn(c + k) + name + w +
            if i + 2 < |j.items| then "," + Members(j, i + 2, Indented(k, dbl), c + k) else Turn(c)
  {
    LastIs(c, k, dbl);
    var rest := if i + 2 < |j.items| then "," + Members(j, i + 2, Indented(k, dbl), c + k) else Turn(c);
    MemberUnfolds(j, i, Indented(k, dbl), c + k, w, rest);
    Regroup(Turn(c + k), Quoted(CString(j.items[i].key)), ": ", w, rest);
  }

  lemma {:induction false} MemberUnfolds(j: Json, i: nat, st: Style, n: nat, w: string, rest: string)
    requires Tree(j) && j.Obj? && i + 1 < |j.items| && i % 2 == 0 && TreeItem(j.items[i + 1])
    requires w == Write(j.items[i + 1].json, st, n + st.step)
    requires rest == if i + 2 < |j.items| then "," + Members(j, i + 2, st, n) else st.last(n)
    ensures Members(j, i, st, n) == st.gap(n) + Quoted(CString(j.items[i].key)) + st.colon + w + rest
  {
  }

  lemma {:induction false} Regroup(a: string, b: string, c: string, d: string, e: string)
    ensures a + b + c + d + e == a + (b + c) + d + e
  {
  }

  lemma {:induction false} Moved(a: string, b: string)
    ensures a + ("," + b) == a + "," + b
  {
  }

  lemma {:induction false} Weave(t: string, x: string, y: string)
    ensures t + x + (t + y + t) == t + (x + t + y) + t
  {
  }

  lemma {:induction false} MemberBody(j: Json, i: nat, k: nat, dbl: real -> string, ls: seq<string>, name: string)
    requires Tree(j) && j.Obj? && i + 1 < |j.items| && i % 2 == 0 && TreeItem(j.items[i + 1])
    requires ls == Lines(j.items[i + 1].json, k, dbl) && name == Quoted(CString(j.items[i].key)) + ": "
    ensures Body(j, i, k, dbl) == ItemLines(name, ls, if i + 2 < |j.items| then "," else "", k) + Body(j, i + 2, k, dbl)
  {
  }

  /** An item, last or not, and what is printed from it on. */
  lemma {:induction false} ItemPrints(name: string, ls: seq<string>, k: nat, c: nat, tail: string, more: bool,
                                      rest: string, lines: seq<string>)
    requires ls != [] && tail == Turn(c + k) + name + Joined(ls, Turn(c + k)) + if more then "," + rest else Turn(c)
    requires if more then Prints(rest, lines, c) else lines == []
    ensures Prints(tail, ItemLines(name, ls, if more then "," else "", k) + lines, c)
  {
    if more {
      MorePrints(name, ls, k, c, tail, lines, rest);
    } else {
      LastPrints(name, ls, k, c, tail);
      assert ItemLines(name, ls, "", k) + [] == ItemLines(name, ls, "", k);
    }
  }

  lemma {:induction false} ElementsPrint(j: Json, i: nat, k: nat, c: nat, dbl: real -> string)
    requires Tree(j) && j.Arr? && i < |j.items|
    ensures Prints(Elements(j, i, Indented(k, dbl), c + k), Body(j, i, k, dbl), c)
    decreases j, 0, |j.items| - i
  {
    assert TreeItem(j.items[i]);
    var ls := Lines(j.items[i].json, k, dbl);
    WritesLines(j.items[i].json, k, c + k, dbl);
    ElementText(j, i, k, c, dbl, Joined(ls, Turn(c + k)));
    ElementBody(j, i, k, dbl, ls);
    var more := i + 1 < |j.items|;
    if more {
      ElementsPrint(j, i + 1, k, c, dbl);
    }
    ItemPrints("", ls, k, c, Elements(j, i, Indented(k, dbl), c + k), more,
               if more then Elements(j, i + 1, Indented(k, dbl), c + k) else "", Body(j, i + 1, k, dbl));
  }

  lemma {:induction false} MembersPrint(j: Json, i: nat, k: nat, c: nat, dbl: real -> string)
    requires Tree(j) && j.Obj? && i < |j.items| && i % 2 == 0
    ensures Prints(Members(j, i, Indented(k, dbl), c + k), Body(j, i, k, dbl), c)
    decreases j, 0, |j.items| - i
  {
    assert TreeItem(j.items[i + 1]);
    var ls, name := Lines(j.items[i + 1].json, k, dbl), Quoted(CString(j.items[i].key)) + ": ";
    WritesLines(j.items[i + 1].json, k, c + k, dbl);
    MemberText(j, i, k, c, dbl, Joined(ls, Turn(c + k)), name);
    MemberBody(j, i, k, dbl, ls, name);
    var more := i + 2 < |j.items|;
    if more {
      MembersPrint(j, i + 2, k, c, dbl);
    }
    ItemPrints(name, ls, k, c, Members(j, i, Indented(k, dbl), c + k), more,
               if more then Members(j, i + 2, Indented(k, dbl), c + k) else "", Body(j, i + 2, k, dbl));
  }

  lemma {:induction false} Bracketed(open: string, body: seq<string>, close: string, tail: string, c: nat)
    requires Prints(tail, body, c)
    ensures open + tail + close == Joined([open] + body + [close], Turn(c))
  {
    JoinedConcat([open], body, Turn(c));
    JoinedConcat([open] + body, [close], Turn(c));
  }

  /** The indented print of a tree is its lines, each after the first on a new line at column `c`. */
  lemma {:induction false} WritesLines(j: Json, k: nat, c: nat, dbl: real -> string)
    requires Tree(j)
    ensures Write(j, Indented(k, dbl), c + k) == Joined(Lines(j, k, dbl), Turn(c))
    decreases j, 1, 0
  {
    if (j.Arr? || j.Obj?) && j.items != [] {
      if j.Arr? {
        ElementsPrint(j, 0, k, c, dbl);
        Bracketed("[", Body(j, 0, k, dbl), "]", Elements(j, 0, Indented(k, dbl), c + k), c);
      } else {
        MembersPrint(j, 0, k, c, dbl);
        Bracketed("{", Body(j, 0, k, dbl), "}", Members(j, 0, Indented(k, dbl), c + k), c);
      }
    }
  }
}
