/**
 Json::_json2str and Json::_json2pretty: recursive printers that append to one stream. The two
 have the same loops and differ in the white space between the tokens, which is the parameter `st`.
 */
module JsonPrinter {
  import opened Guard
  import opened JsonText
  import opened JsonNumber
  import opened JsonTree

  /**
   The stream after some elements of a container whose whole contents are `all`: `rest` is still
   to come, or (`done`) only the last comma is to be replaced by `last`.
   */
  predicate Upto(data: string, start: string, all: string, rest: string, done: bool, last: string) {
    if !done then data + rest == start + all
    else data != "" && data[|data| - 1] == ',' && data[..|data| - 1] + last == start + all
  }

  /** One more element, with its comma. */
  lemma {:induction false} UptoNext(data: string, start: string, all: string, text: string, more: bool, next: string,
                                    last: string)
    requires Upto(data, start, all, text + if more then "," + next else last, false, last)
    ensures Upto(data + text + ",", start, all, next, !more, last)
  {
    var d := data + text + ",";
    if more {
      assert d + next == data + (text + ("," + next));
    } else {
      assert d[..|d| - 1] + last == data + (text + last);
    }
  }

  function ElementText(j: Json, i: nat, st: Style, n: nat): string
    requires Tree(j) && j.Arr? && i < |j.items|
  {
    assert TreeItem(j.items[i]);
    st.gap(n) + Write(j.items[i].json, st, n + st.step)
  }

  function MemberText(j: Json, i: nat, st: Style, n: nat): string
    requires Tree(j) && j.Obj? && i < |j.items| && i % 2 == 0
  {
    assert TreeItem(j.items[i + 1]);
    st.gap(n) + Quoted(CString(j.items[i].key)) + st.colon + Write(j.items[i + 1].json, st, n + st.step)
  }

  lemma {:induction false} ElementsNext(j: Json, i: nat, st: Style, n: nat, data: string, start: string, all: string,
                                        text: string)
    requires Tree(j) && j.Arr? && i < |j.items| && text == ElementText(j, i, st, n)
    requires Upto(data, start, all, Elements(j, i, st, n), false, st.last(n))
    ensures Upto(data + text + ",", start, all, Elements(j, i + 1, st, n), i + 1 == |j.items|, st.last(n))
  {
    UptoNext(data, start, all, text, i + 1 < |j.items|, Elements(j, i + 1, st, n), st.last(n));
  }

  lemma {:induction false} MembersNext(j: Json, i: nat, st: Style, n: nat, data: string, start: string, all: string,
                                       text: string)
    requires Tree(j) && j.Obj? && i < |j.items| && i % 2 == 0 && text == MemberText(j, i, st, n)
    requires Upto(data, start, all, Members(j, i, st, n), false, st.last(n))
    ensures Upto(data + text + ",", start, all, Members(j, i + 2, st, n), i + 2 == |j.items|, st.last(n))
  {
    UptoNext(data, start, all, text, i + 2 < |j.items|, Members(j, i + 2, st, n), st.last(n));
  }

  /** The members from index `i` on are still to come. */
  ghost predicate MembersFrom(data: string, start: string, all: string, j: Json, i: nat, st: Style, n: nat)
    requires Tree(j) && j.Obj? && i <= |j.items| && i % 2 == 0
  {
    forall k | Unfolded(k) :: Upto(data, start, all, Members(j, i, st, n), false, st.last(n))
  }

  lemma {:induction false} ObjectText(data: string, j: Json, st: Style, n: nat) returns (all: string)
    requires Tree(j) && j.Obj?
    ensures Write(j, st, n) == "{" + all + "}" && MembersFrom(data, data, all, j, 0, st, n)
            && (j.items == [] ==> all == "")
  {
    all := Members(j, 0, st, n);
  }

  class Stream {
    var data: string

    constructor ()
      ensures data == ""
    {
      data := "";
    }

    /** The comma after the last element gives way to the closing bracket. */
    method Close(bracket: char, last: string, ghost start: string, ghost all: string, ghost done: bool)
      requires Upto(data, start, all, "", done, last) && start != "" && start[|start| - 1] != ','
               && (!done ==> all == "")
      modifies this
      ensures data == start + all + [bracket]
    {
      assert data + "" == data && start + "" == start;
      if data[|data| - 1] == ',' {
        data := data[..|data| - 1] + last;
      }
      data := data + [bracket];
    }

    method PrintScalar(j: Json, st: Style)
      requires !j.Arr? && !j.Obj?
      modifies this
      ensures data == old(data) + Scalar(j, st)
    {
      match j
      case Null => data := data + "null";
      case Bool(b) => data := data + if b then "true" else "false";
      case Int(i) => data := data + Written(i);
      case Dbl(d) => data := data + st.dbl(d);
      case Str(s) =>
        var r := WriteString(data, s);
        data := r;
    }

    /** The printed form, with elements at column `n`. */
    method Print(j: Json, st: Style, n: nat)
      requires Tree(j)
      modifies this
      ensures data == old(data) + Write(j, st, n)
      decreases j, 5
    {
      match j
      case Arr(_) => PrintArray(j, st, n);
      case Obj(_) => PrintObject(j, st, n);
      case _ => PrintScalar(j, st);
    }

    method PutElement(j: Json, i: nat, st: Style, n: nat)
      requires Tree(j) && j.Arr? && i < |j.items|
      modifies this
      ensures data == old(data) + ElementText(j, i, st, n) + ","
      decreases j, 0
    {
      var x := j.items[i].json;
      assert TreeItem(j.items[i]);
      data := data + st.gap(n);
      Print(x, st, n + st.step);
      data := data + ",";
    }

    method NextElement(j: Json, i: nat, st: Style, n: nat, ghost start: string, ghost all: string)
      requires Tree(j) && j.Arr? && i < |j.items|
      requires Upto(data, start, all, Elements(j, i, st, n), false, st.last(n))
      modifies this
      ensures Upto(data, start, all, Elements(j, i + 1, st, n), i + 1 == |j.items|, st.last(n))
      decreases j, 1
    {
      ElementsNext(j, i, st, n, data, start, all, ElementText(j, i, st, n));
      PutElement(j, i, st, n);
    }

    method PrintArray(j: Json, st: Style, n: nat)
      requires Tree(j) && j.Arr?
      modifies this
      ensures data == old(data) + Write(j, st, n)
      decreases j, 2
    {
      data := data + "[";
      ghost var start, all := data, Elements(j, 0, st, n);
      var i := 0;
      while i < |j.items|
        invariant i <= |j.items|
        invariant Upto(data, start, all, Elements(j, i, st, n), 0 < i == |j.items|, st.last(n))
      {
        NextElement(j, i, st, n, start, all);
        i := i + 1;
      }
      Close(']', st.last(n), start, all, 0 < i == |j.items|);
    }

    method PutMember(j: Json, i: nat, st: Style, n: nat)
      requires Tree(j) && j.Obj? && i < |j.items| && i % 2 == 0
      modifies this
      ensures data == old(data) + MemberText(j, i, st, n) + ","
      decreases j, 0
    {
      var x := j.items[i + 1].json;
      assert TreeItem(j.items[i + 1]);
      data := data + st.gap(n);
      data := data + Quoted(CString(j.items[i].key)) + st.colon;
      Print(x, st, n + st.step);
      data := data + ",";
    }

    method NextMember(j: Json, i: nat, st: Style, n: nat, ghost start: string, ghost all: string)
      requires Tree(j) && j.Obj? && i < |j.items| && i % 2 == 0 && MembersFrom(data, start, all, j, i, st, n)
      modifies this
      ensures i + 2 < |j.items| ==> MembersFrom(data, start, all, j, i + 2, st, n)
      ensures i + 2 == |j.items| ==> Upto(data, start, all, "", true, st.last(n))
      decreases j, 1
    {
      assert Unfolded(0);
      MembersNext(j, i, st, n, data, start, all, MemberText(j, i, st, n));
      PutMember(j, i, st, n);
    }

    method PutMembers(j: Json, st: Style, n: nat, ghost start: string, ghost all: string)
      requires Tree(j) && j.Obj? && j.items != [] && MembersFrom(data, start, all, j, 0, st, n)
      modifies this
      ensures Upto(data, start, all, "", true, st.last(n))
      decreases j, 2
    {
      var i := 0;
      while i < |j.items|
        invariant i <= |j.items| && i % 2 == 0
        invariant i < |j.items| ==> MembersFrom(data, start, all, j, i, st, n)
        invariant i == |j.items| ==> Upto(data, start, all, "", true, st.last(n))
      {
        NextMember(j, i, st, n, start, all);
        i := i + 2;
      }
    }

    method PutObject(j: Json, st: Style, n: nat, ghost start: string, ghost all: string)
      requires Tree(j) && j.Obj? && start == data + "{" && MembersFrom(start, start, all, j, 0, st, n)
               && (j.items == [] ==> all == "")
      modifies this
      ensures data == start + all + "}"
      decreases j, 3
    {
      data := data + "{";
      if j.items != [] {
        PutMembers(j, st, n, start, all);
      }
      Close('}', st.last(n), start, all, j.items != []);
    }

    method PrintObject(j: Json, st: Style, n: nat)
      requires Tree(j) && j.Obj?
      modifies this
      ensures data == old(data) + Write(j, st, n)
      decreases j, 4
    {
      ghost var start := data + "{";
      ghost var all := ObjectText(start, j, st, n);
      PutObject(j, st, n, start, all);
      assert data == old(data) + ("{" + all + "}");
    }
  }
}
