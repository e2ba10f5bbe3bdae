/** JSON trees and their printed forms, compact and indented. */
module JsonTree {
  import opened DbFormat
  import opened JsonText
  import opened JsonNumber

  /** The children of an object alternate between keys and values, in one sequence. */
  datatype Item = Key(key: string) | Val(json: Json)
  datatype Json =
    | Null | Bool(b: bool) | Int(i: int) | Dbl(d: real) | Str(s: string)
    | Arr(items: seq<Item>) | Obj(items: seq<Item>)

  predicate Alternates(items: seq<Item>) { forall i | 0 <= i < |items| :: items[i].Key? <==> i % 2 == 0 }

  predicate Values(items: seq<Item>) { forall i | 0 <= i < |items| :: items[i].Val? }

  /** What a tree is: integers of 64 bits, keys and values in turn in objects, values in arrays. */
  predicate Tree(j: Json) {
    match j
    case Int(i) => MIN_INT64 <= i <= MAX_INT64
    case Arr(items) => Values(items) && forall i | 0 <= i < |items| :: TreeItem(items[i])
    case Obj(items) => |items| % 2 == 0 && Alternates(items) && forall i | 0 <= i < |items| :: TreeItem(items[i])
    case _ => true
  }

  predicate TreeItem(x: Item) { x.Val? ==> Tree(x.json) }

  /** A key that the printer writes whole and the parser reads whole. */
  predicate CleanKey(k: string) { forall i | 0 <= i < |k| :: k[i] != '"' && k[i] != 0 as char }

  /** No double, and clean keys only. */
  predicate Clean(j: Json) {
    match j
    case Dbl(_) => false
    case Arr(items) => forall i | 0 <= i < |items| :: CleanItem(items[i])
    case Obj(items) => forall i | 0 <= i < |items| :: CleanItem(items[i])
    case _ => true
  }

  predicate CleanItem(x: Item) {
    match x
    case Key(k) => CleanKey(k)
    case Val(j) => Clean(j)
  }

  // ---- Printed forms --------------------------------------------------------------------------

  /**
   What a printer puts between the tokens: before an element at column `n`, before the closing
   bracket, after a key. How doubles are written is a parameter.
   */
  datatype Style = Style(step: nat, colon: string, gap: nat -> string, last: nat -> string, dbl: real -> string)

  /** Json::_json2str: nothing between the tokens. */
  function Compact(dbl: real -> string): Style { Style(0, ":", n => "", n => "", dbl) }

  /** Json::_json2pretty: a line per element, `indent` more blanks a level. */
  function Indented(indent: nat, dbl: real -> string): Style {
    Style(indent, ": ", (n: nat) => "\n" + Blanks(n),
          (n: nat) => "\n" + if n > indent then Blanks(n - indent) else "", dbl)
  }

  function Blanks(n: nat): string { seq(n, _ => ' ') }

  /** A key as a C string: up to the first zero byte. */
  function CString(k: string): string {
    var e := Find(k, 0, |k|, 0 as char);
    if e.None? then k else k[..e.value]
  }

  function Quoted(k: string): string { "\"" + k + "\"" }

  function Scalar(j: Json, st: Style): string
    requires !j.Arr? && !j.Obj?
  {
    match j
    case Null => "null"
    case Bool(b) => if b then "true" else "false"
    case Int(i) => Written(i)
    case Dbl(d) => st.dbl(d)
    case Str(s) => "\"" + Escaped(s) + "\""
  }

  function Write(j: Json, st: Style, n: nat): string
    requires Tree(j)
    decreases j
  {
    match j
    case Arr(items) => "[" + Elements(j, 0, st, n) + "]"
    case Obj(items) => "{" + Members(j, 0, st, n) + "}"
    case _ => Scalar(j, st)
  }

  /** Elements separated by commas, from index `i` on. */
  function Elements(j: Json, i: nat, st: Style, n: nat): string
    requires Tree(j) && j.Arr? && i <= |j.items|
    decreases j, |j.items| - i
  {
    if i == |j.items| then ""
    else
      assert TreeItem(j.items[i]);
      st.gap(n) + Write(j.items[i].json, st, n + st.step) +
      if i + 1 < |j.items| then "," + Elements(j, i + 1, st, n) else st.last(n)
  }

  function Members(j: Json, i: nat, st: Style, n: nat): string
    requires Tree(j) && j.Obj? && i <= |j.items| && i % 2 == 0
    decreases j, |j.items| - i
  {
    if i == |j.items| then ""
    else
      assert TreeItem(j.items[i + 1]);
      st.gap(n) + Quoted(CString(j.items[i].key)) + st.colon + Write(j.items[i + 1].json, st, n + st.step) +
      if i + 2 < |j.items| then "," + Members(j, i + 2, st, n) else st.last(n)
  }
}
