/** The lexical level of JSON: white space, strings with their escapes, and numbers. */
module JsonText {
  import opened DbFormat

  /** `s` stands at position `p` of the text. */
  predicate Stands(t: string, p: nat, s: string) { p + |s| <= |t| && t[p..p + |s|] == s }

  lemma {:induction false} StandsConcat(t: string, p: nat, a: string, b: string)
    ensures Stands(t, p, a + b) <==> Stands(t, p, a) && Stands(t, p + |a|, b)
  {
    if Stands(t, p, a + b) {
      assert t[p..p + |a|] == t[p..p + |a + b|][..|a|];
      assert t[p + |a|..p + |a| + |b|] == t[p..p + |a + b|][|a|..];
    }
    if Stands(t, p, a) && Stands(t, p + |a|, b) {
      assert t[p..p + |a + b|] == t[p..p + |a|] + t[p + |a|..p + |a| + |b|];
    }
  }

  lemma {:induction false} StandsAt(t: string, p: nat, s: string, i: nat)
    requires Stands(t, p, s) && i < |s|
    ensures t[p + i] == s[i]
  {
    assert t[p + i] == t[p..p + |s|][i];
  }

  predicate IsSpace(c: char) { c == ' ' || c == '\n' || c == '\r' || c == '\t' }

  /** The first position at or after `b` that is not white space. */
  function Skip(t: string, b: nat): (r: nat)
    requires b <= |t|
    ensures b <= r <= |t| && (r < |t| ==> !IsSpace(t[r])) && forall i | b <= i < r :: IsSpace(t[i])
    decreases |t| - b
  {
    if b < |t| && IsSpace(t[b]) then Skip(t, b + 1) else b
  }

  predicate AllSpace(s: string) { forall i | 0 <= i < |s| :: IsSpace(s[i]) }

  lemma {:induction false} SkipGap(t: string, b: nat, gap: string)
    requires Stands(t, b, gap) && AllSpace(gap) && b + |gap| < |t| && !IsSpace(t[b + |gap|])
    ensures Skip(t, b) == b + |gap|
  {
    forall i | b <= i < b + |gap| ensures IsSpace(t[i]) {
      StandsAt(t, b, gap, i - b);
    }
  }

  // ---- Strings --------------------------------------------------------------------------------

  function Find(t: string, b: nat, e: nat, c: char): (r: Option<nat>)
    requires e <= |t|
    ensures r.Some? ==> b <= r.value < e && t[r.value] == c && forall i | b <= i < r.value :: t[i] != c
    ensures r.None? ==> forall i | b <= i < e :: t[i] != c
    decreases e - b
  {
    if b >= e then None else if t[b] == c then Some(b) else Find(t, b + 1, e, c)
  }

  /** What a character stands for after a backslash; `u` announces a code point. */
  function Escape(c: char): Option<char> {
    if c == 'r' then Some('\r') else if c == 'n' then Some('\n') else if c == 't' then Some('\t')
    else if c == 'b' then Some(8 as char) else if c == 'f' then Some(12 as char)
    else if c == '"' || c == '\\' || c == '/' || c == 'u' then Some(c)
    else None
  }

  function HexDigit(c: char): (r: Option<nat>)
    ensures r.Some? ==> r.value < 16
  {
    if '0' <= c <= '9' then Some(c as nat - '0' as nat)
    else if 'A' <= c <= 'F' then Some(c as nat - 'A' as nat + 10)
    else if 'a' <= c <= 'f' then Some(c as nat - 'a' as nat + 10)
    else None
  }

  /** Four hexadecimal digits; the position is that of the last one. */
  function ParseHex(t: string, b: nat): (r: Option<(nat, nat)>)
    ensures r.Some? ==> r.value.0 < 0x1_0000 && r.value.1 == b + 3 < |t|
  {
    if b + 4 > |t| then None
    else
      var (x, y, z, w) := (HexDigit(t[b]), HexDigit(t[b + 1]), HexDigit(t[b + 2]), HexDigit(t[b + 3]));
      if x.None? || y.None? || z.None? || w.None? then None
      else Some((x.value * 4096 + y.value * 256 + z.value * 16 + w.value, b + 3))
  }

  /** A code point as UTF-8 bytes. */
  function Utf8(u: nat): string
    requires u < 0x11_0000
  {
    if u <= 0x7F then [u as char]
    else if u <= 0x7FF then [(0xC0 + u / 64) as char, (0x80 + u % 64) as char]
    else if u <= 0xFFFF then [(0xE0 + u / 4096) as char, (0x80 + u / 64 % 64) as char, (0x80 + u % 64) as char]
    else [(0xF0 + u / 262144) as char, (0x80 + u / 4096 % 64) as char, (0x80 + u / 64 % 64) as char,
        (0x80 + u % 64) as char]
  }

  /** The code point after `\u`, with its surrogate if it needs one; the position is that of the last digit. */
  function ParseUnicode(t: string, b: nat): (r: Option<(string, nat)>)
    ensures r.Some? ==> b <= r.value.1 < |t|
  {
    var h := ParseHex(t, b);
    if h.None? then None
    else
      var (u, p) := h.value;
      if 0xD800 <= u <= 0xDBFF then
        if p + 2 >= |t| || t[p + 1] != '\\' || t[p + 2] != 'u' then None
        else
          var g := ParseHex(t, p + 3);
          if g.None? || g.value.0 < 0xDC00 || g.value.0 > 0xDFFF then None
          else Some((Utf8(0x1_0000 + (u - 0xD800) * 1024 + (g.value.0 - 0xDC00)), g.value.1))
      else Some((Utf8(u), p))
  }

  /** The escape whose first character after the backslash is at `x`; the position is that of its last character. */
  function Unescape(t: string, x: nat): (r: Option<(string, nat)>)
    ensures r.Some? ==> x <= r.value.1 < |t|
  {
    if x >= |t| || Escape(t[x]).None? then None
    else if t[x] != 'u' then Some(([Escape(t[x]).value], x))
    else ParseUnicode(t, x + 1)
  }

  /** A reader of escapes: the text it stands for and the position of its last character. */
  type Escapes = f: (string, nat) -> Option<(string, nat)> |
    forall t, x: nat | f(t, x).Some? :: x <= f(t, x).value.1 < |t|
    witness (t, x) => None

  /** A string as the standard reads it, character by character, from just after the opening quote. */
  function Scan(t: string, b: nat, acc: string, esc: Escapes): (r: Option<(string, nat)>)
    ensures r.Some? ==> b <= r.value.1 < |t|
    decreases |t| - b
  {
    if b >= |t| then None
    else if t[b] == '"' then Some((acc, b))
    else if t[b] != '\\' then Scan(t, b + 1, acc + [t[b]], esc)
    else
      var x := esc(t, b + 1);
      if x.None? then None else Scan(t, x.value.1 + 1, acc + x.value.0, esc)
  }

  predicate Plain(t: string, b: nat, e: nat)
    requires e <= |t|
  {
    forall i | b <= i < e :: t[i] != '"' && t[i] != '\\'
  }

  /** A stretch without quotes and backslashes is taken over as it is. */
  lemma {:induction false} ScanPlain(t: string, b: nat, e: nat, acc: string, esc: Escapes)
    requires b <= e <= |t| && Plain(t, b, e)
    ensures Scan(t, b, acc, esc) == Scan(t, e, acc + t[b..e], esc)
    decreases e - b
  {
    if b == e {
      assert acc + t[b..e] == acc;
    } else {
      ScanPlain(t, b + 1, e, acc + [t[b]], esc);
      assert acc + [t[b]] + t[b + 1..e] == acc + t[b..e];
    }
  }

  /** A string whose closing quote is missing is an error, wherever the escapes are. */
  lemma {:induction false} ScanNeedsQuote(t: string, b: nat, acc: string, esc: Escapes)
    requires forall i | b <= i < |t| :: t[i] != '"'
    ensures Scan(t, b, acc, esc).None?
    decreases |t| - b
  {
    if b < |t| {
      if t[b] != '\\' {
        ScanNeedsQuote(t, b + 1, acc + [t[b]], esc);
      } else {
        var x := esc(t, b + 1);
        if x.Some? {
          ScanNeedsQuote(t, x.value.1 + 1, acc + x.value.0, esc);
        }
      }
    }
  }

  /** A plain stretch and the escape after it. */
  lemma {:induction false} ScanEscape(t: string, b: nat, q: nat, acc: string, esc: Escapes)
    requires b <= q < |t| && Plain(t, b, q) && t[q] == '\\'
    ensures esc(t, q + 1).None? ==> Scan(t, b, acc, esc) == None
    ensures esc(t, q + 1).Some? ==>
              Scan(t, b, acc, esc) == Scan(t, esc(t, q + 1).value.1 + 1, acc + t[b..q] + esc(t, q + 1).value.0, esc)
  {
    ScanPlain(t, b, q, acc, esc);
  }

  /** The nearest quote after `b`, and the nearest backslash before that quote. */
  predicate Marks(t: string, b: nat, p: nat, q: Option<nat>) {
    b <= p < |t| && Find(t, b, |t|, '"') == Some(p) && q == Find(t, b, p, '\\')
  }

  lemma {:induction false} MarksPlain(t: string, b: nat, p: nat, q: Option<nat>)
    requires Marks(t, b, p, q)
    ensures q.Some? ==> b <= q.value < p && Plain(t, b, q.value) && t[q.value] == '\\'
    ensures q.None? ==> Plain(t, b, p) && t[p] == '"'
  {
  }

  /** The quote is looked for again only when the escape has run past it. */
  method Advance(t: string, b: nat, p: nat, c: nat) returns (p': Option<nat>, q: Option<nat>)
    requires b < c <= |t| && Find(t, b, |t|, '"') == Some(p)
    ensures p'.None? ==> forall i | c <= i < |t| :: t[i] != '"'
    ensures p'.Some? ==> Marks(t, c, p'.value, q)
  {
    p', q := Some(p), None;
    if c > p {
      p' := Find(t, c, |t|, '"');
    } else {
      FindOnward(t, b, c, |t|, '"');
    }
    if p'.Some? {
      q := Find(t, c, p'.value, '\\');
    }
  }

  lemma {:induction false} FindOnward(t: string, b: nat, c: nat, e: nat, x: char)
    requires b <= c <= e <= |t| && forall i | b <= i < c :: t[i] != x
    ensures Find(t, b, e, x) == Find(t, c, e, x)
    decreases c - b
  {
    if b < c {
      FindOnward(t, b + 1, c, e, x);
    }
  }

  /**
   Parser::parse_string: jumps from backslash to backslash, with the nearest quote known. It
   reads every text as the character-by-character definition does.
   */
  method ParseString(t: string, start: nat, esc: Escapes) returns (r: Option<(string, nat)>)
    requires start < |t| && t[start] == '"'
    ensures r == Scan(t, start + 1, "", esc)
  {
    var b, acc := start + 1, "";
    var p := Find(t, b, |t|, '"');
    if p.None? {
      ScanNeedsQuote(t, b, acc, esc);
      return None;
    }
    var q := Find(t, b, p.value, '\\');
    while q.Some?
      invariant p.Some? && Marks(t, b, p.value, q) && Scan(t, b, acc, esc) == Scan(t, start + 1, "", esc)
      decreases |t| - b
    {
      MarksPlain(t, b, p.value, q);
      ScanEscape(t, b, q.value, acc, esc);
      var x := esc(t, q.value + 1);
      if x.None? {
        return None;
      }
      acc := acc + t[b..q.value] + x.value.0;
      p, q := Advance(t, b, p.value, x.value.1 + 1);
      b := x.value.1 + 1;
      if p.None? {
        ScanNeedsQuote(t, b, acc, esc);
        return None;
      }
    }
    MarksPlain(t, b, p.value, q);
    ScanPlain(t, b, p.value, acc, esc);
    return Some((acc + t[b..p.value], p.value));
  }

  // ---- What a printer writes for a string, and how it is read back ----------------------------

  /** The character that follows the backslash when `c` is escaped. */
  function EscapeOf(c: char): Option<char> {
    if c == '\r' then Some('r') else if c == '\n' then Some('n') else if c == '\t' then Some('t')
    else if c == 8 as char then Some('b') else if c == 12 as char then Some('f')
    else if c == '"' || c == '\\' then Some(c)
    else None
  }

  function Escaped(s: string): string {
    if s == "" then ""
    else (if EscapeOf(s[0]).Some? then ['\\', EscapeOf(s[0]).value] else [s[0]]) + Escaped(s[1..])
  }

  lemma {:induction false} EscapedReads(t: string, b: nat, s: string, acc: string)
    requires Stands(t, b, Escaped(s)) && b + |Escaped(s)| < |t| && t[b + |Escaped(s)|] == '"'
    ensures Scan(t, b, acc, Unescape) == Some((acc + s, b + |Escaped(s)|))
    decreases |s|
  {
    if s == "" {
      assert acc + s == acc;
    } else {
      var e := EscapeOf(s[0]);
      var head := if e.Some? then ['\\', e.value] else [s[0]];
      StandsConcat(t, b, head, Escaped(s[1..]));
      StandsAt(t, b, head, 0);
      if e.Some? {
        StandsAt(t, b, head, 1);
        assert Unescape(t, b + 1) == Some(([s[0]], b + 1));
      }
      EscapedReads(t, b + |head|, s[1..], acc + [s[0]]);
      assert acc + [s[0]] + s[1..] == acc + s;
    }
  }

  /** find_escapse: the next character that must be escaped. */
  function FindEscape(s: string, b: nat): (r: nat)
    requires b <= |s|
    ensures b <= r <= |s| && (forall i | b <= i < r :: EscapeOf(s[i]).None?) && (r < |s| ==> EscapeOf(s[r]).Some?)
    decreases |s| - b
  {
    if b < |s| && EscapeOf(s[b]).None? then FindEscape(s, b + 1) else b
  }

  lemma {:induction false} EscapedPlain(s: string, b: nat, e: nat)
    requires b <= e <= |s| && forall i | b <= i < e :: EscapeOf(s[i]).None?
    ensures Escaped(s[b..]) == s[b..e] + Escaped(s[e..])
    decreases e - b
  {
    if b < e {
      EscapedPlain(s, b + 1, e);
      assert s[b..][1..] == s[b + 1..];
      assert s[b..e] == [s[b]] + s[b + 1..e];
    } else {
      assert s[b..e] == "";
    }
  }

  /** The string case of Json::_json2str: stretches are copied between the characters to escape. */
  method WriteString(fs: string, s: string) returns (r: string)
    ensures r == fs + "\"" + Escaped(s) + "\""
  {
    var b := 0;
    r := fs + "\"";
    assert s[0..] == s;
    var p := FindEscape(s, b);
    while p < |s|
      invariant b <= p <= |s| && p == FindEscape(s, b)
      invariant r + Escaped(s[b..]) == fs + "\"" + Escaped(s)
      decreases |s| - b
    {
      EscapedPlain(s, b, p);
      assert s[p..][1..] == s[p + 1..];
      r := r + s[b..p] + ['\\', EscapeOf(s[p]).value];
      b := p + 1;
      p := FindEscape(s, b);
    }
    EscapedPlain(s, b, p);
    assert s[p..] == "";
    r := r + s[b..];
    r := r + "\"";
  }
}
