/** Bit sets of 64-bit words. A word is the set of the positions of its one bits. */
module Bitset {

  const BITS: nat := 64

  type Word = set<nat>

  type Words = seq<Word>

  predicate Ok(ws: Words) { forall w, b | 0 <= w < |ws| && b in ws[w] :: b < BITS }

  predicate Has(ws: Words, i: nat) { i / BITS < |ws| && i % BITS in ws[i / BITS] }

  function Zero(n: nat): (ws: Words)
    ensures Ok(ws) && |ws| == n && forall i :: !Has(ws, i)
  {
    seq(n, _ => {})
  }

  function Set(ws: Words, i: nat): (r: Words)
    requires Ok(ws) && i / BITS < |ws|
    ensures Ok(r) && |r| == |ws| && forall j :: Has(r, j) <==> j == i || Has(ws, j)
  {
    ws[i / BITS := ws[i / BITS] + {i % BITS}]
  }

  function Unset(ws: Words, i: nat): (r: Words)
    requires Ok(ws) && i / BITS < |ws|
    ensures Ok(r) && |r| == |ws| && forall j :: Has(r, j) <==> j != i && Has(ws, j)
  {
    ws[i / BITS := ws[i / BITS] - {i % BITS}]
  }

  /** ws[w] &= ~x */
  function AndNot(ws: Words, w: nat, x: Word): (r: Words)
    requires Ok(ws) && w < |ws|
    ensures Ok(r) && |r| == |ws|
    ensures forall j: nat :: Has(r, j) <==> Has(ws, j) && !(j / BITS == w && j % BITS in x)
  {
    ws[w := ws[w] - x]
  }

  predicate IsMost(x: Word, m: nat) { m in x && forall y | y in x :: y <= m }

  predicate IsLeast(x: Word, m: nat) { m in x && forall y | y in x :: m <= y }

  lemma {:induction false} HasMost(x: Word)
    requires x != {}
    ensures exists m :: IsMost(x, m)
  {
    var z :| z in x;
    var rest := x - {z};
    assert forall y | y in x :: y == z || y in rest;
    if rest == {} {
      assert IsMost(x, z);
    } else {
      HasMost(rest);
      var m :| IsMost(rest, m);
      assert IsMost(x, if z <= m then m else z);
    }
  }

  lemma {:induction false} HasLeast(x: Word)
    requires x != {}
    ensures exists m :: IsLeast(x, m)
  {
    var z :| z in x;
    var rest := x - {z};
    assert forall y | y in x :: y == z || y in rest;
    if rest == {} {
      assert IsLeast(x, z);
    } else {
      HasLeast(rest);
      var m :| IsLeast(rest, m);
      assert IsLeast(x, if z <= m then z else m);
    }
  }

  function FindMsb(x: Word): (m: nat)
    requires x != {}
    ensures IsMost(x, m)
  {
    HasMost(x);
    var m :| m in x && IsMost(x, m);
    m
  }

  function FindLsb(x: Word): (m: nat)
    requires x != {}
    ensures IsLeast(x, m)
  {
    HasLeast(x);
    var m :| m in x && IsLeast(x, m);
    m
  }

  /** The highest one bit in the words up to the word of position `i`, or -1. */
  method RFind(ws: Words, i: nat) returns (r: int)
    requires Ok(ws) && i / BITS < |ws|
    ensures r < 0 ==> r == -1 && forall j: nat | j / BITS <= i / BITS :: !Has(ws, j)
    ensures r >= 0 ==> Has(ws, r) && forall j: nat | j / BITS <= i / BITS && Has(ws, j) :: j <= r
  {
    var n: int := i / BITS;
    while true
      invariant 0 <= n <= i / BITS
      invariant forall j: nat | n < j / BITS <= i / BITS :: !Has(ws, j)
      decreases n
    {
      if ws[n] != {} {
        r := FindMsb(ws[n]) + n * BITS;
        assert r / BITS == n && r % BITS == FindMsb(ws[n]);
        return;
      }
      n := n - 1;
      if n < 0 {
        return -1;
      }
    }
  }
}
