/** Integer facts about positions split into (quotient, remainder). */
module Arith {

  lemma DivMod(a: nat, p: nat)
    requires p > 0
    ensures a == (a / p) * p + a % p && a % p < p
  {
  }

  /** Positions are ordered lexicographically. */
  lemma Lex(p: nat, g: int, i: int, h: int, j: int)
    requires 0 <= i < p && 0 <= j < p
    ensures g * p + i < h * p + j <==> g < h || (g == h && i < j)
  {
    if g < h {
      assert (g + 1) * p <= h * p;
    } else if h < g {
      assert (h + 1) * p <= g * p;
    }
  }

  /** The split is unique. */
  lemma Split(p: nat, g: int, i: int, a: int)
    requires 0 <= i < p && a == g * p + i
    ensures a / p == g && a % p == i
  {
    Lex(p, g, i, a / p, a % p);
    Lex(p, a / p, a % p, g, i);
  }

  /** Halving first and dividing then. */
  lemma HalfDiv(a: nat, p: nat)
    requires p > 0
    ensures a / (2 * p) == a / 2 / p
  {
    var q, r := a / 2 / p, a / 2 % p;
    DivMod(a / 2, p);
    assert q * (2 * p) == 2 * (q * p);
    Split(2 * p, q, 2 * r + a % 2, a);
  }

  /** Rounding up: the number of `p`-sized pieces that cover `a`. */
  lemma CeilDiv(a: nat, p: nat)
    requires a > 0 && p > 0
    ensures var q := (a + p - 1) / p; q > 0 && (q - 1) * p < a <= q * p
  {
    var q := (a + p - 1) / p;
    DivMod(a + p - 1, p);
    Lex(p, q, (a + p - 1) % p, 1, 0);
    assert (q - 1) * p == q * p - p;
  }

  lemma Next(g: int, p: nat)
    ensures (g + 1) * p == g * p + p
  {
  }

  /** What is left of `a` behind `g` pieces of size `p`: the remainder, or a whole piece if there is none. */
  lemma LastPiece(a: nat, p: nat, g: nat)
    requires g * p < a <= (g + 1) * p
    ensures p > 0 && a - g * p == if a % p == 0 then p else a % p
  {
    Next(g, p);
    if a == (g + 1) * p {
      Split(p, g + 1, 0, a);
    } else {
      Split(p, g, a - g * p, a);
    }
  }

  /** Conversion to a 32-bit signed integer: the value modulo 2^32 in [-2^31, 2^31). */
  function Int32(n: int): (r: int)
    ensures -0x8000_0000 <= r < 0x8000_0000 && (-0x8000_0000 <= n < 0x8000_0000 ==> r == n)
  {
    var m := n % 0x1_0000_0000;
    if m < 0x8000_0000 then m else m - 0x1_0000_0000
  }

  /** Stepping commutes with the conversion. */
  lemma Int32Step(n: int, d: int)
    ensures Int32(Int32(n) + d) == Int32(n + d)
  {
    var q := n / 0x1_0000_0000;
    assert n == q * 0x1_0000_0000 + n % 0x1_0000_0000;
    assert (Int32(n) + d) % 0x1_0000_0000 == (n + d) % 0x1_0000_0000;
  }
}
