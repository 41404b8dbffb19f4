/** The byte encodings ext2.c obtains by casting block buffers: little-endian
    words, pointer blocks and allocation bitmaps. */
module Ext2Bytes {
  import Arith

  type byte = x: int | 0 <= x < 0x100
  type u16 = x: int | 0 <= x < 0x1_0000
  type u32 = x: int | 0 <= x < 0x1_0000_0000

  // ----- little-endian words

  function Le16(s: seq<byte>, o: nat): u16
    requires o + 2 <= |s|
  {
    s[o] as int + 0x100 * (s[o + 1] as int)
  }

  function Le32(s: seq<byte>, o: nat): u32
    requires o + 4 <= |s|
  {
    Le16(s, o) as int + 0x1_0000 * (Le16(s, o + 2) as int)
  }

  function PutLe16(s: seq<byte>, o: nat, v: u16): (r: seq<byte>)
    requires o + 2 <= |s|
    ensures |r| == |s| && Le16(r, o) == v
    ensures forall i :: 0 <= i < |s| && !(o <= i < o + 2) ==> r[i] == s[i]
  {
    s[o := v % 0x100][o + 1 := v / 0x100]
  }

  function PutLe32(s: seq<byte>, o: nat, v: u32): (r: seq<byte>)
    requires o + 4 <= |s|
    ensures |r| == |s| && Le32(r, o) == v
    ensures forall i :: 0 <= i < |s| && !(o <= i < o + 4) ==> r[i] == s[i]
  {
    var hi := v / 0x1_0000;
    PutLe16(PutLe16(s, o, v % 0x1_0000), o + 2, hi)
  }

  /** Four bytes, the low one first. */
  lemma Le32Bytes(b0: byte, b1: byte, b2: byte, b3: byte)
    ensures Le32([b0, b1, b2, b3], 0) == b0 + 0x100 * b1 + 0x1_0000 * b2 + 0x100_0000 * b3
    ensures Le16([b0, b1], 0) == b0 + 0x100 * b1
  {
  }

  /** A word does not depend on where it lies. */
  lemma WordAnywhere(s: seq<byte>, o: nat)
    requires o + 4 <= |s|
    ensures Le32(s, o) == Le32([s[o], s[o + 1], s[o + 2], s[o + 3]], 0)
    ensures Le16(s, o) == Le16([s[o], s[o + 1]], 0)
  {
    var w := [s[o], s[o + 1], s[o + 2], s[o + 3]];
    assert w[0] == s[o] && w[1] == s[o + 1] && w[2] == s[o + 2] && w[3] == s[o + 3];
  }

  /** A block of zero bytes, as memset leaves it. */
  function Zeros(n: nat): (s: seq<byte>)
    ensures |s| == n && forall i :: 0 <= i < n ==> s[i] == 0
  {
    seq(n, _ => 0)
  }

  // ----- bitmaps

  function Pow2(n: nat): (p: nat)
    ensures p > 0
  {
    if n == 0 then 1 else 2 * Pow2(n - 1)
  }

  /** `x & (1 << k)`, as a truth value. */
  predicate Bit(x: nat, k: nat)
    decreases k
  {
    if k == 0 then x % 2 == 1 else Bit(x / 2, k - 1)
  }

  /** `x | (1 << k)` when `on`, `x & ~(1 << k)` otherwise. */
  function With(x: nat, k: nat, on: bool): (r: nat)
    ensures forall j: nat :: Bit(r, j) == if j == k then on else Bit(x, j)
    ensures forall n: nat {:trigger Pow2(n)} :: k < n && x < Pow2(n) ==> r < Pow2(n)
    decreases k
  {
    if k == 0 then x - x % 2 + if on then 1 else 0
    else
      var r := 2 * With(x / 2, k - 1, on) + x % 2;
      assert forall n: nat {:trigger Pow2(n)} :: k < n && x < Pow2(n) ==> x / 2 < Pow2(n - 1);
      r
  }

  /** Bit k weighs 2^k: `Bit` reads the binary digits. */
  lemma {:induction false} BitIsDigit(x: nat, k: nat)
    ensures Bit(x, k) <==> x / Pow2(k) % 2 == 1
    decreases k
  {
    if k > 0 {
      BitIsDigit(x / 2, k - 1);
      Arith.HalfDiv(x, Pow2(k - 1));
    }
  }

  /** Setting a clear bit adds its weight; with WithUndo, clearing it takes the weight away again. */
  lemma {:induction false} WithAdds(x: nat, k: nat)
    requires !Bit(x, k)
    ensures With(x, k, true) == x + Pow2(k)
    decreases k
  {
    if k > 0 {
      WithAdds(x / 2, k - 1);
    }
  }

  lemma {:induction false} AllOnes(n: nat, k: nat)
    requires k < n
    ensures Bit(Pow2(n) - 1, k)
    decreases n
  {
    assert (Pow2(n) - 1) / 2 == Pow2(n - 1) - 1;
    if k > 0 {
      AllOnes(n - 1, k - 1);
    }
  }

  lemma Byte256()
    ensures Pow2(8) == 0x100
  {
    assert Pow2(4) == 16;
  }

  predicate BitSet(bm: seq<byte>, i: nat)
    requires i < 8 * |bm|
  {
    Bit(bm[i / 8], i % 8)
  }

  /** set_bit and clear_bit. */
  function WithBit(bm: seq<byte>, i: nat, on: bool): (r: seq<byte>)
    requires i < 8 * |bm|
    ensures |r| == |bm|
    ensures forall j :: 0 <= j < 8 * |bm| ==> BitSet(r, j) == if j == i then on else BitSet(bm, j)
  {
    Byte256();
    var r := bm[i / 8 := With(bm[i / 8], i % 8, on)];
    assert forall j :: 0 <= j < 8 * |bm| && j / 8 == i / 8 && j % 8 == i % 8 ==> j == i;
    r
  }

  lemma {:induction false} WithUndo(x: nat, k: nat)
    requires !Bit(x, k)
    ensures With(With(x, k, true), k, false) == x
    decreases k
  {
    if k > 0 {
      WithUndo(x / 2, k - 1);
      assert With(x, k, true) / 2 == With(x / 2, k - 1, true);
    }
  }

  /** Clearing a bit just set restores the bitmap byte for byte. */
  lemma WithBitUndo(bm: seq<byte>, i: nat)
    requires i < 8 * |bm| && !BitSet(bm, i)
    ensures WithBit(WithBit(bm, i, true), i, false) == bm
  {
    WithUndo(bm[i / 8], i % 8);
  }

  /** Number of clear bits among the first `n`. */
  function CountClear(bm: seq<byte>, n: nat): nat
    requires n <= 8 * |bm|
  {
    if n == 0 then 0 else CountClear(bm, n - 1) + if BitSet(bm, n - 1) then 0 else 1
  }

  lemma {:induction false} CountClearPositive(bm: seq<byte>, n: nat)
    requires n <= 8 * |bm|
    ensures CountClear(bm, n) <= n
    ensures CountClear(bm, n) > 0 <==> exists i :: 0 <= i < n && !BitSet(bm, i)
  {
    if n > 0 {
      CountClearPositive(bm, n - 1);
    }
  }

  /** Flipping one bit moves the count by one, and only when the bit is counted. */
  lemma {:induction false} CountClearFlip(bm: seq<byte>, n: nat, i: nat, on: bool)
    requires n <= 8 * |bm| && i < 8 * |bm| && BitSet(bm, i) != on
    ensures CountClear(WithBit(bm, i, on), n)
         == CountClear(bm, n) + if i >= n then 0 else if on then -1 else 1
  {
    if n > 0 {
      CountClearFlip(bm, n - 1, i, on);
    }
  }

  lemma {:induction false} CountClearSame(a: seq<byte>, b: seq<byte>, n: nat)
    requires n <= 8 * |a| && n <= 8 * |b|
    requires forall i :: 0 <= i < n ==> BitSet(a, i) == BitSet(b, i)
    ensures CountClear(a, n) == CountClear(b, n)
  {
    if n > 0 {
      CountClearSame(a, b, n - 1);
    }
  }

  /** Scan for the first clear bit below `maxBits`; -1 when there is none. */
  method FindFirstZeroBit(bm: seq<byte>, maxBits: nat) returns (r: int)
    requires maxBits <= 8 * |bm|
    ensures r == -1 || 0 <= r < maxBits
    ensures 0 <= r ==> !BitSet(bm, r)
    ensures forall i :: 0 <= i < (if r == -1 then maxBits else r) ==> BitSet(bm, i)
  {
    for byt := 0 to |bm|
      invariant forall i :: 0 <= i < 8 * byt && i < maxBits ==> BitSet(bm, i)
    {
      if bm[byt] != 0xFF {
        for bit := 0 to 8
          invariant forall i :: 0 <= i < 8 * byt + bit && i < maxBits ==> BitSet(bm, i)
          invariant forall k :: 0 <= k < bit ==> Bit(bm[byt], k)
        {
          var index := byt * 8 + bit;
          if index >= maxBits {
            return -1;
          }
          assert index / 8 == byt && index % 8 == bit;
          if !Bit(bm[byt], bit) {
            return index;
          }
        }
      } else {
        Byte256();
        forall i | 8 * byt <= i < 8 * byt + 8 ensures BitSet(bm, i) { AllOnes(8, i % 8); }
      }
    }
    return -1;
  }
}
