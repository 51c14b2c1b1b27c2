/** Unsigned words as sets of bits, and the search for the lowest one (__rt_ffs in kservice.c).
    Bitwise operations are written as arithmetic on the value of the word. */
module Bitmaps {
  import opened Arithmetic

  /** (g >> p) & 1 */
  predicate Bit(g: nat, p: nat)
    decreases p
  {
    if p == 0 then g % 2 == 1 else Bit(g / 2, p - 1)
  }

  /** g | 1 << p */
  function With(g: nat, p: nat): nat
    decreases p
  {
    if p == 0 then g / 2 * 2 + 1 else 2 * With(g / 2, p - 1) + g % 2
  }

  /** g & ~(1 << p) */
  function Without(g: nat, p: nat): nat
    decreases p
  {
    if p == 0 then g / 2 * 2 else 2 * Without(g / 2, p - 1) + g % 2
  }

  function TwoTo(n: nat): nat { if n == 0 then 1 else 2 * TwoTo(n - 1) }

  ghost function Bits(g: nat, width: nat): set<nat> { set p: nat | p < width && Bit(g, p) }

  /** Setting a bit changes that bit alone, and so does clearing it. */
  lemma {:induction false} OneBitSet(g: nat, p: nat, q: nat)
    ensures Bit(With(g, p), q) <==> Bit(g, q) || q == p
    decreases p
  {
    Doubled(if p == 0 then g / 2 else With(g / 2, p - 1), g % 2);
    if p > 0 && q > 0 { OneBitSet(g / 2, p - 1, q - 1); }
  }

  lemma {:induction false} OneBitCleared(g: nat, p: nat, q: nat)
    ensures Bit(Without(g, p), q) <==> Bit(g, q) && q != p
    decreases p
  {
    Doubled(if p == 0 then g / 2 else Without(g / 2, p - 1), g % 2);
    if p > 0 && q > 0 { OneBitCleared(g / 2, p - 1, q - 1); }
  }

  lemma Doubled(a: nat, r: nat)
    requires r < 2
    ensures (2 * a + r) / 2 == a && (2 * a + r) % 2 == r
  {
  }

  lemma {:induction false} InWidth(g: nat, p: nat, width: nat)
    requires g < TwoTo(width) && p < width
    ensures With(g, p) < TwoTo(width) && Without(g, p) < TwoTo(width)
    decreases p
  {
    if p > 0 { InWidth(g / 2, p - 1, width - 1); }
  }

  lemma SetAndClear(g: nat, p: nat, width: nat)
    requires p < width
    ensures Bits(With(g, p), width) == Bits(g, width) + {p}
    ensures Bits(Without(g, p), width) == Bits(g, width) - {p}
  {
    forall q: nat | q < width
      ensures (Bit(With(g, p), q) <==> Bit(g, q) || q == p) && (Bit(Without(g, p), q) <==> Bit(g, q) && q != p)
    {
      OneBitSet(g, p, q);
      OneBitCleared(g, p, q);
    }
  }

  // ----- __rt_ffs

  /** __lowest_bit_bitmap: sixteen rows alike but for their first entry. */
  const ROW: seq<nat> := [0, 0, 1, 0, 2, 0, 1, 0, 3, 0, 1, 0, 2, 0, 1, 0]
  const FIRST_COLUMN: seq<nat> := [0, 4, 5, 4, 6, 4, 5, 4, 7, 4, 5, 4, 6, 4, 5, 4]

  function LowestBit(b: nat): (i: nat)
    requires b < 256
    ensures i < 8
  {
    if b % 16 == 0 then FIRST_COLUMN[b / 16] else ROW[b % 16]
  }

  function Ffs(value: nat): (i: nat)
    requires value < 0x1_0000_0000
    ensures i <= 32 && (i == 0 <==> value == 0)
  {
    if value == 0 then 0
    else if value % 0x100 != 0 then LowestBit(value % 0x100) + 1
    else if value / 0x100 % 0x100 != 0 then LowestBit(value / 0x100 % 0x100) + 9
    else if value / 0x1_0000 % 0x100 != 0 then LowestBit(value / 0x1_0000 % 0x100) + 17
    else LowestBit(value / 0x100_0000) + 25
  }

  /** The smallest set bit, found one by one. */
  function Low(n: nat): nat
    requires n > 0
  {
    if n % 2 == 1 then 0 else 1 + Low(n / 2)
  }

  ghost predicate First(value: nat, i: nat) { Bit(value, i) && forall q: nat :: q < i ==> !Bit(value, q) }

  lemma {:induction false} LowIsFirst(n: nat)
    requires n > 0
    ensures First(n, Low(n))
  {
    if n % 2 == 0 {
      LowIsFirst(n / 2);
      forall q: nat | q < Low(n) ensures !Bit(n, q) { assert q == 0 || !Bit(n / 2, q - 1); }
    }
  }

  lemma HalfOf(n: int, s: int, r: int)
    requires n == 2 * s + r
    ensures n % 2 == r % 2 && n / 2 == s + r / 2
  {
  }

  lemma TwiceTimes(m: nat, q: nat)
    ensures 2 * m * q == 2 * (m * q)
  {
  }

  /** The lowest bit of q * 2^k + r is that of r, or of q shifted if r is 0. */
  lemma {:induction false} LowOfPart(n: nat, k: nat, q: nat, r: nat)
    requires n > 0 && n == TwoTo(k) * q + r && r < TwoTo(k)
    ensures r != 0 ==> Low(n) == Low(r)
    ensures r == 0 ==> q > 0 && Low(n) == k + Low(q)
    decreases k
  {
    if k == 0 {
      assert n == q;
    } else {
      TwiceTimes(TwoTo(k - 1), q);
      HalfOf(n, TwoTo(k - 1) * q, r);
      if n % 2 == 0 { LowOfPart(n / 2, k - 1, q, r / 2); }
    }
  }

  lemma LowOfTable(b: nat)
    requires 0 < b < 256
    ensures LowestBit(b) == Low(b) < 8
  {
    assert TwoTo(4) == 16;
    LowOfPart(b, 4, b / 16, b % 16);
    if b % 16 != 0 { Nibble(b % 16); } else { Nibble(b / 16); }
  }

  lemma Nibble(n: nat)
    requires 0 < n < 16
    ensures ROW[n] == Low(n) < 4 && FIRST_COLUMN[n] == 4 + Low(n)
  {
    assert Low(1) == 0 && Low(2) == 1 && Low(4) == 2;
    assert n == 8 ==> Low(n) == 1 + Low(4);
    assert n == 4 || n == 12 ==> Low(n / 2) == 1;
  }

  lemma LowOfByte(n: nat)
    requires n > 0
    ensures n % 256 != 0 ==> Low(n) == Low(n % 256)
    ensures n % 256 == 0 ==> Low(n) == 8 + Low(n / 256)
  {
    assert TwoTo(4) == 16;
    assert TwoTo(8) == 16 * TwoTo(4);
    LowOfPart(n, 8, n / 256, n % 256);
  }

  lemma FfsOfByte(n: nat)
    requires n > 0
    ensures n % 0x100 != 0 ==> LowestBit(n % 0x100) == Low(n)
    ensures n % 0x100 == 0 ==> Low(n) == 8 + Low(n / 0x100)
  {
    LowOfByte(n);
    if n % 0x100 != 0 { LowOfTable(n % 0x100); }
  }

  lemma Shifts(value: nat, v1: nat, v2: nat, v3: nat)
    requires 0 < value < 0x1_0000_0000 && v1 == value / 0x100 && v2 == v1 / 0x100 && v3 == v2 / 0x100
    ensures v2 == value / 0x1_0000 && v3 == value / 0x100_0000 && v3 < 0x100
    ensures value % 0x100 == 0 ==> v1 > 0
    ensures value % 0x100 == 0 && v1 % 0x100 == 0 ==> v2 > 0
    ensures value % 0x100 == 0 && v1 % 0x100 == 0 && v2 % 0x100 == 0 ==> v3 > 0
  {
  }

  lemma FfsIsLow(value: nat)
    requires 0 < value < 0x1_0000_0000
    ensures Ffs(value) == Low(value) + 1
  {
    var v1 := value / 0x100;
    var v2 := v1 / 0x100;
    var v3 := v2 / 0x100;
    Shifts(value, v1, v2, v3);
    if value % 0x100 != 0 {
      FfsOfByte(value);
    } else if v1 % 0x100 != 0 {
      SecondByte(value, v1);
    } else {
      HighBytes(value, v1, v2, v3);
    }
  }

  lemma SecondByte(value: nat, v1: nat)
    requires 0 < v1 == value / 0x100 && value % 0x100 == 0 && v1 % 0x100 != 0
    ensures Low(value) == 8 + LowestBit(v1 % 0x100)
  {
    FfsOfByte(value);
    FfsOfByte(v1);
  }

  lemma HighBytes(value: nat, v1: nat, v2: nat, v3: nat)
    requires 0 < value && v1 == value / 0x100 > 0 && v2 == v1 / 0x100 > 0 && v3 == v2 / 0x100 < 0x100
    requires value % 0x100 == 0 && v1 % 0x100 == 0 && (v2 % 0x100 == 0 ==> v3 > 0)
    ensures Low(value) == if v2 % 0x100 != 0 then 16 + LowestBit(v2 % 0x100) else 24 + LowestBit(v3)
  {
    LowOfByte(value);
    LowOfByte(v1);
    TopBytes(v2, v3);
  }

  lemma TopBytes(v2: nat, v3: nat)
    requires v2 > 0 && v3 == v2 / 0x100 < 0x100 && (v2 % 0x100 == 0 ==> v3 > 0)
    ensures Low(v2) == if v2 % 0x100 != 0 then LowestBit(v2 % 0x100) else 8 + LowestBit(v3)
  {
    FfsOfByte(v2);
    if v2 % 0x100 == 0 { LowOfTable(v3); }
  }

  /** The table search finds the smallest set bit, counted from one; zero for no bit. */
  lemma FfsSpec(value: nat)
    requires value < 0x1_0000_0000
    ensures if value == 0 then Ffs(value) == 0 else 0 < Ffs(value) <= 32 && First(value, Ffs(value) - 1)
  {
    if value > 0 {
      FfsIsLow(value);
      LowIsFirst(value);
      WordWidth();
      LowInWidth(value, 32);
    }
  }

  lemma WordWidth()
    ensures TwoTo(8) == 0x100 && TwoTo(32) == 0x1_0000_0000
  {
    assert TwoTo(4) == 16;
    PowerAdd(4, 4);
    PowerAdd(8, 8);
    PowerAdd(16, 16);
  }

  lemma {:induction false} PowerAdd(m: nat, n: nat)
    ensures TwoTo(m + n) == TwoTo(m) * TwoTo(n)
    decreases m
  {
    if m > 0 { PowerAdd(m - 1, n); }
  }

  lemma {:induction false} NoBits(g: nat, width: nat)
    requires g < TwoTo(width)
    ensures g == 0 <==> Bits(g, width) == {}
  {
    if g > 0 {
      LowIsFirst(g);
      LowInWidth(g, width);
      assert Low(g) in Bits(g, width);
    } else {
      forall p: nat ensures !Bit(0, p) { ZeroBit(p); }
    }
  }

  lemma {:induction false} LowInWidth(g: nat, width: nat)
    requires 0 < g < TwoTo(width)
    ensures Low(g) < width
    decreases width
  {
    if g % 2 == 0 { LowInWidth(g / 2, width - 1); }
  }

  lemma {:induction false} ZeroBit(p: nat)
    ensures !Bit(0, p)
  {
    if p > 0 { ZeroBit(p - 1); }
  }
}
