/** Bits of ready masks, and __rt_ffs of src/kservice.c. */
module Bits {

  predicate Bit(v: nat, i: nat) { if i == 0 then v % 2 == 1 else Bit(v / 2, i - 1) }

  /** v | (1 << i) */
  function SetBit(v: nat, i: nat): nat {
    if i == 0 then 2 * (v / 2) + 1 else 2 * SetBit(v / 2, i - 1) + v % 2
  }

  /** v & ~(1 << i) */
  function ClearBit(v: nat, i: nat): nat {
    if i == 0 then 2 * (v / 2) else 2 * ClearBit(v / 2, i - 1) + v % 2
  }

  /** a | b */
  function Or(a: nat, b: nat): nat {
    if a == 0 && b == 0 then 0 else 2 * Or(a / 2, b / 2) + (if a % 2 == 1 || b % 2 == 1 then 1 else 0)
  }

  /** a & ~b */
  function AndNot(a: nat, b: nat): nat {
    if a == 0 then 0 else 2 * AndNot(a / 2, b / 2) + (if a % 2 == 1 && b % 2 == 0 then 1 else 0)
  }

  lemma {:induction false} OrSelf(a: nat)
    ensures Or(a, a) == a
    decreases a
  {
    if a > 0 { OrSelf(a / 2); }
  }

  lemma {:induction false} AndNotZero(a: nat)
    ensures AndNot(a, 0) == a
    decreases a
  {
    if a > 0 { AndNotZero(a / 2); }
  }

  function Pow2(n: nat): (p: nat)
    ensures p > 0
  {
    if n == 0 then 1 else 2 * Pow2(n - 1)
  }

  lemma {:induction false} Parts(q: nat, b: nat)
    requires b < 2
    ensures (2 * q + b) / 2 == q && (2 * q + b) % 2 == b
  {
  }

  lemma {:induction false} SetBitIs(v: nat, i: nat, j: nat)
    ensures Bit(SetBit(v, i), j) <==> j == i || Bit(v, j)
    decreases i
  {
    Parts(if i == 0 then v / 2 else SetBit(v / 2, i - 1), if i == 0 then 1 else v % 2);
    if i > 0 && j > 0 { SetBitIs(v / 2, i - 1, j - 1); }
  }

  lemma {:induction false} ClearBitIs(v: nat, i: nat, j: nat)
    ensures Bit(ClearBit(v, i), j) <==> j != i && Bit(v, j)
    decreases i
  {
    Parts(if i == 0 then v / 2 else ClearBit(v / 2, i - 1), if i == 0 then 0 else v % 2);
    if i > 0 && j > 0 { ClearBitIs(v / 2, i - 1, j - 1); }
  }

  lemma {:induction false} StaysBelow(v: nat, i: nat, n: nat)
    requires v < Pow2(n) && i < n
    ensures SetBit(v, i) < Pow2(n) && ClearBit(v, i) < Pow2(n)
    decreases i
  {
    hide Pow2;
    var p := Pow2(n - 1);
    Doubled(n);
    assert v / 2 < p;
    if i > 0 { StaysBelow(v / 2, i - 1, n - 1); }
  }

  lemma {:induction false} Doubled(n: nat)
    requires n > 0
    ensures Pow2(n) == 2 * Pow2(n - 1)
  {
  }

  lemma {:induction false} ZeroBit(i: nat)
    ensures !Bit(0, i)
    decreases i
  {
    if i > 0 { ZeroBit(i - 1); }
  }

  /** Clearing and setting a bit that is set gives the number back. */
  lemma {:induction false} SetAgain(v: nat, i: nat)
    requires Bit(v, i)
    ensures SetBit(v, i) == v && SetBit(ClearBit(v, i), i) == v
    decreases i
  {
    Parts(if i == 0 then v / 2 else ClearBit(v / 2, i - 1), if i == 0 then 0 else v % 2);
    if i > 0 { SetAgain(v / 2, i - 1); }
  }

  /** The lowest bit set. */
  function Low(v: nat): nat
    requires v > 0
  {
    if v % 2 == 1 then 0 else 1 + Low(v / 2)
  }

  lemma {:induction false} LowIs(v: nat)
    requires v > 0
    ensures Bit(v, Low(v)) && forall i: nat | i < Low(v) :: !Bit(v, i)
    decreases v
  {
    if v % 2 == 0 {
      LowIs(v / 2);
      forall i: nat | i < Low(v) ensures !Bit(v, i) { if i > 0 { assert !Bit(v / 2, i - 1); } }
    }
  }

  lemma {:induction false} LowBelow(v: nat, n: nat)
    requires 0 < v < Pow2(n)
    ensures Low(v) < n
    decreases n
  {
    if n > 0 && v % 2 == 0 { LowBelow(v / 2, n - 1); }
  }

  /** The lowest bit of a number is that of its last `k` bits, if they are not all zero. */
  lemma {:induction false} LowSplit(v: nat, k: nat)
    requires v > 0
    ensures v % Pow2(k) != 0 ==> Low(v) == Low(v % Pow2(k))
    ensures v % Pow2(k) == 0 ==> v / Pow2(k) > 0 && Low(v) == k + Low(v / Pow2(k))
    decreases k
  {
    if k > 0 {
      var p := Pow2(k - 1);
      Halves(v, p);
      if v % 2 == 0 { LowSplit(v / 2, k - 1); }
    }
  }

  lemma {:induction false} Halves(v: nat, p: nat)
    requires p > 0
    ensures v % (2 * p) == 2 * (v / 2 % p) + v % 2 && v / (2 * p) == v / 2 / p
  {
    var (q, r) := (v / 2 / p, v / 2 % p);
    assert v / 2 == q * p + r;
    assert v == 2 * p * q + (2 * r + v % 2);
    Divided(v, 2 * p, q, 2 * r + v % 2);
  }

  lemma {:induction false} Divided(v: nat, d: nat, q: nat, r: nat)
    requires d > 0 && v == d * q + r && r < d
    ensures v / d == q && v % d == r
  {
    var q' := v / d;
    assert v == d * q' + v % d;
    if q' < q { assert d * q >= d * (q' + 1) by { Grows(d, q' + 1, q); } }
    if q < q' { assert d * q' >= d * (q + 1) by { Grows(d, q + 1, q'); } }
  }

  lemma {:induction false} Grows(d: nat, a: nat, b: nat)
    requires a <= b
    ensures d * a <= d * b
  {
  }

  /** A row of __lowest_bit_bitmap. */
  function Row(first: nat): (r: seq<nat>)
    ensures |r| == 16
  {
    [first, 0, 1, 0, 2, 0, 1, 0, 3, 0, 1, 0, 2, 0, 1, 0]
  }

  /** __lowest_bit_bitmap, sixteen entries to a row; the rows differ in their first entry. */
  const LOWEST_BIT: seq<seq<nat>> := [
    Row(0), Row(4), Row(5), Row(4), Row(6), Row(4), Row(5), Row(4),
    Row(7), Row(4), Row(5), Row(4), Row(6), Row(4), Row(5), Row(4)]

  function Lookup(b: nat): nat
    requires b < 256
  {
    LOWEST_BIT[b / 16][b % 16]
  }

  lemma {:induction false} LowNibble(c: nat)
    requires 0 < c < 16
    ensures Low(c) == if c % 2 != 0 then 0 else if c % 4 != 0 then 1 else if c % 8 != 0 then 2 else 3
  {
    if c % 2 == 0 { LowNibble(c / 2); }
  }

  lemma {:induction false} RowIs(first: nat, c: nat)
    requires 0 < c < 16
    ensures Row(first)[c] == Low(c)
  {
    hide Low;
    LowNibble(c);
  }

  lemma {:induction false} RowsAre(r: nat)
    requires r < 16
    ensures LOWEST_BIT[r] == Row(if r == 0 then 0 else 4 + Low(r))
  {
    hide Low, Row;
    if r > 0 { LowNibble(r); }
  }

  /** The table gives the lowest bit of every byte. */
  lemma {:induction false} LookupIs(b: nat)
    requires 0 < b < 256
    ensures Lookup(b) == Low(b)
  {
    var (r, c) := (b / 16, b % 16);
    assert Pow2(4) == 16;
    LowSplit(b, 4);
    RowsAre(r);
    if c > 0 { RowIs(if r == 0 then 0 else 4 + Low(r), c); }
  }

  /** __rt_ffs on 32 bits. */
  function Ffs(v: nat): nat
    requires v < 0x1_0000_0000
  {
    if v == 0 then 0
    else if v % 0x100 != 0 then Lookup(v % 0x100) + 1
    else if v / 0x100 % 0x100 != 0 then Lookup(v / 0x100 % 0x100) + 9
    else if v / 0x1_0000 % 0x100 != 0 then Lookup(v / 0x1_0000 % 0x100) + 17
    else Lookup(v / 0x100_0000) + 25
  }

  /** It finds the lowest bit, counted from 1, and answers 0 for 0. */
  lemma {:induction false} FfsIs(v: nat)
    requires v < 0x1_0000_0000
    ensures Ffs(v) == if v == 0 then 0 else Low(v) + 1
  {
    hide Low, Lookup;
    assert Pow2(8) == 0x100;
    if v > 0 {
      LowSplit(v, 8);
      if v % 0x100 != 0 {
        LookupIs(v % 0x100);
      } else {
        var v1 := v / 0x100;
        LowSplit(v1, 8);
        if v1 % 0x100 != 0 {
          LookupIs(v1 % 0x100);
        } else {
          var v2 := v1 / 0x100;
          assert v2 == v / 0x1_0000;
          LowSplit(v2, 8);
          if v2 % 0x100 != 0 {
            LookupIs(v2 % 0x100);
          } else {
            assert v2 / 0x100 == v / 0x100_0000;
            LookupIs(v2 / 0x100);
          }
        }
      }
    }
  }
}
