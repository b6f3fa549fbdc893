/** Fixed-width register values and the bit-range arithmetic that every
    register accessor of the Debug Capability and the Extended Message
    Interrupt capability is built from.

    A register value is a natural number below 2^width. A field is the
    inclusive bit range lo..=hi of it, as in the `get_bits`/`set_bits`
    calls of the `bit_field` crate. */
module Bits {

  type U8 = x: nat | x < 0x100
  type U16 = x: nat | x < 0x1_0000
  type U32 = x: nat | x < 0x1_0000_0000
  type U64 = x: nat | x < 0x1_0000_0000_0000_0000

  function Pow2(n: nat): (r: nat)
    ensures r >= 1
  {
    if n == 0 then 1 else 2 * Pow2(n - 1)
  }

  /** The powers of two that register widths and bit positions need, as
      literals. */
  lemma Pow2Values()
    ensures Pow2(0) == 0x1
    ensures Pow2(1) == 0x2
    ensures Pow2(2) == 0x4
    ensures Pow2(3) == 0x8
    ensures Pow2(4) == 0x10
    ensures Pow2(5) == 0x20
    ensures Pow2(6) == 0x40
    ensures Pow2(7) == 0x80
    ensures Pow2(8) == 0x100
    ensures Pow2(9) == 0x200
    ensures Pow2(10) == 0x400
    ensures Pow2(11) == 0x800
    ensures Pow2(12) == 0x1000
    ensures Pow2(13) == 0x2000
    ensures Pow2(14) == 0x4000
    ensures Pow2(15) == 0x8000
    ensures Pow2(16) == 0x1_0000
    ensures Pow2(17) == 0x2_0000
    ensures Pow2(18) == 0x4_0000
    ensures Pow2(19) == 0x8_0000
    ensures Pow2(20) == 0x10_0000
    ensures Pow2(21) == 0x20_0000
    ensures Pow2(22) == 0x40_0000
    ensures Pow2(23) == 0x80_0000
    ensures Pow2(24) == 0x100_0000
    ensures Pow2(25) == 0x200_0000
    ensures Pow2(26) == 0x400_0000
    ensures Pow2(27) == 0x800_0000
    ensures Pow2(28) == 0x1000_0000
    ensures Pow2(29) == 0x2000_0000
    ensures Pow2(30) == 0x4000_0000
    ensures Pow2(31) == 0x8000_0000
    ensures Pow2(32) == 0x1_0000_0000
    ensures Pow2(33) == 0x2_0000_0000
    ensures Pow2(34) == 0x4_0000_0000
    ensures Pow2(35) == 0x8_0000_0000
    ensures Pow2(36) == 0x10_0000_0000
    ensures Pow2(37) == 0x20_0000_0000
    ensures Pow2(38) == 0x40_0000_0000
    ensures Pow2(39) == 0x80_0000_0000
    ensures Pow2(40) == 0x100_0000_0000
    ensures Pow2(41) == 0x200_0000_0000
    ensures Pow2(42) == 0x400_0000_0000
    ensures Pow2(43) == 0x800_0000_0000
    ensures Pow2(44) == 0x1000_0000_0000
    ensures Pow2(45) == 0x2000_0000_0000
    ensures Pow2(46) == 0x4000_0000_0000
    ensures Pow2(47) == 0x8000_0000_0000
    ensures Pow2(48) == 0x1_0000_0000_0000
    ensures Pow2(49) == 0x2_0000_0000_0000
    ensures Pow2(50) == 0x4_0000_0000_0000
    ensures Pow2(51) == 0x8_0000_0000_0000
    ensures Pow2(52) == 0x10_0000_0000_0000
    ensures Pow2(53) == 0x20_0000_0000_0000
    ensures Pow2(54) == 0x40_0000_0000_0000
    ensures Pow2(55) == 0x80_0000_0000_0000
    ensures Pow2(56) == 0x100_0000_0000_0000
    ensures Pow2(57) == 0x200_0000_0000_0000
    ensures Pow2(58) == 0x400_0000_0000_0000
    ensures Pow2(59) == 0x800_0000_0000_0000
    ensures Pow2(60) == 0x1000_0000_0000_0000
    ensures Pow2(61) == 0x2000_0000_0000_0000
    ensures Pow2(62) == 0x4000_0000_0000_0000
    ensures Pow2(63) == 0x8000_0000_0000_0000
    ensures Pow2(64) == 0x1_0000_0000_0000_0000
  {
  }

  /** `x >> n`. */
  function Shr(x: nat, n: nat): (q: nat)
  {
    DivNonneg(x, Pow2(n));
    x / Pow2(n)
  }

  /** Bits lo..=hi of x, shifted down to bit 0: `x.get_bits(lo..=hi)`. */
  function GetBits(x: nat, lo: nat, hi: nat): (r: nat)
    requires lo <= hi
    ensures r < Pow2(hi - lo + 1)
  {
    Shr(x, lo) % Pow2(hi - lo + 1)
  }

  /** `x.set_bits(lo..=hi, v)` on a register of `width` bits. The crate
      panics unless the range lies inside the register and v fits the
      range; those are the preconditions. Characterised by what it does
      to the three parts of x: the field becomes v, the bits above and
      below it are kept. */
  function SetBits(width: nat, x: nat, lo: nat, hi: nat, v: nat): (r: nat)
    requires x < Pow2(width) && lo <= hi < width
    requires v < Pow2(hi - lo + 1)
    ensures r < Pow2(width)
    ensures GetBits(r, lo, hi) == v
    ensures Shr(r, hi + 1) == Shr(x, hi + 1)
    ensures r % Pow2(lo) == x % Pow2(lo)
  {
    var r := Shr(x, hi + 1) * Pow2(hi + 1) + v * Pow2(lo) + x % Pow2(lo);
    SplitUnique(r, lo, hi, Shr(x, hi + 1), v, x % Pow2(lo));
    SetBitsBound(width, x, lo, hi, v);
    r
  }

  /** Bit i of x read as a flag, `x.get_bit(i)`: set exactly when x modulo
      2^(i+1) reaches 2^i. */
  function GetBit(x: nat, i: nat): (b: bool)
    ensures b <==> x % Pow2(i + 1) >= Pow2(i)
  {
    GetBitsMaskThenShift(x, i, i);
    var m, p := x % Pow2(i + 1), Pow2(i);
    assert Pow2(i + 1) == 2 * p;
    if m >= p then
      DivModUnique(m, p, 1, m - p);
      GetBits(x, i, i) == 1
    else
      DivModUnique(m, p, 0, m);
      GetBits(x, i, i) == 1
  }

  /** A single bit written from a flag. */
  function SetBit(width: nat, x: nat, i: nat, b: bool): (r: nat)
    requires x < Pow2(width) && i < width
    ensures r < Pow2(width)
    ensures GetBit(r, i) == b
  {
    SetBits(width, x, i, i, if b then 1 else 0)
  }

  /** Bitwise AND of two naturals, bit by bit from the least significant. */
  function BitAnd(x: nat, y: nat): (r: nat)
    ensures r <= x && r <= y
    decreases x
  {
    if x == 0 || y == 0 then 0
    else 2 * BitAnd(x / 2, y / 2) + (if x % 2 == 1 && y % 2 == 1 then 1 else 0)
  }

  /** Bitwise NOT of m inside a register of `width` bits (`!m`): every
      bit below the width flipped. */
  function BitNot(width: nat, m: nat): (r: nat)
    requires m < Pow2(width)
    ensures r < Pow2(width)
    ensures forall i: nat :: i < width ==> GetBit(r, i) == !GetBit(m, i)
  {
    ComplementFlipsBits(width, m);
    Pow2(width) - 1 - m
  }

  /** `x.trailing_zeros()` for an unsigned integer of `width` bits; zero
      has `width` trailing zeros. */
  function TrailingZeros(width: nat, x: nat): (r: nat)
    requires x < Pow2(width)
    ensures r <= width
    ensures x != 0 ==> r < width
    decreases width
  {
    if x == 0 then width
    else if x % 2 == 1 then 0
    else 1 + TrailingZeros(width - 1, x / 2)
  }

  // ---------------------------------------------------------------------
  // Division and remainder by arbitrary positive divisors. The lemmas
  // about fields below instantiate these with powers of two; keeping the
  // arithmetic away from Pow2's recursive definition keeps it cheap.

  lemma DivNonneg(x: nat, d: nat)
    requires d > 0
    ensures x / d >= 0
  {
  }

  lemma MulAssoc(a: int, b: int, c: int)
    ensures a * (b * c) == (a * b) * c
  {
  }

  lemma MulComm(a: int, b: int)
    ensures a * b == b * a
  {
  }

  lemma MulLeft(a: nat, b: nat, c: nat)
    requires a <= b
    ensures a * c <= b * c
  {
  }

  /** A two-digit number in radix a stays below b * a. */
  lemma MixedRadixBound(h: nat, l: nat, a: nat, b: nat)
    requires h < b && l < a
    ensures h * a + l < b * a
  {
    MulLeft(h, b - 1, a);
  }

  /** Regrouping a two-digit number written in radices b and a. */
  lemma MixedRadixRegroup(q: int, b: int, r: int, a: int, l: int)
    ensures (q * b + r) * a + l == q * (b * a) + r * a + l
  {
  }

  /** Quotient and remainder are determined by any decomposition x == q * d + r with r < d. */
  lemma DivModUnique(x: nat, d: nat, q: nat, r: nat)
    requires d > 0 && r < d && x == q * d + r
    ensures x / d == q && x % d == r
  {
    var q', r' := x / d, x % d;
    assert x == q' * d + r';
    if q' < q {
      MulLeft(q' + 1, q, d);
      assert false;
    } else if q < q' {
      MulLeft(q + 1, q', d);
      assert false;
    }
  }

  lemma DivDiv(x: nat, a: nat, b: nat)
    requires a > 0 && b > 0
    ensures x / a / b == x / (b * a)
  {
    var q1, r1 := x / a, x % a;
    var q2, r2 := q1 / b, q1 % b;
    assert x == q1 * a + r1;
    assert q1 == q2 * b + r2;
    MixedRadixRegroup(q2, b, r2, a, r1);
    MixedRadixBound(r2, r1, a, b);
    DivModUnique(x, b * a, q2, r2 * a + r1);
  }

  /** A number below b * a has a quotient by a below b. */
  lemma QuotientBelow(x: nat, a: nat, b: nat)
    requires a > 0 && x < b * a
    ensures x / a < b
  {
    if x / a >= b {
      MulLeft(b, x / a, a);
      assert false;
    }
  }

  /** x in radices pl (low part), pw (field) and ph == pw * pl (high part). */
  lemma RadixSplit(x: nat, pl: nat, pw: nat, ph: nat)
    requires pl > 0 && pw > 0 && ph == pw * pl
    ensures x == (x / ph) * ph + ((x / pl) % pw) * pl + x % pl
  {
    var z, l := x / pl, x % pl;
    var h, f := z / pw, z % pw;
    assert x == z * pl + l;
    assert z == h * pw + f;
    DivDiv(x, pl, pw);
    MixedRadixRegroup(h, pw, f, pl, l);
  }

  /** The decomposition of RadixSplit is unique. */
  lemma RadixSplitUnique(x: nat, pl: nat, pw: nat, ph: nat, h: nat, f: nat, l: nat)
    requires pl > 0 && pw > 0 && ph == pw * pl
    requires f < pw && l < pl && x == h * ph + f * pl + l
    ensures x / ph == h && (x / pl) % pw == f && x % pl == l
  {
    MixedRadixRegroup(h, pw, f, pl, l);
    MixedRadixBound(f, l, pl, pw);
    DivModUnique(x, pl, h * pw + f, l);
    DivModUnique(h * pw + f, pw, h, f);
    DivDiv(x, pl, pw);
  }

  /** Replacing the middle digit keeps the number below pt * ph. */
  lemma RadixReplaceBound(x: nat, v: nat, pl: nat, pw: nat, ph: nat, pt: nat)
    requires pl > 0 && pw > 0 && pt > 0 && ph == pw * pl
    requires x < pt * ph && v < pw
    ensures (x / ph) * ph + v * pl + x % pl < pt * ph
  {
    MixedRadixBound(v, x % pl, pl, pw);
    QuotientBelow(x, ph, pt);
    MixedRadixBound(x / ph, v * pl + x % pl, ph, pt);
  }

  /** A middle digit below radix pb is not affected by the digits from pn == pt * pb up. */
  lemma RadixLowPart(y: nat, pa: nat, pw: nat, pb: nat, pt: nat, pn: nat)
    requires pa > 0 && pw > 0 && pt > 0 && pb == pw * pa && pn == pt * pb
    ensures (y / pa) % pw == ((y % pn) / pa) % pw
  {
    var q, r := y / pn, y % pn;
    var k := q * pt;
    assert y == (k * pw) * pa + r by {
      MulAssoc(pt, pw, pa);
      MulAssoc(q, pt * pw, pa);
      MulAssoc(q, pt, pw);
    }
    DivAddMultiple(k * pw, r, pa);
    ModAddMultiple(k, r / pa, pw);
  }

  lemma DivAddMultiple(k: nat, r: nat, d: nat)
    requires d > 0
    ensures (k * d + r) / d == k + r / d
  {
    MixedRadixRegroup(0, 1, k, d, r);
    DivModUnique(k * d + r, d, k + r / d, r % d);
  }

  lemma ModAddMultiple(k: nat, s: nat, d: nat)
    requires d > 0
    ensures (k * d + s) % d == s % d
  {
    DivModUnique(k * d + s, d, k + s / d, s % d);
  }

  /** Cutting at radix ph, then dividing by pl, reads the middle digit. */
  lemma RadixMaskThenShift(x: nat, pl: nat, pw: nat, ph: nat)
    requires pl > 0 && pw > 0 && ph == pw * pl
    ensures (x / pl) % pw == (x % ph) / pl
  {
    var m := x % ph;
    RadixLowPart(x, pl, pw, ph, 1, ph);
    RadixSplit(m, pl, pw, ph);
    DivModUnique(m, ph, 0, m);
    DivModUnique(m, pl, (m / pl) % pw, m % pl);
  }

  /** x % (2 * p) in terms of the lowest bit of x and the rest of x. */
  lemma RadixHalveStep(x: nat, p: nat)
    requires p > 0
    ensures x % (2 * p) == 2 * ((x / 2) % p) + x % 2
  {
    var q, s := (x / 2) / p, (x / 2) % p;
    assert x / 2 == q * p + s;
    assert x == 2 * (x / 2) + x % 2;
    MixedRadixRegroup(q, p, s, 2, x % 2);
    MixedRadixBound(s, x % 2, 2, p);
    MulComm(p, 2);
    DivModUnique(x, 2 * p, q, s * 2 + x % 2);
  }

  // ---------------------------------------------------------------------
  // Powers of two.

  lemma {:induction false} Pow2Add(a: nat, b: nat)
    ensures Pow2(a + b) == Pow2(b) * Pow2(a)
    decreases a
  {
    if a > 0 {
      Pow2Add(a - 1, b);
      MulAssoc(2, Pow2(b), Pow2(a - 1));
      MulComm(2, Pow2(b));
    }
  }

  /** x % 2^n in terms of the lowest bit of x and the rest of x. */
  lemma ModPow2Step(x: nat, n: nat)
    requires n >= 1
    ensures x % Pow2(n) == 2 * ((x / 2) % Pow2(n - 1)) + x % 2
  {
    RadixHalveStep(x, Pow2(n - 1));
  }

  // ---------------------------------------------------------------------
  // The three-part decomposition of a register around a field.

  /** x is made of the bits above hi, the field lo..=hi and the bits below lo. */
  lemma Split(x: nat, lo: nat, hi: nat)
    requires lo <= hi
    ensures x == Shr(x, hi + 1) * Pow2(hi + 1) + GetBits(x, lo, hi) * Pow2(lo) + x % Pow2(lo)
  {
    Pow2Add(lo, hi - lo + 1);
    RadixSplit(x, Pow2(lo), Pow2(hi - lo + 1), Pow2(hi + 1));
  }

  /** The decomposition of Split is the only one with a field below 2^w and a low part below 2^lo. */
  lemma SplitUnique(x: nat, lo: nat, hi: nat, h: nat, f: nat, l: nat)
    requires lo <= hi && f < Pow2(hi - lo + 1) && l < Pow2(lo)
    requires x == h * Pow2(hi + 1) + f * Pow2(lo) + l
    ensures Shr(x, hi + 1) == h
    ensures GetBits(x, lo, hi) == f
    ensures x % Pow2(lo) == l
  {
    Pow2Add(lo, hi - lo + 1);
    RadixSplitUnique(x, Pow2(lo), Pow2(hi - lo + 1), Pow2(hi + 1), h, f, l);
  }

  lemma SetBitsBound(width: nat, x: nat, lo: nat, hi: nat, v: nat)
    requires x < Pow2(width) && lo <= hi < width
    requires v < Pow2(hi - lo + 1)
    ensures Shr(x, hi + 1) * Pow2(hi + 1) + v * Pow2(lo) + x % Pow2(lo) < Pow2(width)
  {
    Pow2Add(lo, hi - lo + 1);
    Pow2Add(hi + 1, width - hi - 1);
    RadixReplaceBound(x, v, Pow2(lo), Pow2(hi - lo + 1), Pow2(hi + 1), Pow2(width - hi - 1));
  }

  // ---------------------------------------------------------------------
  // Field isolation.

  /** A field below bit n depends only on the bits below n. */
  lemma LowField(y: nat, n: nat, a: nat, b: nat)
    requires a <= b < n
    ensures GetBits(y, a, b) == GetBits(y % Pow2(n), a, b)
  {
    Pow2Add(a, b - a + 1);
    Pow2Add(b + 1, n - b - 1);
    RadixLowPart(y, Pow2(a), Pow2(b - a + 1), Pow2(b + 1), Pow2(n - b - 1), Pow2(n));
  }

  /** A field at or above bit n depends only on the bits from n up. */
  lemma HighField(y: nat, n: nat, a: nat, b: nat)
    requires n <= a <= b
    ensures GetBits(y, a, b) == GetBits(Shr(y, n), a - n, b - n)
  {
    Pow2Add(n, a - n);
    DivDiv(y, Pow2(n), Pow2(a - n));
  }

  /** Setting one field leaves every field outside its range as it was. */
  lemma SetBitsKeepsField(width: nat, x: nat, lo: nat, hi: nat, v: nat, a: nat, b: nat)
    requires x < Pow2(width) && lo <= hi < width
    requires v < Pow2(hi - lo + 1)
    requires a <= b && (b < lo || hi < a)
    ensures GetBits(SetBits(width, x, lo, hi, v), a, b) == GetBits(x, a, b)
  {
    var r := SetBits(width, x, lo, hi, v);
    if b < lo {
      LowField(r, lo, a, b);
      LowField(x, lo, a, b);
    } else {
      HighField(r, hi + 1, a, b);
      HighField(x, hi + 1, a, b);
    }
  }

  /** Setting a field changes no bit outside its range. */
  lemma SetBitsKeepsOtherBits(width: nat, x: nat, lo: nat, hi: nat, v: nat)
    requires x < Pow2(width) && lo <= hi < width
    requires v < Pow2(hi - lo + 1)
    ensures forall i: nat :: (i < lo || hi < i) ==> GetBit(SetBits(width, x, lo, hi, v), i) == GetBit(x, i)
  {
    forall i: nat | i < lo || hi < i
      ensures GetBit(SetBits(width, x, lo, hi, v), i) == GetBit(x, i)
    {
      SetBitsKeepsField(width, x, lo, hi, v, i, i);
    }
  }

  // ---------------------------------------------------------------------
  // Other formulations of the same operations.

  /** The crate's own formulation of `get_bits`: drop the bits above hi
      (a left shift), then the bits below lo (a right shift). */
  lemma GetBitsMaskThenShift(x: nat, lo: nat, hi: nat)
    requires lo <= hi
    ensures GetBits(x, lo, hi) == (x % Pow2(hi + 1)) / Pow2(lo)
  {
    Pow2Add(lo, hi - lo + 1);
    RadixMaskThenShift(x, Pow2(lo), Pow2(hi - lo + 1), Pow2(hi + 1));
  }

  /** Bit i + 1 of x is bit i of x / 2. */
  lemma GetBitHalve(x: nat, i: nat)
    ensures GetBit(x, i + 1) == GetBit(x / 2, i)
  {
    ShrShr(x, 1, i);
  }

  /** Subtracting m from the all-ones value of `width` bits flips bit i of
      m, for every bit i below the width. */
  lemma {:induction false} ComplementFlipsBit(width: nat, m: nat, i: nat)
    requires m < Pow2(width) && i < width
    ensures GetBit(Pow2(width) - 1 - m, i) == !GetBit(m, i)
    decreases i
  {
    var q := Pow2(width - 1);
    var c := Pow2(width) - 1 - m;
    assert Pow2(width) == 2 * q;
    DivModUnique(m, 2, m / 2, m % 2);
    DivModUnique(c, 2, q - 1 - m / 2, 1 - m % 2);
    if i > 0 {
      QuotientBelow(m, 2, q);
      GetBitHalve(c, i - 1);
      GetBitHalve(m, i - 1);
      ComplementFlipsBit(width - 1, m / 2, i - 1);
    }
  }

  lemma ComplementFlipsBits(width: nat, m: nat)
    requires m < Pow2(width)
    ensures forall i: nat :: i < width ==> GetBit(Pow2(width) - 1 - m, i) == !GetBit(m, i)
  {
    forall i: nat | i < width
      ensures GetBit(Pow2(width) - 1 - m, i) == !GetBit(m, i)
    {
      ComplementFlipsBit(width, m, i);
    }
  }

  /** Two `width`-bit values that agree on every bit are equal. */
  lemma {:induction false} BitsExtensional(width: nat, x: nat, y: nat)
    requires x < Pow2(width) && y < Pow2(width)
    requires forall i: nat :: i < width ==> GetBit(x, i) == GetBit(y, i)
    ensures x == y
    decreases width
  {
    if width > 0 {
      var p := Pow2(width - 1);
      QuotientBelow(x, 2, p);
      QuotientBelow(y, 2, p);
      forall i: nat | i < width - 1
        ensures GetBit(x / 2, i) == GetBit(y / 2, i)
      {
        GetBitHalve(x, i);
        GetBitHalve(y, i);
      }
      BitsExtensional(width - 1, x / 2, y / 2);
      assert GetBit(x, 0) == GetBit(y, 0);
    }
  }

  /** x rounded down to a multiple of d is a multiple of d. */
  lemma RoundDownMultiple(x: nat, d: nat)
    requires d > 0
    ensures (x - x % d) % d == 0
  {
    DivModUnique(x - x % d, d, x / d, 0);
  }

  /** Shifting right by a and then by b is shifting right by a + b. */
  lemma ShrShr(y: nat, a: nat, b: nat)
    ensures Shr(Shr(y, a), b) == Shr(y, a + b)
  {
    Pow2Add(a, b);
    DivDiv(y, Pow2(a), Pow2(b));
  }

  /** Clearing the low n bits leaves the bits from n up, in place. */
  lemma RoundDown(x: nat, n: nat)
    ensures x - x % Pow2(n) == Shr(x, n) * Pow2(n)
  {
  }

  /** The field from lo to the top bit of a `width`-bit x is `x >> lo`. */
  lemma TopField(x: nat, width: nat, lo: nat)
    requires x < Pow2(width) && lo < width
    ensures GetBits(x, lo, width - 1) == Shr(x, lo)
  {
    var q, p := Shr(x, lo), Pow2(width - lo);
    assert q < p by {
      Pow2Add(lo, width - lo);
      QuotientBelow(x, Pow2(lo), p);
    }
    assert width - 1 - lo + 1 == width - lo;
    ModBelow(q, p);
  }

  /** Writing the bits from n up of a multiple a of 2^n over x gives a
      with the low n bits of x added. */
  lemma SetTopField(width: nat, x: nat, n: nat, a: nat)
    requires x < Pow2(width) && a < Pow2(width) && n < width
    requires a % Pow2(n) == 0
    ensures GetBits(a, n, width - 1) < Pow2(width - 1 - n + 1)
    ensures SetBits(width, x, n, width - 1, GetBits(a, n, width - 1)) == a + x % Pow2(n)
  {
    var r := SetBits(width, x, n, width - 1, GetBits(a, n, width - 1));
    TopField(r, width, n);
    TopField(a, width, n);
    RoundDown(r, n);
    RoundDown(a, n);
  }

  lemma ModBelow(q: nat, p: nat)
    requires q < p
    ensures q % p == q
  {
  }

  /** Setting a field keeps every bit from any n above the field up. */
  lemma SetBitsKeepsHigh(width: nat, x: nat, lo: nat, hi: nat, v: nat, n: nat)
    requires x < Pow2(width) && lo <= hi < width
    requires v < Pow2(hi - lo + 1)
    requires hi < n
    ensures Shr(SetBits(width, x, lo, hi, v), n) == Shr(x, n)
  {
    var r := SetBits(width, x, lo, hi, v);
    ShrShr(r, hi + 1, n - hi - 1);
    ShrShr(x, hi + 1, n - hi - 1);
  }

  /** `x & mask`, where mask is `!(2^n - 1)` inside a `width`-bit
      register, rounds x down to a multiple of 2^n. */
  lemma {:induction false} AndNotLowMask(width: nat, x: nat, n: nat, mask: nat)
    requires x < Pow2(width) && n <= width
    requires mask + Pow2(n) == Pow2(width)
    ensures BitAnd(x, mask) == x - x % Pow2(n)
    decreases width
  {
    if n == 0 {
      AndAllOnes(width, x);
    } else if x == 0 {
    } else if n == width {
      DivModUnique(x, Pow2(n), 0, x);
    } else {
      var pw, pn := Pow2(width - 1), Pow2(n - 1);
      assert mask == 2 * pw - 2 * pn;
      AndNotLowMask(width - 1, x / 2, n - 1, mask / 2);
      ModPow2Step(x, n);
    }
  }

  /** `x & !(2^n - 1)` clears the low n bits of a `width`-bit x: the result
      is x rounded down to a multiple of 2^n. */
  lemma ClearLowBits(width: nat, x: nat, n: nat)
    requires x < Pow2(width) && n <= width
    ensures Pow2(n) - 1 < Pow2(width)
    ensures BitAnd(x, BitNot(width, Pow2(n) - 1)) == x - x % Pow2(n)
    ensures (x - x % Pow2(n)) % Pow2(n) == 0
  {
    Pow2Monotone(n, width);
    AndNotLowMask(width, x, n, BitNot(width, Pow2(n) - 1));
    RoundDownMultiple(x, Pow2(n));
  }

  lemma {:induction false} Pow2Monotone(a: nat, b: nat)
    requires a <= b
    ensures Pow2(a) <= Pow2(b)
    decreases b
  {
    if a < b {
      Pow2Monotone(a, b - 1);
    }
  }

  /** `x & (2^width - 1)` is x itself for a `width`-bit x. */
  lemma {:induction false} AndAllOnes(width: nat, x: nat)
    requires x < Pow2(width)
    ensures BitAnd(x, Pow2(width) - 1) == x
    decreases width
  {
    if x != 0 {
      assert width > 0;
      AndAllOnes(width - 1, x / 2);
    }
  }

  /** `x.trailing_zeros() >= k` holds exactly when x is a multiple of 2^k. */
  lemma {:induction false} TrailingZerosMultiple(width: nat, x: nat, k: nat)
    requires x < Pow2(width) && k <= width
    ensures TrailingZeros(width, x) >= k <==> x % Pow2(k) == 0
    decreases k
  {
    if k == 0 {
      assert x % Pow2(0) == 0;
    } else if x == 0 {
      assert TrailingZeros(width, x) == width;
      assert x % Pow2(k) == 0;
    } else if x % 2 == 1 {
      OddResidue(x, k);
    } else {
      TrailingZerosEven(width, x);
      TrailingZerosMultiple(width - 1, x / 2, k - 1);
      EvenResidue(x, k);
    }
  }

  /** An odd x leaves an odd remainder modulo 2^k, k >= 1. */
  lemma OddResidue(x: nat, k: nat)
    requires x % 2 == 1 && k >= 1
    ensures x % Pow2(k) != 0
  {
    ModPow2Step(x, k);
  }

  /** An even x is a multiple of 2^k exactly when x / 2 is one of 2^(k-1). */
  lemma EvenResidue(x: nat, k: nat)
    requires x % 2 == 0 && k >= 1
    ensures x % Pow2(k) == 0 <==> (x / 2) % Pow2(k - 1) == 0
  {
    ModPow2Step(x, k);
  }

  /** An even nonzero x has one more trailing zero than x / 2. */
  lemma TrailingZerosEven(width: nat, x: nat)
    requires x < Pow2(width) && x != 0 && x % 2 == 0
    ensures width >= 1 && x / 2 < Pow2(width - 1)
    ensures TrailingZeros(width, x) == 1 + TrailingZeros(width - 1, x / 2)
  {
    var p := Pow2(width - 1);
    assert x < 2 * p;
  }

}
