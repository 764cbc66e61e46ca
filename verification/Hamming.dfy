/** Bitwise operations on naturals, bit by bit. */
module Bits {

  function Bit(b: bool): nat { if b then 1 else 0 }

  function And(x: nat, y: nat): nat {
    if x == 0 || y == 0 then 0 else 2 * And(x / 2, y / 2) + Bit(x % 2 == 1 && y % 2 == 1)
  }

  function Xor(x: nat, y: nat): nat
    decreases x + y
  {
    if x == 0 && y == 0 then 0 else 2 * Xor(x / 2, y / 2) + Bit(x % 2 != y % 2)
  }

  function Or(x: nat, y: nat): nat
    decreases x + y
  {
    if x == 0 && y == 0 then 0 else 2 * Or(x / 2, y / 2) + Bit(x % 2 == 1 || y % 2 == 1)
  }

  /** The number of set bits. */
  function PopCount(x: nat): nat {
    if x == 0 then 0 else PopCount(x / 2) + x % 2
  }

  function Pow2(k: nat): nat { if k == 0 then 1 else 2 * Pow2(k - 1) }

  lemma AndBit(x: nat, y: nat, b: nat, c: nat)
    requires b < 2 && c < 2
    ensures And(2 * x + b, 2 * y + c) == 2 * And(x, y) + (if b == 1 && c == 1 then 1 else 0)
  {
    assert (2 * x + b) / 2 == x && (2 * y + c) / 2 == y;
  }

  lemma XorBit(x: nat, y: nat, b: nat, c: nat)
    requires b < 2 && c < 2
    ensures Xor(2 * x + b, 2 * y + c) == 2 * Xor(x, y) + (if b != c then 1 else 0)
  {
    assert (2 * x + b) / 2 == x && (2 * y + c) / 2 == y;
  }

  lemma OrBit(x: nat, y: nat, b: nat, c: nat)
    requires b < 2 && c < 2
    ensures Or(2 * x + b, 2 * y + c) == 2 * Or(x, y) + (if b == 1 || c == 1 then 1 else 0)
  {
    assert (2 * x + b) / 2 == x && (2 * y + c) / 2 == y;
  }

  lemma PopBit(x: nat, b: nat)
    requires b < 2
    ensures PopCount(2 * x + b) == PopCount(x) + b
  {
    assert (2 * x + b) / 2 == x;
  }

  /** `x` above `r` low bits. */
  lemma {:induction false} Above(x: nat, r: nat, k: nat)
    requires r < Pow2(k)
    ensures PopCount(x * Pow2(k) + r) == PopCount(x) + PopCount(r)
    decreases k
  {
    if k > 0 {
      Doubled(x, r, k);
      PopBit(x * Pow2(k - 1) + r / 2, r % 2);
      PopBit(r / 2, r % 2);
      Above(x, r / 2, k - 1);
    }
  }

  lemma {:induction false} XorAbove(x: nat, y: nat, r: nat, t: nat, k: nat)
    requires r < Pow2(k) && t < Pow2(k)
    ensures Xor(x * Pow2(k) + r, y * Pow2(k) + t) == Xor(x, y) * Pow2(k) + Xor(r, t)
    ensures Xor(r, t) < Pow2(k)
    decreases k
  {
    hide Xor;
    if k == 0 {
      XorNothing();
    } else {
      XorAbove(x, y, r / 2, t / 2, k - 1);
      Doubled(x, r, k);
      Doubled(y, t, k);
      Doubled(Xor(x, y), 0, k);
      var xp, yp, zp := x * Pow2(k - 1), y * Pow2(k - 1), Xor(x, y) * Pow2(k - 1);
      XorAboveBit(xp + r / 2, yp + t / 2, zp, r, t);
    }
  }

  lemma XorNothing()
    ensures Xor(0, 0) == 0 && Pow2(0) == 1
  {
  }

  lemma XorAboveBit(x: nat, y: nat, z: nat, r: nat, t: nat)
    requires Xor(x, y) == z + Xor(r / 2, t / 2)
    ensures Xor(2 * x + r % 2, 2 * y + t % 2) == 2 * z + Xor(r, t)
    ensures Xor(r, t) == 2 * Xor(r / 2, t / 2) + (if r % 2 != t % 2 then 1 else 0)
  {
    XorBit(x, y, r % 2, t % 2);
    XorBit(r / 2, t / 2, r % 2, t % 2);
  }

  lemma Doubled(x: nat, r: nat, k: nat)
    requires k > 0
    ensures x * Pow2(k) + r == 2 * (x * Pow2(k - 1) + r / 2) + r % 2
    ensures Pow2(k) == 2 * Pow2(k - 1)
  {
    var p := Pow2(k - 1);
    assert x * (2 * p) == 2 * (x * p);
  }

  // ----- distance -----

  function Distance(x: nat, y: nat): nat { PopCount(Xor(x, y)) }

  lemma {:induction false} DistanceMetric(x: nat, y: nat, z: nat)
    ensures Distance(x, y) == 0 <==> x == y
    ensures Distance(x, y) == Distance(y, x)
    ensures Distance(x, z) <= Distance(x, y) + Distance(y, z)
    decreases x + y + z
  {
    if x + y + z > 0 {
      DistanceMetric(x / 2, y / 2, z / 2);
      DistanceBit(x, y);
      DistanceBit(y, x);
      DistanceBit(y, z);
      DistanceBit(x, z);
    }
  }

  lemma DistanceBit(x: nat, y: nat)
    ensures Distance(x, y) == Distance(x / 2, y / 2) + (if x % 2 != y % 2 then 1 else 0)
  {
    XorBit(x / 2, y / 2, x % 2, y % 2);
    PopBit(Xor(x / 2, y / 2), if x % 2 != y % 2 then 1 else 0);
  }

  // ----- single bits -----

  predicate BitAt(x: nat, j: nat)
    decreases j
  {
    if j == 0 then x % 2 == 1 else BitAt(x / 2, j - 1)
  }

  lemma {:induction false} ZeroAt(j: nat)
    ensures !BitAt(0, j)
  {
    if j > 0 {
      ZeroAt(j - 1);
    }
  }

  lemma {:induction false} OrAt(x: nat, y: nat, j: nat)
    ensures BitAt(Or(x, y), j) <==> BitAt(x, j) || BitAt(y, j)
    decreases j
  {
    OrBit(x / 2, y / 2, x % 2, y % 2);
    hide Or;
    if j > 0 {
      OrAt(x / 2, y / 2, j - 1);
    }
  }

  lemma {:induction false} PowAt(i: nat, j: nat)
    ensures BitAt(Pow2(i), j) <==> i == j
    decreases i
  {
    if i == 0 {
      if j > 0 {
        ZeroAt(j - 1);
      }
    } else if j > 0 {
      PowAt(i - 1, j - 1);
    }
  }

  lemma {:induction false} AndPow(x: nat, j: nat)
    ensures And(x, Pow2(j)) != 0 <==> BitAt(x, j)
    decreases j
  {
    if j == 0 {
      AndBit(x / 2, 0, x % 2, 1);
      assert And(x / 2, 0) == 0;
    } else {
      AndPow(x / 2, j - 1);
      AndBit(x / 2, Pow2(j - 1), x % 2, 0);
    }
  }

  lemma {:induction false} OrBelow(x: nat, y: nat, k: nat)
    requires x < Pow2(k) && y < Pow2(k)
    ensures Or(x, y) < Pow2(k)
    decreases k
  {
    if k > 0 {
      OrBelow(x / 2, y / 2, k - 1);
      OrBit(x / 2, y / 2, x % 2, y % 2);
    }
  }

  lemma {:induction false} PowBelow(j: nat, k: nat)
    requires j < k
    ensures 0 < Pow2(j) < Pow2(k)
    decreases k
  {
    if j < k - 1 {
      PowBelow(j, k - 1);
    } else if j > 0 {
      PowBelow(j - 1, k - 1);
    }
  }

  /** Numbers of k bits are equal when their bits are. */
  lemma {:induction false} SameBits(x: nat, y: nat, k: nat)
    requires x < Pow2(k) && y < Pow2(k) && forall j: nat | j < k :: BitAt(x, j) == BitAt(y, j)
    ensures x == y
    decreases k
  {
    if k > 0 {
      assert BitAt(x, 0) == BitAt(y, 0);
      forall j: nat | j < k - 1
        ensures BitAt(x / 2, j) == BitAt(y / 2, j)
      {
        assert BitAt(x, j + 1) == BitAt(y, j + 1);
      }
      SameBits(x / 2, y / 2, k - 1);
    }
  }

  /** The number of the first k bits in which two numbers differ. */
  function Differing(x: nat, y: nat, k: nat): nat {
    if k == 0 then 0 else Differing(x, y, k - 1) + Bit(BitAt(x, k - 1) != BitAt(y, k - 1))
  }

  lemma {:induction false} DifferingBit(x: nat, y: nat, k: nat)
    requires k > 0
    ensures Differing(x, y, k) == Differing(x / 2, y / 2, k - 1) + Bit(x % 2 != y % 2)
  {
    if k > 1 {
      DifferingBit(x, y, k - 1);
    }
  }

  /** The distance of numbers of k bits is the number of positions in which they differ. */
  lemma {:induction false} DistanceCounts(x: nat, y: nat, k: nat)
    requires x < Pow2(k) && y < Pow2(k)
    ensures Distance(x, y) == Differing(x, y, k)
    decreases k
  {
    if k > 0 {
      DistanceCounts(x / 2, y / 2, k - 1);
      DistanceBit(x, y);
      DifferingBit(x, y, k);
    }
  }
}

/** Population counts and Hamming distances of bytes and 64-bit words. */
module Hamming {
  import opened Arith
  import opened Bits

  const WORD: nat := 0x1_0000_0000_0000_0000

  const M1: nat := 0x5555_5555_5555_5555
  const M2: nat := 0x3333_3333_3333_3333
  const M4: nat := 0x0f0f_0f0f_0f0f_0f0f
  const H01: nat := 0x0101_0101_0101_0101

  /** The mask-and-multiply count, with the wrap-around of a 64-bit multiplication. */
  method CountBitsUint64(word: nat) returns (count: nat)
    requires word < WORD
    ensures count == PopCount(word)
  {
    hide And, PopCount, Mask, Bound, DigitSum, DigitsAtMost, Pairs, Nibbles, Octets;
    var x := word;
    MaskValues();
    PairCounts(x, 32);
    PairDigits(x, 32);
    x := x - And(x / 2, M1);
    NibbleCounts(x, 16);
    NibbleDigits(x, 16);
    x := And(x, M2) + And(x / 4, M2);
    ByteCounts(x, 8);
    ByteDigits(x, 8);
    x := And(x + x / 16, M4);
    SumBytes(x, PopCount(word));
    count := (x * H01) % WORD / 0x100_0000_0000_0000;
  }

  // ----- digits -----

  function DigitSum(x: nat, base: nat): nat
    requires base >= 2
  {
    if x == 0 then 0 else DigitSum(x / base, base) + x % base
  }

  ghost predicate DigitsAtMost(x: nat, base: nat, d: nat)
    requires base >= 2
  {
    x == 0 || (x % base <= d && DigitsAtMost(x / base, base, d))
  }

  /** `n` digits `d` in a base. */
  function Mask(n: nat, base: nat, d: nat): nat { if n == 0 then 0 else base * Mask(n - 1, base, d) + d }

  function Bound(n: nat, base: nat): nat { if n == 0 then 1 else base * Bound(n - 1, base) }

  /** Each pair of bits replaced by its count. */
  ghost function Pairs(x: nat): nat { if x == 0 then 0 else 4 * Pairs(x / 4) + (x % 2 + (x / 2) % 2) }

  ghost function Nibbles(x: nat): nat { if x == 0 then 0 else 16 * Nibbles(x / 16) + (x % 4 + (x / 4) % 4) }

  ghost function Octets(x: nat): nat { if x == 0 then 0 else 256 * Octets(x / 256) + (x % 16 + (x / 16) % 16) }

  lemma And4(a: nat, b: nat, m: nat)
    requires b < 4
    ensures And(4 * a + b, 4 * m + 1) == 4 * And(a, m) + b % 2
  {
    hide And;
    AndBit(2 * a + b / 2, 2 * m, b % 2, 1);
    AndBit(a, m, b / 2, 0);
    assert 4 * a + b == 2 * (2 * a + b / 2) + b % 2;
  }

  lemma And16(a: nat, b: nat, m: nat)
    requires b < 16
    ensures And(16 * a + b, 16 * m + 3) == 16 * And(a, m) + b % 4
  {
    hide And;
    AndBit(a, m, b / 8, 0);
    AndBit(2 * a + b / 8, 2 * m, (b / 4) % 2, 0);
    AndBit(4 * a + b / 4, 4 * m, (b / 2) % 2, 1);
    AndBit(8 * a + b / 2, 8 * m + 1, b % 2, 1);
  }

  lemma And16Whole(a: nat, b: nat, m: nat)
    requires b < 16
    ensures And(16 * a + b, 16 * m + 15) == 16 * And(a, m) + b
  {
    hide And;
    AndBit(a, m, b / 8, 1);
    AndBit(2 * a + b / 8, 2 * m + 1, (b / 4) % 2, 1);
    AndBit(4 * a + b / 4, 4 * m + 3, (b / 2) % 2, 1);
    AndBit(8 * a + b / 2, 8 * m + 7, b % 2, 1);
  }

  lemma And16None(a: nat, b: nat, m: nat)
    requires b < 16
    ensures And(16 * a + b, 16 * m) == 16 * And(a, m)
  {
    hide And;
    AndBit(a, m, b / 8, 0);
    AndBit(2 * a + b / 8, 2 * m, (b / 4) % 2, 0);
    AndBit(4 * a + b / 4, 4 * m, (b / 2) % 2, 0);
    AndBit(8 * a + b / 2, 8 * m, b % 2, 0);
  }

  lemma And256(a: nat, b: nat, m: nat)
    requires b < 256
    ensures And(256 * a + b, 256 * m + 15) == 256 * And(a, m) + b % 16
  {
    hide And;
    And16Whole(16 * a + b / 16, b % 16, 16 * m);
    And16None(a, b / 16, m);
  }

  /** How digits split off at the low end. */
  lemma DigitsFacts(x: nat, base: nat, c: nat, d: nat)
    requires base >= 2 && c < base && c <= d
    ensures DigitSum(base * x + c, base) == DigitSum(x, base) + c
    ensures DigitsAtMost(base * x + c, base, d) <==> DigitsAtMost(x, base, d)
  {
    var y := base * x + c;
    DivModUnique(y, base, x, c);
    assert y == 0 ==> x == 0 by {
      assert x > 0 ==> base * x >= base;
    }
    LastDigit(y, base, x, c, d);
  }

  lemma LastDigit(y: nat, base: nat, x: nat, c: nat, d: nat)
    requires base >= 2 && y / base == x && y % base == c && c <= d && (y == 0 ==> x == 0)
    ensures DigitSum(y, base) == DigitSum(x, base) + c
    ensures DigitsAtMost(y, base, d) <==> DigitsAtMost(x, base, d)
  {
  }

  lemma ZeroFacts(m: nat, base: nat, d: nat)
    requires base >= 2
    ensures And(0, m) == 0 && PopCount(0) == 0 && DigitSum(0, base) == 0 && DigitsAtMost(0, base, d)
  {
  }

  lemma HalfOfPairs(x: nat)
    ensures var q, d := x / 4, x % 4;
            && x / 2 == 4 * (q / 2) + (2 * (q % 2) + d / 2)
            && (2 * (q % 2) + d / 2) % 2 == d / 2 == (x / 2) % 2 && d % 2 == x % 2
  {
    var q, d := x / 4, x % 4;
    DivModUnique(x, 2, 2 * q + d / 2, d % 2);
    DivModUnique(2 * q + d / 2, 2, q, d / 2);
  }

  lemma {:induction false} PairCounts(x: nat, n: nat)
    requires x < Bound(n, 4)
    ensures And(x / 2, Mask(n, 4, 1)) <= x && x - And(x / 2, Mask(n, 4, 1)) == Pairs(x)
    decreases n
  {
    hide And;
    ZeroFacts(Mask(n, 4, 1), 4, 2);
    if n > 0 && x > 0 {
      var q, d := x / 4, x % 4;
      PairCounts(q, n - 1);
      var b := 2 * (q % 2) + d / 2;
      HalfOfPairs(x);
      And4(q / 2, b, Mask(n - 1, 4, 1));
    }
  }

  lemma {:induction false} PairDigits(x: nat, n: nat)
    requires x < Bound(n, 4)
    ensures DigitsAtMost(Pairs(x), 4, 2) && DigitSum(Pairs(x), 4) == PopCount(x) && Pairs(x) < Bound(n, 4)
    decreases n
  {
    hide PopCount, DigitSum, DigitsAtMost;
    ZeroFacts(0, 4, 2);
    if n > 0 && x > 0 {
      var q := x / 4;
      PairDigits(q, n - 1);
      PopPair(x);
      DigitsFacts(Pairs(q), 4, x % 2 + (x / 2) % 2, 2);
    }
  }

  lemma PopPair(x: nat)
    ensures PopCount(x) == PopCount(x / 4) + x % 2 + (x / 2) % 2
  {
    hide PopCount;
    PopBit(x / 2, x % 2);
    PopBit(x / 4, (x / 2) % 2);
    assert x == 2 * (x / 2) + x % 2 && x / 2 == 2 * (x / 4) + (x / 2) % 2;
  }

  lemma QuarterOfNibbles(y: nat)
    ensures var q, r := y / 16, y % 16;
            && y / 4 == 16 * (q / 4) + (4 * (q % 4) + r / 4)
            && (4 * (q % 4) + r / 4) % 4 == r / 4 == (y / 4) % 4 && r % 4 == y % 4
  {
    var q, r := y / 16, y % 16;
    DivModUnique(y, 4, 4 * q + r / 4, r % 4);
    DivModUnique(4 * q + r / 4, 4, q, r / 4);
  }

  lemma {:induction false} NibbleCounts(y: nat, n: nat)
    requires y < Bound(n, 16)
    ensures And(y, Mask(n, 16, 3)) + And(y / 4, Mask(n, 16, 3)) == Nibbles(y)
    decreases n
  {
    hide And;
    ZeroFacts(Mask(n, 16, 3), 16, 4);
    if n > 0 && y > 0 {
      var q, r := y / 16, y % 16;
      NibbleCounts(q, n - 1);
      var b := 4 * (q % 4) + r / 4;
      QuarterOfNibbles(y);
      And16(q, r, Mask(n - 1, 16, 3));
      And16(q / 4, b, Mask(n - 1, 16, 3));
    }
  }

  lemma TwoPairs(y: nat)
    requires DigitsAtMost(y, 4, 2) && y > 0
    ensures y % 4 <= 2 && (y / 4) % 4 <= 2 && DigitsAtMost(y / 16, 4, 2)
    ensures y == 4 * (y / 4) + y % 4 && y / 4 == 4 * (y / 16) + (y / 4) % 4
  {
    assert y / 4 / 4 == y / 16;
  }

  lemma {:induction false} NibbleDigits(y: nat, n: nat)
    requires y < Bound(n, 16) && DigitsAtMost(y, 4, 2)
    ensures DigitsAtMost(Nibbles(y), 16, 4) && DigitSum(Nibbles(y), 16) == DigitSum(y, 4) && Nibbles(y) < Bound(n, 16)
    decreases n
  {
    hide DigitSum, DigitsAtMost;
    ZeroFacts(0, 4, 2);
    ZeroFacts(0, 16, 4);
    if n > 0 && y > 0 {
      var q := y / 16;
      TwoPairs(y);
      DigitsFacts(y / 4, 4, y % 4, 2);
      DigitsFacts(q, 4, (y / 4) % 4, 2);
      NibbleDigits(q, n - 1);
      DigitsFacts(Nibbles(q), 16, y % 4 + (y / 4) % 4, 4);
    }
  }

  lemma {:induction false} ByteCounts(z: nat, n: nat)
    requires z < Bound(n, 256) && DigitsAtMost(z, 16, 4)
    ensures And(z + z / 16, Mask(n, 256, 15)) == Octets(z)
    decreases n
  {
    hide And, DigitsAtMost;
    ZeroFacts(Mask(n, 256, 15), 16, 4);
    if n > 0 && z > 0 {
      var q, n1, n0 := z / 256, (z / 16) % 16, z % 16;
      TwoNibbles(z);
      ByteCounts(q, n - 1);
      var b := 16 * (n1 + q % 16) + (n0 + n1);
      ShiftedNibbles(z, q, n1, n0);
      DivModUnique(b, 16, n1 + q % 16, n0 + n1);
      And256(q + q / 16, b, Mask(n - 1, 256, 15));
    }
  }

  lemma ShiftedNibbles(z: nat, q: nat, n1: nat, n0: nat)
    requires z == 256 * q + 16 * n1 + n0 && n1 < 16 && n0 < 16
    ensures z + z / 16 == 256 * (q + q / 16) + 16 * (n1 + q % 16) + (n0 + n1)
  {
    DivModUnique(z, 16, 16 * q + n1, n0);
  }

  lemma TwoNibbles(z: nat)
    requires DigitsAtMost(z, 16, 4) && z > 0
    ensures z % 16 <= 4 && (z / 16) % 16 <= 4 && (z / 256) % 16 <= 4 && DigitsAtMost(z / 256, 16, 4)
    ensures z == 256 * (z / 256) + 16 * ((z / 16) % 16) + z % 16
  {
    assert z / 16 / 16 == z / 256;
  }

  lemma {:induction false} ByteDigits(z: nat, n: nat)
    requires z < Bound(n, 256) && DigitsAtMost(z, 16, 4)
    ensures DigitsAtMost(Octets(z), 256, 8) && DigitSum(Octets(z), 256) == DigitSum(z, 16) && Octets(z) < Bound(n, 256)
    decreases n
  {
    hide DigitSum, DigitsAtMost;
    ZeroFacts(0, 16, 4);
    ZeroFacts(0, 256, 8);
    if n > 0 && z > 0 {
      var q := z / 256;
      TwoNibbles(z);
      DigitsFacts(z / 16, 16, z % 16, 4);
      DigitsFacts(q, 16, (z / 16) % 16, 4);
      ByteDigits(q, n - 1);
      DigitsFacts(Octets(q), 256, z % 16 + (z / 16) % 16, 8);
    }
  }

  lemma MaskValues()
    ensures Mask(32, 4, 1) == M1 && Bound(32, 4) == WORD
    ensures Mask(16, 16, 3) == M2 && Bound(16, 16) == WORD
    ensures Mask(8, 256, 15) == M4 && Bound(8, 256) == WORD
  {
    assert Mask(8, 4, 1) == 0x5555 && Bound(8, 4) == 0x1_0000;
    assert Mask(16, 4, 1) == 0x5555_5555 && Bound(16, 4) == 0x1_0000_0000;
    assert Mask(24, 4, 1) == 0x5555_5555_5555 && Bound(24, 4) == 0x1_0000_0000_0000;
    assert Mask(8, 16, 3) == 0x3333_3333 && Bound(8, 16) == 0x1_0000_0000;
  }

  /** The product with 0x01...01 of a word of eight small bytes, digit by digit. */
  lemma Product(w: nat, w0: nat, w1: nat, w2: nat, w3: nat, w4: nat, w5: nat, w6: nat, w7: nat)
    requires w0 <= 8 && w1 <= 8 && w2 <= 8 && w3 <= 8 && w4 <= 8 && w5 <= 8 && w6 <= 8 && w7 <= 8
    requires w == w0 + 0x100 * (w1 + 0x100 * (w2 + 0x100 * (w3
                  + 0x100 * (w4 + 0x100 * (w5 + 0x100 * (w6 + 0x100 * w7))))))
    ensures (w * H01) % WORD / 0x100_0000_0000_0000 == w0 + w1 + w2 + w3 + w4 + w5 + w6 + w7
  {
    var p1 := w0 + w1; var p2 := p1 + w2; var p3 := p2 + w3; var p4 := p3 + w4; var p5 := p4 + w5; var p6 := p5 + w6;
    var s := p6 + w7;
    var low := w0 + 0x100 * (p1 + 0x100 * (p2 + 0x100 * (p3 + 0x100 * (p4 + 0x100 * (p5 + 0x100 * p6)))));
    var t6 := w7; var t5 := t6 + w6; var t4 := t5 + w5; var t3 := t4 + w4; var t2 := t3 + w3; var t1 := t2 + w2;
    var t0 := t1 + w1;
    var top := t0 + 0x100 * (t1 + 0x100 * (t2 + 0x100 * (t3 + 0x100 * (t4 + 0x100 * (t5 + 0x100 * t6)))));
    assert w * H01 == top * WORD + (s * 0x100_0000_0000_0000 + low);
    DivModUnique(w * H01, WORD, top, s * 0x100_0000_0000_0000 + low);
    DivModUnique(s * 0x100_0000_0000_0000 + low, 0x100_0000_0000_0000, s, low);
  }

  lemma LowByte(w: nat)
    requires DigitsAtMost(w, 256, 8)
    ensures w == w % 256 + 0x100 * (w / 256) && w % 256 <= 8 && DigitsAtMost(w / 256, 256, 8)
    ensures DigitSum(w, 256) == w % 256 + DigitSum(w / 256, 256)
  {
  }

  /** Multiplying by 0x01...01 adds up the bytes in the top byte. */
  lemma SumBytes(w: nat, s: nat)
    requires w < WORD && DigitsAtMost(w, 256, 8) && DigitSum(w, 256) == s
    ensures (w * H01) % WORD / 0x100_0000_0000_0000 == s
  {
    hide DigitSum, DigitsAtMost;
    var h := w / 256 / 256 / 256 / 256;
    FourBytes(w);
    FourBytes(h);
    assert h / 256 / 256 / 256 / 256 == 0;
    ZeroFacts(0, 256, 8);
    Product(w, w % 256, (w / 256) % 256, (w / 256 / 256) % 256, (w / 256 / 256 / 256) % 256,
            h % 256, (h / 256) % 256, (h / 256 / 256) % 256, (h / 256 / 256 / 256) % 256);
  }

  lemma FourBytes(w: nat)
    requires DigitsAtMost(w, 256, 8)
    ensures var q1 := w / 256; var q2 := q1 / 256; var q3 := q2 / 256; var q4 := q3 / 256;
            && w == w % 256 + 0x100 * (q1 % 256 + 0x100 * (q2 % 256 + 0x100 * (q3 % 256 + 0x100 * q4)))
            && w % 256 <= 8 && q1 % 256 <= 8 && q2 % 256 <= 8 && q3 % 256 <= 8 && DigitsAtMost(q4, 256, 8)
            && DigitSum(w, 256) == w % 256 + q1 % 256 + q2 % 256 + q3 % 256 + DigitSum(q4, 256)
  {
    hide DigitSum, DigitsAtMost;
    LowByte(w);
    LowByte(w / 256);
    LowByte(w / 256 / 256);
    LowByte(w / 256 / 256 / 256);
  }

  // ----- bytes -----

  /** Row `h` of the 256-entry table: the counts of 16h to 16h + 15. */
  function TableRow(h: nat): (row: seq<nat>)
    requires h < 16
    ensures |row| == 16
  {
    match h
    case 0 => [0, 1, 1, 2, 1, 2, 2, 3, 1, 2, 2, 3, 2, 3, 3, 4]
    case 1 => [1, 2, 2, 3, 2, 3, 3, 4, 2, 3, 3, 4, 3, 4, 4, 5]
    case 2 => [1, 2, 2, 3, 2, 3, 3, 4, 2, 3, 3, 4, 3, 4, 4, 5]
    case 3 => [2, 3, 3, 4, 3, 4, 4, 5, 3, 4, 4, 5, 4, 5, 5, 6]
    case 4 => [1, 2, 2, 3, 2, 3, 3, 4, 2, 3, 3, 4, 3, 4, 4, 5]
    case 5 => [2, 3, 3, 4, 3, 4, 4, 5, 3, 4, 4, 5, 4, 5, 5, 6]
    case 6 => [2, 3, 3, 4, 3, 4, 4, 5, 3, 4, 4, 5, 4, 5, 5, 6]
    case 7 => [3, 4, 4, 5, 4, 5, 5, 6, 4, 5, 5, 6, 5, 6, 6, 7]
    case 8 => [1, 2, 2, 3, 2, 3, 3, 4, 2, 3, 3, 4, 3, 4, 4, 5]
    case 9 => [2, 3, 3, 4, 3, 4, 4, 5, 3, 4, 4, 5, 4, 5, 5, 6]
    case 10 => [2, 3, 3, 4, 3, 4, 4, 5, 3, 4, 4, 5, 4, 5, 5, 6]
    case 11 => [3, 4, 4, 5, 4, 5, 5, 6, 4, 5, 5, 6, 5, 6, 6, 7]
    case 12 => [2, 3, 3, 4, 3, 4, 4, 5, 3, 4, 4, 5, 4, 5, 5, 6]
    case 13 => [3, 4, 4, 5, 4, 5, 5, 6, 4, 5, 5, 6, 5, 6, 6, 7]
    case 14 => [3, 4, 4, 5, 4, 5, 5, 6, 4, 5, 5, 6, 5, 6, 6, 7]
    case 15 => [4, 5, 5, 6, 5, 6, 6, 7, 5, 6, 6, 7, 6, 7, 7, 8]
  }

  function CountBitsByte(x: nat): nat
    requires x < 256
  {
    TableRow(x / 16)[x % 16]
  }

  function NibbleCount(l: nat): nat
    requires l < 16
  {
    [0, 1, 1, 2, 1, 2, 2, 3, 1, 2, 2, 3, 2, 3, 3, 4][l]
  }

  lemma NibblePop(l: nat)
    requires l < 16
    ensures PopCount(l) == NibbleCount(l)
  {
    hide PopCount;
    if l < 8 {
      LowNibblePop();
      assert l in {0, 1, 2, 3, 4, 5, 6, 7};
    } else {
      HighNibblePop();
      assert l in {8, 9, 10, 11, 12, 13, 14, 15};
    }
  }

  lemma LowNibblePop()
    ensures PopCount(0) == 0 && PopCount(1) == 1 && PopCount(2) == 1 && PopCount(3) == 2
    ensures PopCount(4) == 1 && PopCount(5) == 2 && PopCount(6) == 2 && PopCount(7) == 3
  {
  }

  lemma HighNibblePop()
    ensures PopCount(8) == 1 && PopCount(9) == 2 && PopCount(10) == 2 && PopCount(11) == 3
    ensures PopCount(12) == 2 && PopCount(13) == 3 && PopCount(14) == 3 && PopCount(15) == 4
  {
  }

  predicate RowFrom(row: seq<nat>, c: nat) {
    row == [c, c + 1, c + 1, c + 2, c + 1, c + 2, c + 2, c + 3, c + 1, c + 2, c + 2, c + 3, c + 2, c + 3, c + 3, c + 4]
  }

  lemma LowRows(h: nat)
    requires h < 8
    ensures RowFrom(TableRow(h), NibbleCount(h))
  {
  }

  lemma HighRows(h: nat)
    requires 8 <= h < 16
    ensures RowFrom(TableRow(h), NibbleCount(h))
  {
  }

  lemma RowCounts(h: nat, l: nat)
    requires h < 16 && l < 16
    ensures TableRow(h)[l] == NibbleCount(h) + NibbleCount(l)
  {
    hide TableRow;
    if h < 8 {
      LowRows(h);
    } else {
      HighRows(h);
    }
  }

  /** The table holds the number of set bits of every byte. */
  lemma TableCounts(x: nat)
    requires x < 256
    ensures CountBitsByte(x) == PopCount(x)
  {
    hide TableRow, NibbleCount, PopCount;
    RowCounts(x / 16, x % 16);
    NibblePop(x / 16);
    NibblePop(x % 16);
    assert Pow2(4) == 16;
    Above(x / 16, x % 16, 4);
  }

  // ----- buffers -----

  ghost predicate Below(xs: seq<nat>, bound: nat) { forall i: nat | i < |xs| :: xs[i] < bound }

  /** The number of bit positions in which two buffers differ. */
  ghost function TotalDistance(xs: seq<nat>, ys: seq<nat>): nat
    requires |xs| == |ys|
  {
    if xs == [] then 0 else TotalDistance(xs[..|xs| - 1], ys[..|xs| - 1]) + Distance(xs[|xs| - 1], ys[|xs| - 1])
  }

  method Uint64(x: nat, y: nat) returns (d: nat)
    requires x < WORD && y < WORD
    ensures d == Distance(x, y)
  {
    WordPower();
    XorBelow(x, y, 64);
    d := CountBitsUint64(Xor(x, y));
  }

  lemma WordPower()
    ensures Pow2(64) == WORD
  {
    assert Pow2(8) == 0x100;
    assert Pow2(16) == 0x1_0000;
    assert Pow2(24) == 0x100_0000;
    assert Pow2(32) == 0x1_0000_0000;
    assert Pow2(40) == 0x100_0000_0000;
    assert Pow2(48) == 0x1_0000_0000_0000;
    assert Pow2(56) == 0x100_0000_0000_0000;
  }

  lemma XorBelow(x: nat, y: nat, k: nat)
    requires x < Pow2(k) && y < Pow2(k)
    ensures Xor(x, y) < Pow2(k)
  {
    XorAbove(0, 0, x, y, k);
  }

  /** Distance of two byte buffers; the second may be longer. */
  method Bytes(b0: seq<nat>, b1: seq<nat>) returns (d: nat)
    requires |b0| <= |b1| && Below(b0, 256) && Below(b1, 256)
    ensures d == TotalDistance(b0, b1[..|b0|])
  {
    d := 0;
    for i := 0 to |b0|
      invariant d == TotalDistance(b0[..i], b1[..i])
    {
      ByteBelow(b0[i], b1[i]);
      TableCounts(Xor(b0[i], b1[i]));
      assert b0[..i + 1][..i] == b0[..i] && b1[..i + 1][..i] == b1[..i];
      d := d + CountBitsByte(Xor(b0[i], b1[i]));
    }
    assert b0[..|b0|] == b0;
  }

  lemma ByteBelow(x: nat, y: nat)
    requires x < 256 && y < 256
    ensures Xor(x, y) < 256
  {
    assert Pow2(8) == 256;
    XorBelow(x, y, 8);
  }

  method Uint64s(b0: seq<nat>, b1: seq<nat>) returns (d: nat)
    requires |b0| <= |b1| && Below(b0, WORD) && Below(b1, WORD)
    ensures d == TotalDistance(b0, b1[..|b0|])
  {
    d := 0;
    for i := 0 to |b0|
      invariant d == TotalDistance(b0[..i], b1[..i])
    {
      assert b0[..i + 1][..i] == b0[..i] && b1[..i + 1][..i] == b1[..i];
      var w := Uint64(b0[i], b1[i]);
      d := d + w;
    }
    assert b0[..|b0|] == b0;
  }

  /** A word from its bytes, lowest first. */
  function WordOf(bs: seq<nat>): nat {
    if bs == [] then 0 else WordOf(bs[1..]) * 256 + bs[0]
  }

  /** The bytes of whole words, packed. */
  function Pack(bs: seq<nat>): (ws: seq<nat>)
    requires |bs| % 8 == 0
    ensures |ws| == |bs| / 8
    decreases |bs|
  {
    if bs == [] then [] else Pack(bs[..|bs| - 8]) + [WordOf(bs[|bs| - 8..])]
  }

  lemma {:induction false} WordDistance(bs: seq<nat>, cs: seq<nat>)
    requires |bs| == |cs| && Below(bs, 256) && Below(cs, 256)
    ensures Distance(WordOf(bs), WordOf(cs)) == TotalDistance(bs, cs)
    decreases |bs|
  {
    hide Xor, PopCount;
    if bs == [] {
      XorNothing();
      ZeroFacts(0, 2, 0);
    } else {
      WordDistance(bs[1..], cs[1..]);
      assert Pow2(8) == 256;
      XorAbove(WordOf(bs[1..]), WordOf(cs[1..]), bs[0], cs[0], 8);
      Above(Xor(WordOf(bs[1..]), WordOf(cs[1..])), Xor(bs[0], cs[0]), 8);
      TotalConcat([bs[0]], [cs[0]], bs[1..], cs[1..]);
      assert [bs[0]] + bs[1..] == bs && [cs[0]] + cs[1..] == cs;
    }
  }

  lemma {:induction false} TotalConcat(a: seq<nat>, b: seq<nat>, c: seq<nat>, d: seq<nat>)
    requires |a| == |b| && |c| == |d|
    ensures TotalDistance(a + c, b + d) == TotalDistance(a, b) + TotalDistance(c, d)
    decreases |c|
  {
    if c == [] {
      assert a + c == a && b + d == b;
    } else {
      var n := |c| - 1;
      TotalConcat(a, b, c[..n], d[..n]);
      assert (a + c)[..|a| + n] == a + c[..n] && (b + d)[..|a| + n] == b + d[..n];
    }
  }

  /** On packed words the word form counts what the byte form counts on the bytes. */
  lemma {:induction false} PackedDistance(bs: seq<nat>, cs: seq<nat>)
    requires |bs| == |cs| && |bs| % 8 == 0 && Below(bs, 256) && Below(cs, 256)
    ensures TotalDistance(Pack(bs), Pack(cs)) == TotalDistance(bs, cs)
    decreases |bs|
  {
    hide Xor, PopCount, WordOf, Distance, Pack;
    if bs == [] {
      PackNothing();
    } else {
      var n := |bs| - 8;
      PackLast(bs);
      PackLast(cs);
      PackedDistance(bs[..n], cs[..n]);
      WordDistance(bs[n..], cs[n..]);
      TotalConcat(bs[..n], cs[..n], bs[n..], cs[n..]);
      assert bs[..n] + bs[n..] == bs && cs[..n] + cs[n..] == cs;
      LastDistance(Pack(bs[..n]), Pack(cs[..n]), WordOf(bs[n..]), WordOf(cs[n..]));
    }
  }

  lemma PackNothing()
    ensures Pack([]) == []
  {
  }

  lemma PackLast(bs: seq<nat>)
    requires |bs| % 8 == 0 && bs != []
    ensures Pack(bs) == Pack(bs[..|bs| - 8]) + [WordOf(bs[|bs| - 8..])]
  {
    hide WordOf;
  }

  lemma LastDistance(xs: seq<nat>, ys: seq<nat>, x: nat, y: nat)
    requires |xs| == |ys|
    ensures TotalDistance(xs + [x], ys + [y]) == TotalDistance(xs, ys) + Distance(x, y)
  {
    hide Distance;
    assert (xs + [x])[..|xs|] == xs && (ys + [y])[..|ys|] == ys;
  }

  /** Distance of buffers is a metric. */
  lemma {:induction false} TotalMetric(xs: seq<nat>, ys: seq<nat>, zs: seq<nat>)
    requires |xs| == |ys| == |zs|
    ensures TotalDistance(xs, ys) == 0 <==> xs == ys
    ensures TotalDistance(xs, ys) == TotalDistance(ys, xs)
    ensures TotalDistance(xs, zs) <= TotalDistance(xs, ys) + TotalDistance(ys, zs)
    decreases |xs|
  {
    if xs != [] {
      var n := |xs| - 1;
      TotalMetric(xs[..n], ys[..n], zs[..n]);
      DistanceMetric(xs[n], ys[n], zs[n]);
      assert xs == xs[..n] + [xs[n]] && ys == ys[..n] + [ys[n]];
    }
  }
}
