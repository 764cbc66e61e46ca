/**
 The permutation Keccak-f[1600] of FIPS 202 (sections 3.2 to 3.4), lane by lane.
 A state is five planes `y` of five lanes `x`.  Each step mapping is written out as a
 five-by-five display, and a lemma states the index formula of the standard for it.
 */
module Fips202 {

  /** A 64-bit lane.  The wrapper keeps the word out of arguments about where lanes sit. */
  datatype Lane = Lane(bits: bv64)

  datatype Quint<T> = Quint(e0: T, e1: T, e2: T, e3: T, e4: T) {
    function Get(i: nat): T
      requires i < 5
    {
      if i == 0 then e0 else if i == 1 then e1 else if i == 2 then e2 else if i == 3 then e3 else e4
    }
  }

  type Matrix = Quint<Quint<Lane>>

  function At(a: Matrix, x: nat, y: nat): Lane
    requires x < 5 && y < 5
  {
    a.Get(y).Get(x)
  }

  function Xor(v: Lane, w: Lane): Lane { Lane(XorWord(v.bits, w.bits)) }

  /** One place to the left, the top bit coming round. */
  function Turn(v: Lane): Lane { Lane(TurnWord(v.bits)) }

  function Rotl(v: Lane, n: nat): Lane { if n == 0 then v else Turn(Rotl(v, n - 1)) }

  function ChiLane(b: Lane, c: Lane, d: Lane): Lane { Xor(b, AndNot(d, c)) }

  function AndNot(d: Lane, c: Lane): Lane { Lane(AndNotWord(d.bits, c.bits)) }

  // The words under the lanes.

  function TurnWord(v: bv64): bv64 { (v << 1) | (v >> 63) }

  function XorWord(v: bv64, w: bv64): bv64 { v ^ w }

  function AndNotWord(d: bv64, c: bv64): bv64 { d & !c }

  function Xor5(a: Lane, b: Lane, c: Lane, d: Lane, e: Lane): Lane {
    Xor(Xor(Xor(Xor(a, b), c), d), e)
  }

  // ----- bits: bit z of a lane is the one of weight 2^z -----

  function Mask(z: nat): bv64 { if z == 0 then 1 else Mask(z - 1) << 1 }

  predicate Meets(v: bv64, m: bv64) { v & m != 0 }

  predicate LaneBit(v: Lane, z: nat)
    requires z < 64
  {
    Meets(v.bits, Mask(z))
  }

  predicate AtMostOne(m: bv64) { m & (m - 1) == 0 }

  lemma {:induction false} MaskAtMostOne(z: nat)
    ensures AtMostOne(Mask(z))
  {
    if z > 0 {
      MaskAtMostOne(z - 1);
      AtMostOneNext(Mask(z - 1));
    }
  }

  lemma AtMostOneNext(m: bv64)
    requires AtMostOne(m)
    ensures AtMostOne(m << 1)
    ensures m & 0x8000_0000_0000_0000 != 0 ==> m << 1 == 0
  {
  }

  lemma {:induction false} MaskZeroStays(z: nat, k: nat)
    requires Mask(z) == 0
    ensures Mask(z + k) == 0
    decreases k
  {
    if k > 0 {
      MaskZeroStays(z, k - 1);
    }
  }

  lemma MaskTop()
    ensures Mask(63) == 0x8000_0000_0000_0000
  {
    assert Mask(8) == 0x100;
    assert Mask(16) == 0x1_0000;
    assert Mask(24) == 0x100_0000;
    assert Mask(32) == 0x1_0000_0000;
    assert Mask(40) == 0x100_0000_0000;
    assert Mask(48) == 0x1_0000_0000_0000;
    assert Mask(56) == 0x100_0000_0000_0000;
  }

  /** Below 64 the masks are different powers of two. */
  lemma MaskFacts(z: nat)
    requires z < 64
    ensures Mask(z) != 0 && AtMostOne(Mask(z))
    ensures z < 63 ==> Mask(z) & 0x8000_0000_0000_0000 == 0 && Mask(z + 1) == Mask(z) << 1
  {
    MaskTop();
    MaskAtMostOne(z);
    if Mask(z) == 0 {
      MaskZeroStays(z, 63 - z);
    }
    if z < 63 {
      assert Mask(z + 1) == Mask(z) << 1;
      AtMostOneNext(Mask(z));
      if Mask(z + 1) == 0 {
        MaskZeroStays(z + 1, 62 - z);
      }
    }
  }

  lemma AllOrNone(v: bv64, m: bv64)
    requires m & (m - 1) == 0
    ensures v & m == 0 || v & m == m
  {
  }

  lemma XorBit(v: Lane, w: Lane, z: nat)
    requires z < 64
    ensures LaneBit(Xor(v, w), z) <==> LaneBit(v, z) != LaneBit(w, z)
  {
    hide Mask, Meets, XorWord, AtMostOne;
    MaskFacts(z);
    MeetsXor(v.bits, w.bits, Mask(z));
  }

  lemma MeetsXor(v: bv64, w: bv64, m: bv64)
    requires m != 0 && AtMostOne(m)
    ensures Meets(XorWord(v, w), m) <==> Meets(v, m) != Meets(w, m)
  {
    XorOne(v, w, m);
  }

  lemma XorOne(v: bv64, w: bv64, m: bv64)
    requires m != 0 && m & (m - 1) == 0
    ensures (v ^ w) & m != 0 <==> (v & m != 0) != (w & m != 0)
  {
    AllOrNone(v, m);
    AllOrNone(w, m);
    XorMasked(v, w, m);
  }

  lemma XorMasked(v: bv64, w: bv64, m: bv64)
    requires m != 0
    requires v & m == 0 || v & m == m
    requires w & m == 0 || w & m == m
    ensures (v ^ w) & m != 0 <==> (v & m != 0) != (w & m != 0)
  {
  }

  lemma AndNotBit(d: Lane, c: Lane, z: nat)
    requires z < 64
    ensures LaneBit(AndNot(d, c), z) <==> LaneBit(d, z) && !LaneBit(c, z)
  {
    hide Mask, Meets, AndNotWord, AtMostOne;
    MaskFacts(z);
    MeetsAndNot(d.bits, c.bits, Mask(z));
  }

  lemma MeetsAndNot(d: bv64, c: bv64, m: bv64)
    requires m != 0 && AtMostOne(m)
    ensures Meets(AndNotWord(d, c), m) <==> Meets(d, m) && !Meets(c, m)
  {
    AndNotOne(d, c, m);
  }

  lemma AndNotOne(d: bv64, c: bv64, m: bv64)
    requires m != 0 && m & (m - 1) == 0
    ensures (d & !c) & m != 0 <==> d & m != 0 && c & m == 0
  {
    AllOrNone(d, m);
    AllOrNone(c, m);
    AndNotMasked(d, c, m);
  }

  lemma AndNotMasked(d: bv64, c: bv64, m: bv64)
    requires m != 0
    requires d & m == 0 || d & m == m
    requires c & m == 0 || c & m == m
    ensures (d & !c) & m != 0 <==> d & m != 0 && c & m == 0
  {
  }

  lemma ChiBit(b: Lane, c: Lane, d: Lane, z: nat)
    requires z < 64
    ensures LaneBit(ChiLane(b, c, d), z) <==> LaneBit(b, z) != (!LaneBit(c, z) && LaneBit(d, z))
  {
    hide Xor, AndNot, LaneBit;
    AndNotBit(d, c, z);
    XorBit(b, AndNot(d, c), z);
  }

  lemma TurnBit(v: Lane, z: nat)
    requires z < 64
    ensures LaneBit(Turn(v), z) == LaneBit(v, (z + 63) % 64)
  {
    hide TurnWord, Meets;
    if z == 0 {
      MaskTop();
      TurnLowest(v.bits);
    } else {
      MaskFacts(z - 1);
      TurnOther(v.bits, Mask(z - 1));
    }
  }

  lemma TurnLowest(v: bv64)
    ensures Meets(TurnWord(v), 1) == Meets(v, 0x8000_0000_0000_0000)
  {
  }

  lemma TurnOther(v: bv64, m: bv64)
    requires m & 0x8000_0000_0000_0000 == 0
    ensures Meets(TurnWord(v), m << 1) == Meets(v, m)
  {
  }

  /** Turning by `n` brings bit (z - n) mod 64 to place z. */
  lemma {:induction false} RotlBit(v: Lane, n: nat, z: nat)
    requires z < 64
    ensures LaneBit(Rotl(v, n), z) == LaneBit(v, (z - n) % 64)
    decreases n
  {
    hide Turn, LaneBit;
    if n > 0 {
      TurnBit(Rotl(v, n - 1), z);
      RotlBit(v, n - 1, (z + 63) % 64);
      PlacesBack(z, n);
    }
  }

  lemma PlacesBack(z: nat, n: nat)
    requires z < 64 && n > 0
    ensures ((z + 63) % 64 - (n - 1)) % 64 == (z - n) % 64
  {
  }

  // ----- theta (section 3.2.1) -----

  function Parity(a: Matrix): Quint<Lane> {
    Quint(Xor5(a.e0.e0, a.e1.e0, a.e2.e0, a.e3.e0, a.e4.e0),
          Xor5(a.e0.e1, a.e1.e1, a.e2.e1, a.e3.e1, a.e4.e1),
          Xor5(a.e0.e2, a.e1.e2, a.e2.e2, a.e3.e2, a.e4.e2),
          Xor5(a.e0.e3, a.e1.e3, a.e2.e3, a.e3.e3, a.e4.e3),
          Xor5(a.e0.e4, a.e1.e4, a.e2.e4, a.e3.e4, a.e4.e4))
  }

  function Effect(c: Quint<Lane>): Quint<Lane> {
    Quint(Xor(c.e4, Rotl(c.e1, 1)),
          Xor(c.e0, Rotl(c.e2, 1)),
          Xor(c.e1, Rotl(c.e3, 1)),
          Xor(c.e2, Rotl(c.e4, 1)),
          Xor(c.e3, Rotl(c.e0, 1)))
  }

  function XorPlane(p: Quint<Lane>, d: Quint<Lane>): Quint<Lane> {
    Quint(Xor(p.e0, d.e0), Xor(p.e1, d.e1), Xor(p.e2, d.e2), Xor(p.e3, d.e3), Xor(p.e4, d.e4))
  }

  function Theta(a: Matrix): Matrix {
    var d := Effect(Parity(a));
    Quint(XorPlane(a.e0, d), XorPlane(a.e1, d), XorPlane(a.e2, d), XorPlane(a.e3, d), XorPlane(a.e4, d))
  }

  function Column(a: Matrix, x: nat): Lane
    requires x < 5
  {
    Xor5(At(a, x, 0), At(a, x, 1), At(a, x, 2), At(a, x, 3), At(a, x, 4))
  }

  lemma ThetaAt(a: Matrix, x: nat, y: nat)
    requires x < 5 && y < 5
    ensures At(Theta(a), x, y)
         == Xor(At(a, x, y), Xor(Column(a, (x + 4) % 5), Rotl(Column(a, (x + 1) % 5), 1)))
  {
    hide Xor, Rotl, Xor5, Effect, Parity, XorPlane, Column;
    var d := Effect(Parity(a));
    XorPlaneAt(a.Get(y), d, x);
    EffectAt(Parity(a), x);
    ParityAt(a, (x + 4) % 5);
    ParityAt(a, (x + 1) % 5);
  }

  /** Bit z of the parity of column x. */
  ghost predicate ColumnBit(a: Matrix, x: nat, z: nat)
    requires x < 5 && z < 64
  {
    LaneBit(At(a, x, 0), z) != (LaneBit(At(a, x, 1), z) != (LaneBit(At(a, x, 2), z) !=
      (LaneBit(At(a, x, 3), z) != LaneBit(At(a, x, 4), z))))
  }

  lemma ColumnBits(a: Matrix, x: nat, z: nat)
    requires x < 5 && z < 64
    ensures LaneBit(Column(a, x), z) == ColumnBit(a, x, z)
  {
    hide Xor, LaneBit;
    var l0, l1, l2, l3, l4 := At(a, x, 0), At(a, x, 1), At(a, x, 2), At(a, x, 3), At(a, x, 4);
    XorBit(l0, l1, z);
    XorBit(Xor(l0, l1), l2, z);
    XorBit(Xor(Xor(l0, l1), l2), l3, z);
    XorBit(Xor(Xor(Xor(l0, l1), l2), l3), l4, z);
  }

  /** Algorithm 1: A'[x, y, z] = A[x, y, z] xor C[x - 1, z] xor C[x + 1, z - 1]. */
  lemma ThetaBits(a: Matrix, x: nat, y: nat, z: nat)
    requires x < 5 && y < 5 && z < 64
    ensures LaneBit(At(Theta(a), x, y), z)
         == (LaneBit(At(a, x, y), z) != (ColumnBit(a, (x + 4) % 5, z) != ColumnBit(a, (x + 1) % 5, (z + 63) % 64)))
  {
    hide Xor, Rotl, LaneBit, Theta, Column, ColumnBit, At;
    ThetaAt(a, x, y);
    var left, right := Column(a, (x + 4) % 5), Column(a, (x + 1) % 5);
    XorBit(At(a, x, y), Xor(left, Rotl(right, 1)), z);
    XorBit(left, Rotl(right, 1), z);
    RotlBit(right, 1, z);
    assert (z - 1) % 64 == (z + 63) % 64;
    ColumnBits(a, (x + 4) % 5, z);
    ColumnBits(a, (x + 1) % 5, (z + 63) % 64);
  }

  lemma XorPlaneAt(p: Quint<Lane>, d: Quint<Lane>, x: nat)
    requires x < 5
    ensures XorPlane(p, d).Get(x) == Xor(p.Get(x), d.Get(x))
  {
    hide Xor;
    if x == 0 {} else if x == 1 {} else if x == 2 {} else if x == 3 {} else {}
  }

  lemma EffectAt(c: Quint<Lane>, x: nat)
    requires x < 5
    ensures Effect(c).Get(x) == Xor(c.Get((x + 4) % 5), Rotl(c.Get((x + 1) % 5), 1))
  {
    hide Xor, Rotl;
    if x == 0 {} else if x == 1 {} else if x == 2 {} else if x == 3 {} else {}
  }

  lemma ParityAt(a: Matrix, x: nat)
    requires x < 5
    ensures Parity(a).Get(x) == Column(a, x)
  {
    hide Xor5;
    if x == 0 {} else if x == 1 {} else if x == 2 {} else if x == 3 {} else {}
  }

  // ----- rho (section 3.2.2) -----

  predicate Turns(r: Quint<nat>) { r.e0 < 64 && r.e1 < 64 && r.e2 < 64 && r.e3 < 64 && r.e4 < 64 }

  function RotPlane(p: Quint<Lane>, r: Quint<nat>): Quint<Lane>
    requires Turns(r)
  {
    Quint(Rotl(p.e0, r.e0), Rotl(p.e1, r.e1), Rotl(p.e2, r.e2), Rotl(p.e3, r.e3), Rotl(p.e4, r.e4))
  }

  function Offsets(y: nat): (r: Quint<nat>)
    requires y < 5
    ensures Turns(r)
  {
    if y == 0 then Quint(0, 1, 62, 28, 27)
    else if y == 1 then Quint(36, 44, 6, 55, 20)
    else if y == 2 then Quint(3, 10, 43, 25, 39)
    else if y == 3 then Quint(41, 45, 15, 21, 8)
    else Quint(18, 2, 61, 56, 14)
  }

  function Rho(a: Matrix): Matrix {
    Quint(RotPlane(a.e0, Offsets(0)), RotPlane(a.e1, Offsets(1)), RotPlane(a.e2, Offsets(2)),
          RotPlane(a.e3, Offsets(3)), RotPlane(a.e4, Offsets(4)))
  }

  /** The lane visited at step `t` of Algorithm 2 of the standard. */
  function Walk(t: nat): (r: (nat, nat))
    ensures r.0 < 5 && r.1 < 5
  {
    if t == 0 then (1, 0) else var (x, y) := Walk(t - 1); (y, (2 * x + 3 * y) % 5)
  }

  function WalkTable(t: nat): (nat, nat)
    requires t < 24
  {
    [(1, 0), (0, 2), (2, 1), (1, 2), (2, 3), (3, 3), (3, 0), (0, 1), (1, 3), (3, 1), (1, 4), (4, 4),
     (4, 0), (0, 3), (3, 4), (4, 3), (3, 2), (2, 2), (2, 0), (0, 4), (4, 2), (2, 4), (4, 1), (1, 1)][t]
  }

  lemma {:induction false} WalkAt(t: nat)
    requires t < 24
    ensures Walk(t) == WalkTable(t)
  {
    if t > 0 {
      WalkAt(t - 1);
      WalkTableNext(t);
      hide WalkTable;
    }
  }

  lemma WalkTableNext(t: nat)
    requires 0 < t < 24
    ensures WalkTable(t) == (WalkTable(t - 1).1, (2 * WalkTable(t - 1).0 + 3 * WalkTable(t - 1).1) % 5)
  {
  }

  /** The walk passes through every lane but (0, 0). */
  lemma WalkCovers(x: nat, y: nat)
    requires x < 5 && y < 5 && (x, y) != (0, 0)
    ensures exists t: nat :: t < 24 && Walk(t) == (x, y)
  {
    var t := WalkIndex(x, y);
    WalkAt(t);
  }

  function WalkIndex(x: nat, y: nat): nat
    requires x < 5 && y < 5 && (x, y) != (0, 0)
    ensures WalkIndex(x, y) < 24 && WalkTable(WalkIndex(x, y)) == (x, y)
  {
    Quint(Quint(24, 0, 18, 6, 12), Quint(7, 23, 2, 9, 22), Quint(1, 3, 17, 16, 20),
          Quint(13, 8, 4, 5, 15), Quint(19, 10, 21, 14, 11)).Get(y).Get(x)
  }

  /** Lane `Walk(t)` turns by (t + 1)(t + 2) / 2 modulo the lane width. */
  lemma RhoAt(a: Matrix, t: nat)
    requires t < 24
    ensures var (x, y) := Walk(t);
            At(Rho(a), x, y) == Rotl(At(a, x, y), ((t + 1) * (t + 2) / 2) % 64)
  {
    hide Rotl, RotPlane, Offsets, Walk;
    var (x, y) := Walk(t);
    OffsetAt(t);
    RotPlaneAt(a.Get(y), Offsets(y), x);
  }

  /** Algorithm 2: A'[x, y, z] = A[x, y, (z - (t + 1)(t + 2) / 2) mod 64] along the walk. */
  lemma RhoBits(a: Matrix, t: nat, z: nat)
    requires t < 24 && z < 64
    ensures var (x, y) := Walk(t);
            LaneBit(At(Rho(a), x, y), z) == LaneBit(At(a, x, y), (z - (t + 1) * (t + 2) / 2) % 64)
  {
    hide Rotl, LaneBit, Rho, Walk, At;
    var (x, y) := Walk(t);
    RhoAt(a, t);
    var n := (t + 1) * (t + 2) / 2;
    RotlBit(At(a, x, y), n % 64, z);
    WholeTurns(z, n);
  }

  lemma WholeTurns(z: int, n: int)
    ensures (z - n % 64) % 64 == (z - n) % 64
  {
  }

  lemma RotPlaneAt(p: Quint<Lane>, r: Quint<nat>, x: nat)
    requires x < 5 && Turns(r)
    ensures r.Get(x) < 64 && RotPlane(p, r).Get(x) == Rotl(p.Get(x), r.Get(x))
  {
    hide Rotl;
  }

  lemma OffsetAt(t: nat)
    requires t < 24
    ensures Offsets(Walk(t).1).Get(Walk(t).0) == ((t + 1) * (t + 2) / 2) % 64
  {
    hide Walk;
    WalkAt(t);
    if t < 6 {
      assert t in {0, 1, 2, 3, 4, 5};
    } else if t < 12 {
      assert t in {6, 7, 8, 9, 10, 11};
    } else if t < 18 {
      assert t in {12, 13, 14, 15, 16, 17};
    } else {
      assert t in {18, 19, 20, 21, 22, 23};
    }
  }

  /** Lane (0, 0), which the walk leaves out, does not turn. */
  lemma RhoOrigin(a: Matrix)
    ensures At(Rho(a), 0, 0) == At(a, 0, 0)
  {
    RotlZero(a.e0.e0);
  }

  lemma RotlZero(v: Lane)
    ensures Rotl(v, 0) == v
  {
  }

  // ----- pi, chi, iota (sections 3.2.3 to 3.2.5) -----

  function Pi(a: Matrix): Matrix {
    Quint(Quint(a.e0.e0, a.e1.e1, a.e2.e2, a.e3.e3, a.e4.e4),
          Quint(a.e0.e3, a.e1.e4, a.e2.e0, a.e3.e1, a.e4.e2),
          Quint(a.e0.e1, a.e1.e2, a.e2.e3, a.e3.e4, a.e4.e0),
          Quint(a.e0.e4, a.e1.e0, a.e2.e1, a.e3.e2, a.e4.e3),
          Quint(a.e0.e2, a.e1.e3, a.e2.e4, a.e3.e0, a.e4.e1))
  }

  lemma PiAt(a: Matrix, x: nat, y: nat)
    requires x < 5 && y < 5
    ensures At(Pi(a), x, y) == At(a, (x + 3 * y) % 5, x)
  {
  }

  function ChiPlane(b: Quint<Lane>): Quint<Lane> {
    Quint(ChiLane(b.e0, b.e1, b.e2), ChiLane(b.e1, b.e2, b.e3), ChiLane(b.e2, b.e3, b.e4),
          ChiLane(b.e3, b.e4, b.e0), ChiLane(b.e4, b.e0, b.e1))
  }

  function Chi(a: Matrix): Matrix {
    Quint(ChiPlane(a.e0), ChiPlane(a.e1), ChiPlane(a.e2), ChiPlane(a.e3), ChiPlane(a.e4))
  }

  lemma ChiAt(a: Matrix, x: nat, y: nat)
    requires x < 5 && y < 5
    ensures At(Chi(a), x, y) == ChiLane(At(a, x, y), At(a, (x + 1) % 5, y), At(a, (x + 2) % 5, y))
  {
    hide ChiLane, ChiPlane;
    ChiPlaneAt(a.Get(y), x);
  }

  /** Algorithm 4: A'[x, y, z] = A[x, y, z] xor ((A[x + 1, y, z] xor 1) and A[x + 2, y, z]). */
  lemma ChiBits(a: Matrix, x: nat, y: nat, z: nat)
    requires x < 5 && y < 5 && z < 64
    ensures LaneBit(At(Chi(a), x, y), z)
         == (LaneBit(At(a, x, y), z) != (!LaneBit(At(a, (x + 1) % 5, y), z) && LaneBit(At(a, (x + 2) % 5, y), z)))
  {
    hide ChiLane, LaneBit, Chi, At;
    ChiAt(a, x, y);
    ChiBit(At(a, x, y), At(a, (x + 1) % 5, y), At(a, (x + 2) % 5, y), z);
  }

  lemma ChiPlaneAt(b: Quint<Lane>, x: nat)
    requires x < 5
    ensures ChiPlane(b).Get(x) == ChiLane(b.Get(x), b.Get((x + 1) % 5), b.Get((x + 2) % 5))
  {
    hide ChiLane;
    if x == 0 {} else if x == 1 {} else if x == 2 {} else if x == 3 {} else {}
  }

  function Iota(a: Matrix, rc: Lane): Matrix {
    a.(e0 := a.e0.(e0 := Xor(a.e0.e0, rc)))
  }

  /** Algorithm 6: the bits of lane (0, 0) are xored with those of the constant; no other bit changes. */
  lemma IotaBits(a: Matrix, rc: Lane, x: nat, y: nat, z: nat)
    requires x < 5 && y < 5 && z < 64
    ensures LaneBit(At(Iota(a, rc), x, y), z)
         == (LaneBit(At(a, x, y), z) != ((x, y) == (0, 0) && LaneBit(rc, z)))
  {
    hide Xor, LaneBit;
    XorBit(a.e0.e0, rc, z);
  }

  /** The shift register of Algorithm 5, bit 0 of the standard's string lowest. */
  function Register(t: nat): bv8 {
    if t == 0 then 1 else Shift(Register(t - 1))
  }

  function Shift(r: bv8): bv8 {
    (r << 1) ^ (if r & 0x80 != 0 then 0x71 else 0)
  }

  predicate Low(r: bv8) { r & 1 == 1 }

  function Assemble(b0: bool, b1: bool, b2: bool, b3: bool, b4: bool, b5: bool, b6: bool): Lane {
    Lane((if b0 then 0x1 else 0) | (if b1 then 0x2 else 0) | (if b2 then 0x8 else 0) | (if b3 then 0x80 else 0)
    | (if b4 then 0x8000 else 0) | (if b5 then 0x8000_0000 else 0) | (if b6 then 0x8000_0000_0000_0000 else 0))
  }

  /** Bit 2^j - 1 of the constant of round `i` is rc(j + 7i). */
  function RoundConstant(i: nat): Lane {
    Assemble(Low(Register(7 * i)), Low(Register(7 * i + 1)), Low(Register(7 * i + 2)), Low(Register(7 * i + 3)),
             Low(Register(7 * i + 4)), Low(Register(7 * i + 5)), Low(Register(7 * i + 6)))
  }

  // ----- rounds (section 3.3) -----

  function Round(a: Matrix, rc: Lane): Matrix {
    Iota(Chi(Pi(Rho(Theta(a)))), rc)
  }

  function Rounds(a: Matrix, n: nat): Matrix {
    if n == 0 then a else Round(Rounds(a, n - 1), RoundConstant(n - 1))
  }
}

/**
 The in-place, four-times unrolled permutation.  The 25 words of `a` hold the lanes in their
 home slots x + 5y only between passes; inside a pass each round leaves lane (x, y) in the
 slot that `Slots` gives for that round.
 */
module Keccakf {
  import opened Fips202

  type Words = s: seq<Lane> | |s| == 25 witness seq(25, _ => Lane(0))

  function RC(i: nat): bv64
    requires i < 24
  {
    [0x0000000000000001, 0x0000000000008082, 0x800000000000808A, 0x8000000080008000,
     0x000000000000808B, 0x0000000080000001, 0x8000000080008081, 0x8000000000008009,
     0x000000000000008A, 0x0000000000000088, 0x0000000080008009, 0x000000008000000A,
     0x000000008000808B, 0x800000000000008B, 0x8000000000008089, 0x8000000000008003,
     0x8000000000008002, 0x8000000000000080, 0x000000000000800A, 0x800000008000000A,
     0x8000000080008081, 0x8000000000008080, 0x0000000080000001, 0x8000000080008008][i]
  }

  /** The slots that unrolled round `k` reads and then overwrites for plane `y` of its result. */
  function Slots(k: nat, y: nat): (s: Quint<nat>)
    requires k < 4 && y < 5
    ensures InWords(s)
  {
    match k
    case 0 => (match y
               case 0 => Quint(0, 6, 12, 18, 24)
               case 1 => Quint(10, 16, 22, 3, 9)
               case 2 => Quint(20, 1, 7, 13, 19)
               case 3 => Quint(5, 11, 17, 23, 4)
               case 4 => Quint(15, 21, 2, 8, 14))
    case 1 => (match y
               case 0 => Quint(0, 16, 7, 23, 14)
               case 1 => Quint(20, 11, 2, 18, 9)
               case 2 => Quint(15, 6, 22, 13, 4)
               case 3 => Quint(10, 1, 17, 8, 24)
               case 4 => Quint(5, 21, 12, 3, 19))
    case 2 => (match y
               case 0 => Quint(0, 11, 22, 8, 19)
               case 1 => Quint(15, 1, 12, 23, 9)
               case 2 => Quint(5, 16, 2, 13, 24)
               case 3 => Quint(20, 6, 17, 3, 14)
               case 4 => Quint(10, 21, 7, 18, 4))
    case 3 => (match y
               case 0 => Quint(0, 1, 2, 3, 4)
               case 1 => Quint(5, 6, 7, 8, 9)
               case 2 => Quint(10, 11, 12, 13, 14)
               case 3 => Quint(15, 16, 17, 18, 19)
               case 4 => Quint(20, 21, 22, 23, 24))
  }

  predicate InWords(s: Quint<nat>) { s.e0 < 25 && s.e1 < 25 && s.e2 < 25 && s.e3 < 25 && s.e4 < 25 }

  /** The slot permutation in closed form: after unrolled round `k`, lane (x, y) keeps its column
      and sits in row p*x + q*y, where (p, q) is (1, 2), (3, 4), (2, 3) and then (0, 1), home. */
  lemma SlotFormula(k: nat, x: nat, y: nat)
    requires k < 4 && x < 5 && y < 5
    ensures var (p, q) := [(1, 2), (3, 4), (2, 3), (0, 1)][k];
            Slots(k, y).Get(x) == x + 5 * ((p * x + q * y) % 5)
  {
    if k == 0 {} else if k == 1 {} else if k == 2 {} else {}
  }

  // ----- one round on words -----

  function Load(a: Words, s: Quint<nat>): Quint<Lane>
    requires InWords(s)
  {
    Quint(a[s.e0], a[s.e1], a[s.e2], a[s.e3], a[s.e4])
  }

  function Store(a: Words, s: Quint<nat>, p: Quint<Lane>): Words
    requires InWords(s)
  {
    a[s.e0 := p.e0][s.e1 := p.e1][s.e2 := p.e2][s.e3 := p.e3][s.e4 := p.e4]
  }

  function Effects(a: Words): Quint<Lane> {
    Effect(Quint(Xor5(a[0], a[5], a[10], a[15], a[20]),
                 Xor5(a[1], a[6], a[11], a[16], a[21]),
                 Xor5(a[2], a[7], a[12], a[17], a[22]),
                 Xor5(a[3], a[8], a[13], a[18], a[23]),
                 Xor5(a[4], a[9], a[14], a[19], a[24])))
  }

  /** The temporaries bc0 to bc4 of plane `y`, from the five words read for it. */
  function Temporaries(y: nat, t: Quint<Lane>): Quint<Lane>
    requires y < 5
  {
    match y
    case 0 => RotPlane(t, Quint(0, 44, 43, 21, 14))
    case 1 => var b := RotPlane(t, Quint(3, 45, 61, 28, 20)); Quint(b.e3, b.e4, b.e0, b.e1, b.e2)
    case 2 => var b := RotPlane(t, Quint(18, 1, 6, 25, 8)); Quint(b.e1, b.e2, b.e3, b.e4, b.e0)
    case 3 => var b := RotPlane(t, Quint(36, 10, 15, 56, 27)); Quint(b.e4, b.e0, b.e1, b.e2, b.e3)
    case 4 => var b := RotPlane(t, Quint(41, 2, 62, 55, 39)); Quint(b.e2, b.e3, b.e4, b.e0, b.e1)
  }

  function PlaneOut(y: nat, t: Quint<Lane>, rc: Lane): Quint<Lane>
    requires y < 5
  {
    var p := ChiPlane(Temporaries(y, t));
    if y == 0 then p.(e0 := Xor(p.e0, rc)) else p
  }

  function PlaneStep(a: Words, s: Quint<nat>, y: nat, d: Quint<Lane>, rc: Lane): Words
    requires InWords(s) && y < 5
  {
    Store(a, s, PlaneOut(y, XorPlane(Load(a, s), d), rc))
  }

  function RoundStep(a: Words, k: nat, rc: Lane): Words
    requires k < 4
  {
    var d := Effects(a);
    var a1 := PlaneStep(a, Slots(k, 0), 0, d, rc);
    var a2 := PlaneStep(a1, Slots(k, 1), 1, d, rc);
    var a3 := PlaneStep(a2, Slots(k, 2), 2, d, rc);
    var a4 := PlaneStep(a3, Slots(k, 3), 3, d, rc);
    PlaneStep(a4, Slots(k, 4), 4, d, rc)
  }

  /** `a` holds state `m` in the layout that unrolled round `k` leaves behind. */
  ghost predicate Placed(k: nat, a: Words, m: Matrix)
    requires k < 4
  {
    && Load(a, Slots(k, 0)) == m.e0
    && Load(a, Slots(k, 1)) == m.e1
    && Load(a, Slots(k, 2)) == m.e2
    && Load(a, Slots(k, 3)) == m.e3
    && Load(a, Slots(k, 4)) == m.e4
  }

  // ----- a round on words refines a round of the standard -----

  /** The lanes that pi brings together in plane `y`, ordered by column. */
  function Diagonal(m: Matrix, y: nat): Quint<Lane>
    requires y < 5
  {
    match y
    case 0 => Quint(m.e0.e0, m.e1.e1, m.e2.e2, m.e3.e3, m.e4.e4)
    case 1 => Quint(m.e2.e0, m.e3.e1, m.e4.e2, m.e0.e3, m.e1.e4)
    case 2 => Quint(m.e4.e0, m.e0.e1, m.e1.e2, m.e2.e3, m.e3.e4)
    case 3 => Quint(m.e1.e0, m.e2.e1, m.e3.e2, m.e4.e3, m.e0.e4)
    case 4 => Quint(m.e3.e0, m.e4.e1, m.e0.e2, m.e1.e3, m.e2.e4)
  }

  lemma ReadsDiagonal(k: nat, a: Words, m: Matrix, y: nat)
    requires k < 4 && y < 5 && Placed((k + 3) % 4, a, m)
    ensures Load(a, Slots(k, y)) == Diagonal(m, y)
  {
    if k == 0 {} else if k == 1 {} else if k == 2 {} else {}
  }

  lemma XorSwap(v: Lane, w: Lane, u: Lane)
    ensures Xor(v, w) == Xor(w, v)
    ensures Xor(Xor(u, v), w) == Xor(Xor(u, w), v)
  {
    hide Xor;
    XorBits(v, w);
    XorBits(w, v);
    XorBits(u, v);
    XorBits(u, w);
    XorBits(Xor(u, v), w);
    XorBits(Xor(u, w), v);
    BitsSwap(u.bits, v.bits, w.bits, Xor(u, v).bits, Xor(u, w).bits);
  }

  lemma XorBits(v: Lane, w: Lane)
    ensures Xor(v, w).bits == v.bits ^ w.bits
  {
  }

  lemma BitsSwap(u: bv64, v: bv64, w: bv64, uv: bv64, uw: bv64)
    requires uv == u ^ v && uw == u ^ w
    ensures uv ^ w == uw ^ v
  {
  }

  lemma Xor5Turn(a: Lane, b: Lane, c: Lane, d: Lane, e: Lane)
    ensures Xor5(b, c, d, e, a) == Xor5(a, b, c, d, e)
  {
    hide Xor;
    XorSwap(a, b, a);
    XorSwap(a, c, b);
    XorSwap(a, d, Xor(b, c));
    XorSwap(a, e, Xor(Xor(b, c), d));
  }

  lemma Xor5Double(a: Lane, b: Lane, c: Lane, d: Lane, e: Lane)
    ensures Xor5(a, c, e, b, d) == Xor5(a, b, c, d, e)
  {
    hide Xor;
    XorSwap(b, c, a);
    XorSwap(b, e, Xor(a, c));
    XorSwap(d, e, Xor(Xor(a, b), c));
  }

  /** The five lanes of a column add up to the same parity in every layout of the rows. */
  lemma ColumnSum(v: Quint<Lane>)
    ensures var s := Xor5(v.e0, v.e1, v.e2, v.e3, v.e4);
            && s == Xor5(v.e0, v.e2, v.e4, v.e1, v.e3)
            && s == Xor5(v.e2, v.e4, v.e1, v.e3, v.e0)
            && s == Xor5(v.e4, v.e1, v.e3, v.e0, v.e2)
            && s == Xor5(v.e1, v.e3, v.e0, v.e2, v.e4)
            && s == Xor5(v.e3, v.e0, v.e2, v.e4, v.e1)
            && s == Xor5(v.e0, v.e3, v.e1, v.e4, v.e2)
            && s == Xor5(v.e3, v.e1, v.e4, v.e2, v.e0)
            && s == Xor5(v.e1, v.e4, v.e2, v.e0, v.e3)
            && s == Xor5(v.e4, v.e2, v.e0, v.e3, v.e1)
            && s == Xor5(v.e2, v.e0, v.e3, v.e1, v.e4)
            && s == Xor5(v.e0, v.e4, v.e3, v.e2, v.e1)
            && s == Xor5(v.e4, v.e3, v.e2, v.e1, v.e0)
            && s == Xor5(v.e3, v.e2, v.e1, v.e0, v.e4)
            && s == Xor5(v.e2, v.e1, v.e0, v.e4, v.e3)
            && s == Xor5(v.e1, v.e0, v.e4, v.e3, v.e2)
  {
    hide Xor5;
    Xor5Double(v.e0, v.e1, v.e2, v.e3, v.e4);
    Xor5Double(v.e0, v.e2, v.e4, v.e1, v.e3);
    Xor5Double(v.e0, v.e4, v.e3, v.e2, v.e1);
    Xor5Turn(v.e0, v.e2, v.e4, v.e1, v.e3);
    Xor5Turn(v.e2, v.e4, v.e1, v.e3, v.e0);
    Xor5Turn(v.e4, v.e1, v.e3, v.e0, v.e2);
    Xor5Turn(v.e1, v.e3, v.e0, v.e2, v.e4);
    Xor5Turn(v.e0, v.e3, v.e1, v.e4, v.e2);
    Xor5Turn(v.e3, v.e1, v.e4, v.e2, v.e0);
    Xor5Turn(v.e1, v.e4, v.e2, v.e0, v.e3);
    Xor5Turn(v.e4, v.e2, v.e0, v.e3, v.e1);
    Xor5Turn(v.e0, v.e4, v.e3, v.e2, v.e1);
    Xor5Turn(v.e4, v.e3, v.e2, v.e1, v.e0);
    Xor5Turn(v.e3, v.e2, v.e1, v.e0, v.e4);
    Xor5Turn(v.e2, v.e1, v.e0, v.e4, v.e3);
  }

  lemma SameColumn(k: nat, a: Words, m: Matrix, x: nat)
    requires k < 4 && x < 5 && Placed((k + 3) % 4, a, m)
    ensures Xor5(a[x], a[x + 5], a[x + 10], a[x + 15], a[x + 20]) == Column(m, x)
  {
    hide Xor5;
    ColumnSum(Quint(At(m, x, 0), At(m, x, 1), At(m, x, 2), At(m, x, 3), At(m, x, 4)));
    if k == 0 {} else if k == 1 {} else if k == 2 {} else {}
  }

  lemma SameEffects(k: nat, a: Words, m: Matrix)
    requires k < 4 && Placed((k + 3) % 4, a, m)
    ensures Effects(a) == Effect(Parity(m))
  {
    hide Xor5, Effect, Placed;
    SameColumn(k, a, m, 0);
    SameColumn(k, a, m, 1);
    SameColumn(k, a, m, 2);
    SameColumn(k, a, m, 3);
    SameColumn(k, a, m, 4);
  }

  lemma MixedPlane(m: Matrix, d: Quint<Lane>, y: nat)
    requires y < 5
    ensures Pi(Rho(Quint(XorPlane(m.e0, d), XorPlane(m.e1, d), XorPlane(m.e2, d),
                         XorPlane(m.e3, d), XorPlane(m.e4, d)))).Get(y)
         == Temporaries(y, XorPlane(Diagonal(m, y), d))
  {
    hide Xor, Rotl;
    if y == 0 {} else if y == 1 {} else if y == 2 {} else if y == 3 {} else {}
  }

  lemma PlaneOfRound(m: Matrix, y: nat, rc: Lane)
    requires y < 5
    ensures Round(m, rc).Get(y) == PlaneOut(y, XorPlane(Diagonal(m, y), Effect(Parity(m))), rc)
  {
    hide Xor, Effect, Parity, XorPlane, Rho, Pi, ChiPlane, Temporaries;
    MixedPlane(m, Effect(Parity(m)), y);
  }

  lemma StoreFrame(a: Words, k: nat, y: nat, p: Quint<Lane>, z: nat)
    requires k < 4 && y < 5 && z < 5
    ensures Load(Store(a, Slots(k, y), p), Slots(k, z)) == if y == z then p else Load(a, Slots(k, z))
  {
    if k == 0 {} else if k == 1 {} else if k == 2 {} else {}
  }

  /** Unrolled round `k`, on a state in the layout the round before it left, is one round of the
      standard on that state, in the layout of round `k`. */
  lemma RoundStepRefines(k: nat, a: Words, m: Matrix, rc: Lane)
    requires k < 4 && Placed((k + 3) % 4, a, m)
    ensures Placed(k, RoundStep(a, k, rc), Round(m, rc))
  {
    hide Slots, Effects, Effect, Parity, Load, Store, PlaneOut, XorPlane, Round, Diagonal;
    var d := Effects(a);
    SameEffects(k, a, m);
    ghost var p := (y: nat) requires y < 5 => PlaneOut(y, XorPlane(Diagonal(m, y), d), rc);
    var a1 := PlaneStep(a, Slots(k, 0), 0, d, rc);
    var a2 := PlaneStep(a1, Slots(k, 1), 1, d, rc);
    var a3 := PlaneStep(a2, Slots(k, 2), 2, d, rc);
    var a4 := PlaneStep(a3, Slots(k, 3), 3, d, rc);
    forall y: nat | y < 5
      ensures Load(a, Slots(k, y)) == Diagonal(m, y)
      ensures Round(m, rc).Get(y) == p(y)
    {
      ReadsDiagonal(k, a, m, y);
      PlaneOfRound(m, y, rc);
    }
    forall z: nat | z < 5
      ensures Load(a1, Slots(k, z)) == if z == 0 then p(0) else Load(a, Slots(k, z))
    {
      StoreFrame(a, k, 0, p(0), z);
    }
    forall z: nat | z < 5
      ensures Load(a2, Slots(k, z)) == if z == 1 then p(1) else Load(a1, Slots(k, z))
    {
      StoreFrame(a1, k, 1, p(1), z);
    }
    forall z: nat | z < 5
      ensures Load(a3, Slots(k, z)) == if z == 2 then p(2) else Load(a2, Slots(k, z))
    {
      StoreFrame(a2, k, 2, p(2), z);
    }
    forall z: nat | z < 5
      ensures Load(a4, Slots(k, z)) == if z == 3 then p(3) else Load(a3, Slots(k, z))
    {
      StoreFrame(a3, k, 3, p(3), z);
    }
    forall z: nat | z < 5
      ensures Load(RoundStep(a, k, rc), Slots(k, z)) == if z == 4 then p(4) else Load(a4, Slots(k, z))
    {
      StoreFrame(a4, k, 4, p(4), z);
    }
  }

  // ----- the round constants -----

  /** The register at the start of round `i`. */
  function RegisterTable(i: nat): bv8
    requires i < 24
  {
    [0x01, 0x80, 0xd8, 0x1a, 0xdf, 0x09, 0x35, 0x4f, 0xca, 0x70, 0x41, 0xec,
     0xd5, 0xcd, 0x63, 0xab, 0xaa, 0x2a, 0xf2, 0xe8, 0x37, 0x3e, 0x0b, 0x44][i]
  }

  /** The constant that seven steps of the register from `r` spell out. */
  function Spelt(r: bv8): Lane {
    var r1 := Shift(r); var r2 := Shift(r1); var r3 := Shift(r2);
    var r4 := Shift(r3); var r5 := Shift(r4); var r6 := Shift(r5);
    Assemble(Low(r), Low(r1), Low(r2), Low(r3), Low(r4), Low(r5), Low(r6))
  }

  function Shift7(r: bv8): bv8 { Shift(Shift(Shift(Shift(Shift(Shift(Shift(r))))))) }

  lemma RegisterRound(i: nat)
    ensures RoundConstant(i) == Spelt(Register(7 * i))
    ensures Register(7 * i + 7) == Shift7(Register(7 * i))
  {
    hide Shift, Assemble, Low;
    assert Register(7 * i + 1) == Shift(Register(7 * i));
    assert Register(7 * i + 2) == Shift(Register(7 * i + 1));
    assert Register(7 * i + 3) == Shift(Register(7 * i + 2));
    assert Register(7 * i + 4) == Shift(Register(7 * i + 3));
    assert Register(7 * i + 5) == Shift(Register(7 * i + 4));
    assert Register(7 * i + 6) == Shift(Register(7 * i + 5));
    assert Register(7 * i + 7) == Shift(Register(7 * i + 6));
  }

  lemma RegisterTableNext(i: nat)
    requires i < 23
    ensures Shift7(RegisterTable(i)) == RegisterTable(i + 1)
  {
  }

  lemma SpeltTable0(i: nat)
    requires 0 <= i < 6
    ensures Spelt(RegisterTable(i)) == Lane(RC(i))
  {
  }

  lemma SpeltTable1(i: nat)
    requires 6 <= i < 12
    ensures Spelt(RegisterTable(i)) == Lane(RC(i))
  {
  }

  lemma SpeltTable2(i: nat)
    requires 12 <= i < 18
    ensures Spelt(RegisterTable(i)) == Lane(RC(i))
  {
  }

  lemma SpeltTable3(i: nat)
    requires 18 <= i < 24
    ensures Spelt(RegisterTable(i)) == Lane(RC(i))
  {
  }

  /** The table of constants is what the shift register of the standard generates. */
  lemma RoundConstants(i: nat)
    requires i < 24
    ensures Lane(RC(i)) == RoundConstant(i)
  {
    RegisterAt(i);
    hide Spelt, Shift7, Shift, RoundConstant, RC, RegisterTable;
    RegisterRound(i);
    if i < 6 {
      SpeltTable0(i);
    } else if i < 12 {
      SpeltTable1(i);
    } else if i < 18 {
      SpeltTable2(i);
    } else {
      SpeltTable3(i);
    }
  }

  lemma RegisterStart()
    ensures Register(0) == RegisterTable(0)
  {
  }

  lemma {:induction false} RegisterAt(i: nat)
    requires i < 24
    ensures Register(7 * i) == RegisterTable(i)
  {
    hide Shift7, Shift, Register, RegisterTable, Spelt, Fips202.RoundConstant;
    if i == 0 {
      RegisterStart();
    } else {
      RegisterAt(i - 1);
      RegisterRound(i - 1);
      RegisterTableNext(i - 1);
      assert 7 * i == 7 * (i - 1) + 7;
    }
  }

  // ----- the array code -----

  /** The state that 25 words in their home slots hold. */
  function ToMatrix(a: Words): Matrix {
    Quint(Load(a, Slots(3, 0)), Load(a, Slots(3, 1)), Load(a, Slots(3, 2)), Load(a, Slots(3, 3)), Load(a, Slots(3, 4)))
  }

  /** Keccak-f[1600] of the standard, on words in their home slots. */
  /** The lanes are stored row by row. */
  lemma LaneAt(a: Words, x: nat, y: nat)
    requires x < 5 && y < 5
    ensures At(ToMatrix(a), x, y) == a[5 * y + x]
  {
    if y == 0 {} else if y == 1 {} else if y == 2 {} else if y == 3 {} else {}
  }

  function KeccakF(a: Words): Words {
    var m := Rounds(ToMatrix(a), 24);
    [m.e0.e0, m.e0.e1, m.e0.e2, m.e0.e3, m.e0.e4,
     m.e1.e0, m.e1.e1, m.e1.e2, m.e1.e3, m.e1.e4,
     m.e2.e0, m.e2.e1, m.e2.e2, m.e2.e3, m.e2.e4,
     m.e3.e0, m.e3.e1, m.e3.e2, m.e3.e3, m.e3.e4,
     m.e4.e0, m.e4.e1, m.e4.e2, m.e4.e3, m.e4.e4]
  }

  method Plane0(a: array<Lane>, s: Quint<nat>, d: Quint<Lane>, rc: Lane)
    requires a.Length == 25 && InWords(s)
    modifies a
    ensures a[..] == PlaneStep(old(a[..]), s, 0, d, rc)
  {
    hide Xor, Rotl, ChiLane;
    var bc0 := Xor(a[s.e0], d.e0);
    RotlZero(bc0);
    var bc1 := Rotl(Xor(a[s.e1], d.e1), 44);
    var bc2 := Rotl(Xor(a[s.e2], d.e2), 43);
    var bc3 := Rotl(Xor(a[s.e3], d.e3), 21);
    var bc4 := Rotl(Xor(a[s.e4], d.e4), 14);
    a[s.e0] := Xor(ChiLane(bc0, bc1, bc2), rc);
    a[s.e1] := ChiLane(bc1, bc2, bc3);
    a[s.e2] := ChiLane(bc2, bc3, bc4);
    a[s.e3] := ChiLane(bc3, bc4, bc0);
    a[s.e4] := ChiLane(bc4, bc0, bc1);
  }

  method Plane1(a: array<Lane>, s: Quint<nat>, d: Quint<Lane>, ghost rc: Lane)
    requires a.Length == 25 && InWords(s)
    modifies a
    ensures a[..] == PlaneStep(old(a[..]), s, 1, d, rc)
  {
    hide Xor, Rotl, ChiLane;
    var bc2 := Rotl(Xor(a[s.e0], d.e0), 3);
    var bc3 := Rotl(Xor(a[s.e1], d.e1), 45);
    var bc4 := Rotl(Xor(a[s.e2], d.e2), 61);
    var bc0 := Rotl(Xor(a[s.e3], d.e3), 28);
    var bc1 := Rotl(Xor(a[s.e4], d.e4), 20);
    StorePlane(a, s, Quint(bc0, bc1, bc2, bc3, bc4));
  }

  method Plane2(a: array<Lane>, s: Quint<nat>, d: Quint<Lane>, ghost rc: Lane)
    requires a.Length == 25 && InWords(s)
    modifies a
    ensures a[..] == PlaneStep(old(a[..]), s, 2, d, rc)
  {
    hide Xor, Rotl, ChiLane;
    var bc4 := Rotl(Xor(a[s.e0], d.e0), 18);
    var bc0 := Rotl(Xor(a[s.e1], d.e1), 1);
    var bc1 := Rotl(Xor(a[s.e2], d.e2), 6);
    var bc2 := Rotl(Xor(a[s.e3], d.e3), 25);
    var bc3 := Rotl(Xor(a[s.e4], d.e4), 8);
    StorePlane(a, s, Quint(bc0, bc1, bc2, bc3, bc4));
  }

  method Plane3(a: array<Lane>, s: Quint<nat>, d: Quint<Lane>, ghost rc: Lane)
    requires a.Length == 25 && InWords(s)
    modifies a
    ensures a[..] == PlaneStep(old(a[..]), s, 3, d, rc)
  {
    hide Xor, Rotl, ChiLane;
    var bc1 := Rotl(Xor(a[s.e0], d.e0), 36);
    var bc2 := Rotl(Xor(a[s.e1], d.e1), 10);
    var bc3 := Rotl(Xor(a[s.e2], d.e2), 15);
    var bc4 := Rotl(Xor(a[s.e3], d.e3), 56);
    var bc0 := Rotl(Xor(a[s.e4], d.e4), 27);
    StorePlane(a, s, Quint(bc0, bc1, bc2, bc3, bc4));
  }

  method Plane4(a: array<Lane>, s: Quint<nat>, d: Quint<Lane>, ghost rc: Lane)
    requires a.Length == 25 && InWords(s)
    modifies a
    ensures a[..] == PlaneStep(old(a[..]), s, 4, d, rc)
  {
    hide Xor, Rotl, ChiLane;
    var bc3 := Rotl(Xor(a[s.e0], d.e0), 41);
    var bc4 := Rotl(Xor(a[s.e1], d.e1), 2);
    var bc0 := Rotl(Xor(a[s.e2], d.e2), 62);
    var bc1 := Rotl(Xor(a[s.e3], d.e3), 55);
    var bc2 := Rotl(Xor(a[s.e4], d.e4), 39);
    StorePlane(a, s, Quint(bc0, bc1, bc2, bc3, bc4));
  }

  method StorePlane(a: array<Lane>, s: Quint<nat>, b: Quint<Lane>)
    requires a.Length == 25 && InWords(s)
    modifies a
    ensures a[..] == Store(old(a[..]), s, ChiPlane(b))
  {
    hide ChiLane;
    a[s.e0] := ChiLane(b.e0, b.e1, b.e2);
    a[s.e1] := ChiLane(b.e1, b.e2, b.e3);
    a[s.e2] := ChiLane(b.e2, b.e3, b.e4);
    a[s.e3] := ChiLane(b.e3, b.e4, b.e0);
    a[s.e4] := ChiLane(b.e4, b.e0, b.e1);
  }

  /** One of the four unrolled rounds: the theta effects first, then the five planes in place. */
  method UnrolledRound(a: array<Lane>, k: nat, rc: Lane)
    requires a.Length == 25 && k < 4
    modifies a
    ensures a[..] == RoundStep(old(a[..]), k, rc)
  {
    hide Xor5, Rotl, Xor, Slots, PlaneStep;
    var bc0 := Xor5(a[0], a[5], a[10], a[15], a[20]);
    var bc1 := Xor5(a[1], a[6], a[11], a[16], a[21]);
    var bc2 := Xor5(a[2], a[7], a[12], a[17], a[22]);
    var bc3 := Xor5(a[3], a[8], a[13], a[18], a[23]);
    var bc4 := Xor5(a[4], a[9], a[14], a[19], a[24]);
    var d0 := Xor(bc4, Rotl(bc1, 1));
    var d1 := Xor(bc0, Rotl(bc2, 1));
    var d2 := Xor(bc1, Rotl(bc3, 1));
    var d3 := Xor(bc2, Rotl(bc4, 1));
    var d4 := Xor(bc3, Rotl(bc0, 1));
    var d := Quint(d0, d1, d2, d3, d4);
    assert d == Effects(a[..]);
    Plane0(a, Slots(k, 0), d, rc);
    Plane1(a, Slots(k, 1), d, rc);
    Plane2(a, Slots(k, 2), d, rc);
    Plane3(a, Slots(k, 3), d, rc);
    Plane4(a, Slots(k, 4), d, rc);
  }

  /** The unrolled in-place permutation is Keccak-f[1600]. */
  method KeccakF1600(a: array<Lane>)
    requires a.Length == 25
    modifies a
    ensures a[..] == KeccakF(old(a[..]))
  {
    hide RoundStep, Round, RoundConstant, Placed, RC;
    ghost var m := ToMatrix(a[..]);
    PlacedHome(a[..], m);
    var i := 0;
    while i < 24
      invariant 0 <= i <= 24 && i % 4 == 0
      invariant Placed(3, a[..], Rounds(m, i))
    {
      RoundConstants(i);
      RoundConstants(i + 1);
      RoundConstants(i + 2);
      RoundConstants(i + 3);
      RoundStepRefines(0, a[..], Rounds(m, i), Lane(RC(i)));
      UnrolledRound(a, 0, Lane(RC(i)));
      RoundStepRefines(1, a[..], Rounds(m, i + 1), Lane(RC(i + 1)));
      UnrolledRound(a, 1, Lane(RC(i + 1)));
      RoundStepRefines(2, a[..], Rounds(m, i + 2), Lane(RC(i + 2)));
      UnrolledRound(a, 2, Lane(RC(i + 2)));
      RoundStepRefines(3, a[..], Rounds(m, i + 3), Lane(RC(i + 3)));
      UnrolledRound(a, 3, Lane(RC(i + 3)));
      i := i + 4;
    }
    PlacedHome(a[..], Rounds(m, 24));
  }

  lemma PlacedHome(a: Words, m: Matrix)
    ensures Placed(3, a, m) <==> ToMatrix(a) == m
    ensures ToMatrix(a) == m ==>
      a == [m.e0.e0, m.e0.e1, m.e0.e2, m.e0.e3, m.e0.e4,
            m.e1.e0, m.e1.e1, m.e1.e2, m.e1.e3, m.e1.e4,
            m.e2.e0, m.e2.e1, m.e2.e2, m.e2.e3, m.e2.e4,
            m.e3.e0, m.e3.e1, m.e3.e2, m.e3.e3, m.e3.e4,
            m.e4.e0, m.e4.e1, m.e4.e2, m.e4.e3, m.e4.e4]
  {
  }
}
