/**
 Bytes and lanes.  A state string is the 200 bytes of its 25 lanes, each lane lowest byte first,
 which is the bit order of section 3.1.2 of FIPS 202.
 */
module StateString {
  import opened Fips202
  import opened Keccakf

  type Byte = bv8

  function XorByte(b: Byte, c: Byte): Byte { b ^ c }

  function LaneOf(b: seq<Byte>): Lane
    requires |b| == 8
  {
    Lane((b[0] as bv64) | ((b[1] as bv64) << 8) | ((b[2] as bv64) << 16) | ((b[3] as bv64) << 24)
         | ((b[4] as bv64) << 32) | ((b[5] as bv64) << 40) | ((b[6] as bv64) << 48) | ((b[7] as bv64) << 56))
  }

  function Octet0(v: bv64): Byte { (v & 0xff) as Byte }
  function Octet1(v: bv64): Byte { ((v >> 8) & 0xff) as Byte }
  function Octet2(v: bv64): Byte { ((v >> 16) & 0xff) as Byte }
  function Octet3(v: bv64): Byte { ((v >> 24) & 0xff) as Byte }
  function Octet4(v: bv64): Byte { ((v >> 32) & 0xff) as Byte }
  function Octet5(v: bv64): Byte { ((v >> 40) & 0xff) as Byte }
  function Octet6(v: bv64): Byte { ((v >> 48) & 0xff) as Byte }
  function Octet7(v: bv64): Byte { ((v >> 56) & 0xff) as Byte }

  function BytesOf(l: Lane): (b: seq<Byte>)
    ensures |b| == 8
  {
    var v := l.bits;
    [Octet0(v), Octet1(v), Octet2(v), Octet3(v), Octet4(v), Octet5(v), Octet6(v), Octet7(v)]
  }

  lemma BytesOfLaneOf(b: seq<Byte>)
    requires |b| == 8
    ensures BytesOf(LaneOf(b)) == b
  {
  }

  lemma LaneOfBytesOf(l: Lane)
    ensures LaneOf(BytesOf(l)) == l
  {
  }

  lemma OctetXor(v: bv64, w: bv64)
    ensures Octet0(v ^ w) == XorByte(Octet0(v), Octet0(w)) && Octet1(v ^ w) == XorByte(Octet1(v), Octet1(w))
    ensures Octet2(v ^ w) == XorByte(Octet2(v), Octet2(w)) && Octet3(v ^ w) == XorByte(Octet3(v), Octet3(w))
    ensures Octet4(v ^ w) == XorByte(Octet4(v), Octet4(w)) && Octet5(v ^ w) == XorByte(Octet5(v), Octet5(w))
    ensures Octet6(v ^ w) == XorByte(Octet6(v), Octet6(w)) && Octet7(v ^ w) == XorByte(Octet7(v), Octet7(w))
  {
  }

  function XorOctets(b: seq<Byte>, c: seq<Byte>): seq<Byte>
    requires |b| == |c| == 8
  {
    [XorByte(b[0], c[0]), XorByte(b[1], c[1]), XorByte(b[2], c[2]), XorByte(b[3], c[3]),
     XorByte(b[4], c[4]), XorByte(b[5], c[5]), XorByte(b[6], c[6]), XorByte(b[7], c[7])]
  }

  lemma BytesOfXor(l: Lane, m: Lane)
    ensures BytesOf(Xor(l, m)) == XorOctets(BytesOf(l), BytesOf(m))
  {
    hide XorByte, Octet0, Octet1, Octet2, Octet3, Octet4, Octet5, Octet6, Octet7;
    OctetXor(l.bits, m.bits);
    var u := Xor(l, m).bits;
  }

  lemma XorOctetsAt(b: seq<Byte>, c: seq<Byte>, k: nat)
    requires |b| == |c| == 8 && k < 8
    ensures XorOctets(b, c)[k] == XorByte(b[k], c[k])
  {
    hide XorByte;
  }

  // ----- the bits of a lane, in the order of its bytes -----

  /** The bits of a byte, lowest first (appendix B.1). */
  function Bits(b: Byte): (r: seq<bool>)
    ensures |r| == 8
  {
    [b & 1 != 0, b & 2 != 0, b & 4 != 0, b & 8 != 0, b & 16 != 0, b & 32 != 0, b & 64 != 0, b & 128 != 0]
  }

  function Down(v: bv64, k: nat): bv64 { if k == 0 then v else Drop(Down(v, k - 1)) }

  function Drop(v: bv64): bv64 { v >> 8 }

  lemma MeetsDown(v: bv64, z: nat)
    requires z < 63
    ensures Meets(v >> 1, Mask(z)) == Meets(v, Mask(z + 1))
  {
    hide Meets, Mask;
    MaskFacts(z);
    MeetsHalf(v, Mask(z));
  }

  lemma MeetsHalf(v: bv64, m: bv64)
    requires m & 0x8000_0000_0000_0000 == 0
    ensures Meets(v >> 1, m) == Meets(v, m << 1)
  {
  }

  lemma Halves(v: bv64)
    ensures (v >> 1) >> 1 == v >> 2 && (v >> 2) >> 2 == v >> 4 && (v >> 4) >> 4 == v >> 8
  {
  }

  lemma MeetsTwice(v: bv64, z: nat)
    requires z < 62
    ensures Meets((v >> 1) >> 1, Mask(z)) == Meets(v, Mask(z + 2))
  {
    hide Meets, Mask;
    MeetsDown(v, z + 1);
    MeetsDown(v >> 1, z);
  }

  lemma Meets2(v: bv64, z: nat)
    requires z < 62
    ensures Meets(v >> 2, Mask(z)) == Meets(v, Mask(z + 2))
  {
    hide Meets, Mask;
    MeetsTwice(v, z);
    Halves(v);
  }

  lemma Meets4(v: bv64, z: nat)
    requires z < 60
    ensures Meets(v >> 4, Mask(z)) == Meets(v, Mask(z + 4))
  {
    hide Meets, Mask;
    Meets2(v, z + 2);
    Meets2(v >> 2, z);
    Halves(v);
  }

  lemma MeetsDrop(v: bv64, z: nat)
    requires z < 56
    ensures Meets(Drop(v), Mask(z)) == Meets(v, Mask(z + 8))
  {
    hide Meets, Mask;
    Meets4(v, z + 4);
    Meets4(v >> 4, z);
    Halves(v);
  }

  lemma LowMasks()
    ensures Mask(0) == 1 && Mask(1) == 2 && Mask(2) == 4 && Mask(3) == 8
    ensures Mask(4) == 16 && Mask(5) == 32 && Mask(6) == 64 && Mask(7) == 128
  {
  }

  lemma LowBits(v: bv64)
    ensures Bits(Octet0(v)) == [Meets(v, 1), Meets(v, 2), Meets(v, 4), Meets(v, 8),
                                Meets(v, 16), Meets(v, 32), Meets(v, 64), Meets(v, 128)]
  {
  }

  lemma OctetBits(v: bv64, j: nat)
    requires j < 8
    ensures Bits(Octet0(v))[j] == Meets(v, Mask(j))
  {
    hide Meets, Bits, Octet0, Mask;
    LowMasks();
    LowBits(v);
  }

  lemma {:induction false} DownBit(v: bv64, k: nat, j: nat)
    requires 8 * k + j < 64
    ensures Meets(Down(v, k), Mask(j)) == Meets(v, Mask(8 * k + j))
    decreases k
  {
    hide Meets, Mask, Drop;
    if k > 0 {
      MeetsDrop(Down(v, k - 1), j);
      DownBit(v, k - 1, j + 8);
    }
  }

  lemma OctetDown(l: Lane, k: nat)
    requires k < 8
    ensures BytesOf(l)[k] == Octet0(Down(l.bits, k))
  {
    var v := l.bits;
    hide Octet0, Octet1, Octet2, Octet3, Octet4, Octet5, Octet6, Octet7, Drop, Down;
    Downs(v);
    OctetShifts(v);
  }

  lemma OctetShifts(v: bv64)
    ensures Octet1(v) == Octet0(v >> 8) && Octet2(v) == Octet0(v >> 16) && Octet3(v) == Octet0(v >> 24)
    ensures Octet4(v) == Octet0(v >> 32) && Octet5(v) == Octet0(v >> 40) && Octet6(v) == Octet0(v >> 48)
    ensures Octet7(v) == Octet0(v >> 56)
  {
  }

  lemma Drops(v: bv64)
    ensures Drop(v) == v >> 8 && Drop(v >> 8) == v >> 16 && Drop(v >> 16) == v >> 24 && Drop(v >> 24) == v >> 32
    ensures Drop(v >> 32) == v >> 40 && Drop(v >> 40) == v >> 48 && Drop(v >> 48) == v >> 56
  {
  }

  lemma Downs(v: bv64)
    ensures Down(v, 0) == v && Down(v, 1) == v >> 8 && Down(v, 2) == v >> 16 && Down(v, 3) == v >> 24
    ensures Down(v, 4) == v >> 32 && Down(v, 5) == v >> 40 && Down(v, 6) == v >> 48 && Down(v, 7) == v >> 56
  {
    hide Drop;
    Drops(v);
    assert Down(v, 1) == v >> 8;
    assert Down(v, 2) == v >> 16;
    assert Down(v, 3) == v >> 24;
    assert Down(v, 4) == v >> 32;
    assert Down(v, 5) == v >> 40;
    assert Down(v, 6) == v >> 48;
  }

  /** Bit j of byte k of a lane is its bit 8k + j. */
  lemma LaneOrder(l: Lane, k: nat, j: nat)
    requires k < 8 && j < 8
    ensures Bits(BytesOf(l)[k])[j] == LaneBit(l, 8 * k + j)
  {
    hide Meets, Mask, Bits, Octet0, BytesOf, Down;
    OctetDown(l, k);
    OctetBits(Down(l.bits, k), j);
    DownBit(l.bits, k, j);
  }

  // ----- whole states -----

  function Bytes(a: Words): (s: seq<Byte>)
    ensures |s| == 200
  {
    seq(200, i requires 0 <= i < 200 => BytesOf(a[i / 8])[i % 8])
  }

  function Lanes(s: seq<Byte>): Words
    requires |s| == 200
  {
    seq(25, i requires 0 <= i < 25 => LaneOf(s[8 * i..8 * i + 8]))
  }

  lemma BytesSlice(a: Words, i: nat)
    requires i < 25
    ensures Bytes(a)[8 * i..8 * i + 8] == BytesOf(a[i])
  {
    hide BytesOf;
  }

  lemma LanesOfBytes(a: Words)
    ensures Lanes(Bytes(a)) == a
  {
    hide LaneOf, BytesOf;
    forall i | 0 <= i < 25
      ensures Lanes(Bytes(a))[i] == a[i]
    {
      BytesSlice(a, i);
      LaneOfBytesOf(a[i]);
    }
  }

  /** The permutation on state strings. */
  function Permute(s: seq<Byte>): (t: seq<Byte>)
    requires |s| == 200
    ensures |t| == 200
  {
    Bytes(KeccakF(Lanes(s)))
  }

  /** S xor (p || 0...0). */
  function XorBlock(s: seq<Byte>, p: seq<Byte>): (t: seq<Byte>)
    requires |s| == 200 && |p| <= 200
    ensures |t| == 200
  {
    seq(200, i requires 0 <= i < 200 => if i < |p| then XorByte(s[i], p[i]) else s[i])
  }

  /** The first `n` lanes of `a` xored with the little-endian words of `p`. */
  function XorLanes(a: Words, p: seq<Byte>, n: nat): (t: Words)
    requires n <= 25 && 8 * n <= |p|
  {
    seq(25, i requires 0 <= i < 25 => if i < n then Xor(a[i], LaneOf(p[8 * i..8 * i + 8])) else a[i])
  }

  lemma XorLanesIsXorBlock(a: Words, p: seq<Byte>, n: nat)
    requires n <= 25 && |p| == 8 * n
    ensures Bytes(XorLanes(a, p, n)) == XorBlock(Bytes(a), p)
  {
    hide LaneOf, BytesOf, Xor, XorByte, XorOctets;
    forall i | 0 <= i < 200
      ensures Bytes(XorLanes(a, p, n))[i] == XorBlock(Bytes(a), p)[i]
    {
      var j, k := i / 8, i % 8;
      if j < n {
        var b := p[8 * j..8 * j + 8];
        BytesOfLaneOf(b);
        BytesOfXor(a[j], LaneOf(b));
        XorOctetsAt(BytesOf(a[j]), b, k);
        assert b[k] == p[i];
      }
    }
  }
}

/**
 The sponge construction of FIPS 202 (sections 4, 5.1, 6.1 and 6.2) on byte strings.
 */
module SpongeSpec {
  import opened Arith
  import opened Fips202
  import opened Keccakf
  import opened StateString

  predicate IsRate(r: nat) { r == 72 || r == 104 || r == 136 || r == 144 || r == 168 }

  function Zero(): (s: seq<Byte>)
    ensures |s| == 200
  {
    seq(200, _ => 0)
  }

  /** Absorb the whole blocks at the front of `p`, one permutation each (steps 5 and 6 of Algorithm 8). */
  function Absorb(rate: nat, s: seq<Byte>, p: seq<Byte>): (t: seq<Byte>)
    requires 0 < rate <= 200 && |s| == 200
    ensures |t| == 200
    decreases |p|
  {
    hide Permute, XorBlock;
    if |p| < rate then s else Absorb(rate, Permute(XorBlock(s, p[..rate])), p[rate..])
  }

  /** The next `n` bytes from block `s` on, when `lo` bytes of it are already taken (steps 7 to 10). */
  function Squeeze(rate: nat, s: seq<Byte>, lo: nat, n: nat): (z: seq<Byte>)
    requires lo < rate <= 200 && |s| == 200
    ensures |z| == n
    decreases n
  {
    hide Permute;
    if lo + n <= rate then s[lo..lo + n] else s[lo..rate] + Squeeze(rate, Permute(s), 0, n - (rate - lo))
  }

  /** The bytes that follow a message of `n` bytes: domain bits and padding. */
  function Padding(rate: nat, ds: Byte, n: nat): (p: seq<Byte>)
    requires rate > 0
    ensures |p| == rate - n % rate
  {
    var k := rate - n % rate;
    seq(k, i requires 0 <= i < k => XorByte(if i == 0 then ds else 0, if i == k - 1 then 0x80 else 0))
  }

  function Absorbed(rate: nat, ds: Byte, m: seq<Byte>): (s: seq<Byte>)
    requires 0 < rate <= 200
    ensures |s| == 200
  {
    Absorb(rate, Zero(), m + Padding(rate, ds, |m|))
  }

  /** The first `d` bytes of SPONGE[f, pad10*1, r] on `m` and its domain bits. */
  function Sponge(rate: nat, ds: Byte, m: seq<Byte>, d: nat): (z: seq<Byte>)
    requires 0 < rate <= 200
    ensures |z| == d
  {
    Squeeze(rate, Absorbed(rate, ds, m), 0, d)
  }

  /** Output already taken, and output still to come, split the same stream. */
  lemma {:induction false} SqueezeSplit(rate: nat, s: seq<Byte>, lo: nat, n: nat, k: nat)
    requires lo < rate <= 200 && |s| == 200 && lo + k < rate
    ensures Squeeze(rate, s, lo, k + n) == s[lo..lo + k] + Squeeze(rate, s, lo + k, n)
  {
    hide Permute;
    if lo + k + n > rate {
      assert s[lo..rate] == s[lo..lo + k] + s[lo + k..rate];
    }
  }

  lemma SqueezeBlock(rate: nat, s: seq<Byte>, lo: nat, n: nat)
    requires lo < rate <= 200 && |s| == 200
    ensures Squeeze(rate, s, lo, rate - lo + n) == s[lo..rate] + Squeeze(rate, Permute(s), 0, n)
  {
    hide Permute;
  }

  // ----- the padding, bit by bit -----

  function BitString(m: seq<Byte>): (r: seq<bool>)
    ensures |r| == 8 * |m|
  {
    hide Bits;
    if m == [] then [] else Bits(m[0]) + BitString(m[1..])
  }

  /** pad10*1(x, m) of section 5.1: a one, j = (-m - 2) mod x zeros, a one. */
  function Pad101(x: nat, m: nat): seq<bool>
    requires x > 0
  {
    var j: nat := (-(m as int) - 2) % x;
    [true] + seq(j, _ => false) + [true]
  }

  /** The bits that separate the hash functions (section 6.1) from the extendable-output ones (section 6.2). */
  function DomainBits(ds: Byte): seq<bool>
    requires ds == 0x06 || ds == 0x1f
  {
    if ds == 0x06 then [false, true] else [true, true, true, true]
  }

  lemma {:induction false} BitStringAt(m: seq<Byte>, i: nat)
    requires i < 8 * |m|
    ensures BitString(m)[i] == Bits(m[i / 8])[i % 8]
    decreases |m|
  {
    hide Bits;
    if i >= 8 {
      BitStringAt(m[1..], i - 8);
      assert m[i / 8] == m[1..][(i - 8) / 8];
    }
  }

  /** Section 3.1.2: bit 64(5y + x) + z of the state string is bit z of lane (x, y). */
  lemma StateOrder(a: Words, x: nat, y: nat, z: nat)
    requires x < 5 && y < 5 && z < 64
    ensures BitString(Bytes(a))[64 * (5 * y + x) + z] == LaneBit(At(ToMatrix(a), x, y), z)
  {
    hide Bits, BytesOf, LaneBit, At, ToMatrix;
    var i := 64 * (5 * y + x) + z;
    var byte := 8 * (5 * y + x) + z / 8;
    assert i / 8 == byte && i % 8 == z % 8;
    assert byte / 8 == 5 * y + x && byte % 8 == z / 8;
    BitStringAt(Bytes(a), i);
    LaneOrder(a[5 * y + x], z / 8, z % 8);
    LaneAt(a, x, y);
  }

  lemma {:induction false} BitStringConcat(a: seq<Byte>, b: seq<Byte>)
    ensures BitString(a + b) == BitString(a) + BitString(b)
  {
    hide Bits;
    if a == [] {
      assert a + b == b;
    } else {
      BitStringConcat(a[1..], b);
      assert (a + b)[0] == a[0] && (a + b)[1..] == a[1..] + b;
      var first, x, y := Bits(a[0]), BitString(a[1..]), BitString(b);
      assert BitString(a + b) == first + (x + y) == first + x + y;
    }
  }

  lemma {:induction false} BitStringZeros(k: nat)
    ensures BitString(seq(k, _ => 0)) == seq(8 * k, _ => false)
  {
    if k > 0 {
      BitStringZeros(k - 1);
      assert seq<Byte>(k, _ => 0)[1..] == seq(k - 1, _ => 0);
      assert Bits(0) == seq(8, _ => false);
    }
  }

  function Zeros(k: nat): seq<Byte> { seq(k, _ => 0) }

  lemma XorConstants(b: Byte)
    ensures XorByte(b, 0) == b && XorByte(0, b) == b
  {
  }

  lemma PaddingShape(rate: nat, ds: Byte, n: nat)
    requires rate > 0
    ensures var k := rate - n % rate;
            Padding(rate, ds, n) == if k == 1 then [XorByte(ds, 0x80)] else [ds] + Zeros(k - 2) + [0x80]
  {
    XorConstants(ds);
    XorConstants(0x80);
    XorConstants(0);
    hide XorByte;
  }

  lemma ZeroRun(x: nat, m: nat, n: nat, d: nat, rate: nat)
    requires rate > 0 && x == 8 * rate && m == 8 * n + d && 0 < d < 6
    ensures (-(m as int) - 2) % x == 8 * (rate - n % rate) - d - 2
  {
    var q, k := n / rate, rate - n % rate;
    assert -(m as int) - 2 == (8 * k - d - 2) - (q + 1) * x by {
      assert n == q * rate + (rate - k);
    }
    DivModUnique(-(m as int) - 2, x, -(q + 1), 8 * k - d - 2);
  }

  function Falses(k: nat): seq<bool> { seq(k, _ => false) }

  lemma OneByte(ds: Byte)
    requires ds == 0x06 || ds == 0x1f
    ensures Bits(ds) == DomainBits(ds) + [true] + Falses(7 - |DomainBits(ds)|)
    ensures Bits(XorByte(ds, 0x80)) == DomainBits(ds) + [true] + Falses(6 - |DomainBits(ds)|) + [true]
    ensures Bits(0x80) == Falses(7) + [true]
  {
  }

  lemma PaddingBits(rate: nat, ds: Byte, n: nat)
    requires rate > 0 && (ds == 0x06 || ds == 0x1f)
    ensures var d := |DomainBits(ds)|;
            BitString(Padding(rate, ds, n)) == DomainBits(ds) + [true] + Falses(8 * (rate - n % rate) - d - 2) + [true]
  {
    hide XorByte, Bits;
    var k := rate - n % rate;
    PaddingShape(rate, ds, n);
    OneByte(ds);
    hide DomainBits, Padding;
    if k == 1 {
      BitStringOne(XorByte(ds, 0x80));
    } else {
      BitStringOne(ds);
      BitStringOne(0x80);
      BitStringZeros(k - 2);
      BitStringConcat([ds] + Zeros(k - 2), [0x80]);
      BitStringConcat([ds], Zeros(k - 2));
    }
  }

  lemma BitStringOne(b: Byte)
    ensures BitString([b]) == Bits(b)
  {
    hide Bits;
    assert [b][1..] == [];
  }

  /** The padded bytes, read as bits, are the message, its domain bits and pad10*1. */
  lemma PaddingIsPad101(rate: nat, ds: Byte, m: seq<Byte>)
    requires rate > 0 && (ds == 0x06 || ds == 0x1f)
    ensures BitString(m + Padding(rate, ds, |m|))
         == BitString(m) + (DomainBits(ds) + Pad101(8 * rate, 8 * |m| + |DomainBits(ds)|))
    ensures |m + Padding(rate, ds, |m|)| % rate == 0
  {
    hide Bits, BitString, Padding, XorByte, DomainBits, Pad101;
    var bits := DomainBits(ds);
    DomainLength(ds);
    BitStringConcat(m, Padding(rate, ds, |m|));
    PaddingBits(rate, ds, |m|);
    var k: nat := 8 * (rate - |m| % rate) - |bits| - 2;
    Pad101Shape(rate, |m|, |bits|);
    Regroup(bits, Pad101(8 * rate, 8 * |m| + |bits|), k);
    WholeBlocks(rate, |m|);
  }

  lemma WholeBlocks(rate: nat, n: nat)
    requires rate > 0
    ensures (n + (rate - n % rate)) % rate == 0
  {
    DivModUnique(n + (rate - n % rate), rate, n / rate + 1, 0);
  }

  lemma Pad101Shape(rate: nat, n: nat, d: nat)
    requires rate > 0 && 0 < d < 6
    ensures Pad101(8 * rate, 8 * n + d) == [true] + Falses(8 * (rate - n % rate) - d - 2) + [true]
  {
    ZeroRun(8 * rate, 8 * n + d, n, d, rate);
  }

  lemma DomainLength(ds: Byte)
    requires ds == 0x06 || ds == 0x1f
    ensures 0 < |DomainBits(ds)| < 6
  {
  }

  lemma Regroup(bits: seq<bool>, pad: seq<bool>, k: nat)
    requires pad == [true] + Falses(k) + [true]
    ensures bits + [true] + Falses(k) + [true] == bits + pad
  {
  }

  // ----- what a partly absorbed or partly squeezed sponge stands for -----

  /** State `s` with `buf` still to absorb stands for the message `m`, whatever comes after it. */
  ghost predicate StandsFor(rate: nat, m: seq<Byte>, s: seq<Byte>, buf: seq<Byte>)
    requires 0 < rate <= 200 && |s| == 200
  {
    forall rest: seq<Byte> :: Absorb(rate, Zero(), m + rest) == Absorb(rate, s, buf + rest)
  }

  /** Output `o` followed by what block `s` yields from `lo` on is the output of the sponge on `m`. */
  ghost predicate Yields(rate: nat, ds: Byte, m: seq<Byte>, o: seq<Byte>, s: seq<Byte>, lo: nat)
    requires lo < rate <= 200 && |s| == 200
  {
    forall n: nat :: Sponge(rate, ds, m, |o| + n) == o + Squeeze(rate, s, lo, n)
  }

  lemma StandsForNothing(rate: nat)
    requires 0 < rate <= 200
    ensures StandsFor(rate, [], Zero(), [])
  {
  }

  /** Buffering input. */
  lemma Buffered(rate: nat, m: seq<Byte>, s: seq<Byte>, buf: seq<Byte>, chunk: seq<Byte>)
    requires 0 < rate <= 200 && |s| == 200 && StandsFor(rate, m, s, buf)
    ensures StandsFor(rate, m + chunk, s, buf + chunk)
  {
    hide Absorb;
    forall rest: seq<Byte>
      ensures Absorb(rate, Zero(), m + chunk + rest) == Absorb(rate, s, buf + chunk + rest)
    {
      assert m + chunk + rest == m + (chunk + rest);
      assert buf + chunk + rest == buf + (chunk + rest);
    }
  }

  /** Absorbing a full buffer. */
  lemma Flushed(rate: nat, m: seq<Byte>, s: seq<Byte>, buf: seq<Byte>)
    requires 0 < rate <= 200 && |s| == 200 && |buf| == rate && StandsFor(rate, m, s, buf)
    ensures StandsFor(rate, m, Permute(XorBlock(s, buf)), [])
  {
    hide Permute, XorBlock;
    forall rest: seq<Byte>
      ensures Absorb(rate, Zero(), m + rest) == Absorb(rate, Permute(XorBlock(s, buf)), [] + rest)
    {
      assert (buf + rest)[..rate] == buf;
      assert (buf + rest)[rate..] == [] + rest;
    }
  }

  /** Padding the buffer out and turning the sponge round. */
  lemma Turned(rate: nat, ds: Byte, m: seq<Byte>, s: seq<Byte>, buf: seq<Byte>)
    requires 0 < rate <= 200 && |s| == 200 && |buf| == |m| % rate && StandsFor(rate, m, s, buf)
    ensures Yields(rate, ds, m, [], Permute(XorBlock(s, buf + Padding(rate, ds, |m|))), 0)
  {
    hide Permute, XorBlock, Padding;
    var block := buf + Padding(rate, ds, |m|);
    var t := Permute(XorBlock(s, block));
    assert block[..rate] == block && block[rate..] == [];
    assert Absorb(rate, t, []) == t;
    assert Absorbed(rate, ds, m) == Absorb(rate, s, block) == t;
    hide Absorb, Absorbed, Squeeze, StandsFor;
    var o: seq<Byte> := [];
    forall n: nat
      ensures Sponge(rate, ds, m, |o| + n) == o + Squeeze(rate, t, 0, n)
    {
      assert o + Squeeze(rate, t, 0, n) == Squeeze(rate, t, 0, n);
    }
  }

  /** Taking part of a block. */
  lemma Taken(rate: nat, ds: Byte, m: seq<Byte>, o: seq<Byte>, s: seq<Byte>, lo: nat, k: nat)
    requires lo + k < rate <= 200 && |s| == 200 && Yields(rate, ds, m, o, s, lo)
    ensures Yields(rate, ds, m, o + s[lo..lo + k], s, lo + k)
  {
    hide Sponge, Squeeze, Permute;
    var at := lo + k;
    forall n: nat
      ensures Sponge(rate, ds, m, |o + s[lo..at]| + n) == o + s[lo..at] + Squeeze(rate, s, at, n)
    {
      SqueezeSplit(rate, s, lo, n, k);
      assert Sponge(rate, ds, m, |o| + (k + n)) == o + Squeeze(rate, s, lo, k + n);
    }
  }

  /** Taking the rest of a block. */
  lemma Drained(rate: nat, ds: Byte, m: seq<Byte>, o: seq<Byte>, s: seq<Byte>, lo: nat)
    requires lo < rate <= 200 && |s| == 200 && Yields(rate, ds, m, o, s, lo)
    ensures Yields(rate, ds, m, o + s[lo..rate], Permute(s), 0)
  {
    hide Sponge, Squeeze, Permute;
    forall n: nat
      ensures Sponge(rate, ds, m, |o + s[lo..rate]| + n) == o + s[lo..rate] + Squeeze(rate, Permute(s), 0, n)
    {
      SqueezeBlock(rate, s, lo, n);
      assert Sponge(rate, ds, m, |o| + (rate - lo + n)) == o + Squeeze(rate, s, lo, rate - lo + n);
    }
  }

  /** `lo` bytes of block `s` were read last, and what was read before them and then the stream of `s` from its
      start is the output of the sponge on `m`. */
  ghost predicate Reading(rate: nat, ds: Byte, m: seq<Byte>, o: seq<Byte>, s: seq<Byte>, lo: nat)
    requires lo < rate <= 200 && |s| == 200
  {
    lo <= |o| && o[|o| - lo..] == s[..lo] && Yields(rate, ds, m, o[..|o| - lo], s, 0)
  }

  /** Everything read is a prefix of the output, and the block goes on with the rest. */
  lemma ReadingYields(rate: nat, ds: Byte, m: seq<Byte>, o: seq<Byte>, s: seq<Byte>, lo: nat)
    requires lo < rate <= 200 && |s| == 200 && Reading(rate, ds, m, o, s, lo)
    ensures Yields(rate, ds, m, o, s, lo) && o == Sponge(rate, ds, m, |o|)
  {
    hide Sponge, Yields;
    Taken(rate, ds, m, o[..|o| - lo], s, 0, lo);
    assert o[..|o| - lo] + s[0..lo] == o;
    YieldsOutput(rate, ds, m, o, s, lo);
  }

  lemma YieldsOutput(rate: nat, ds: Byte, m: seq<Byte>, o: seq<Byte>, s: seq<Byte>, lo: nat)
    requires lo < rate <= 200 && |s| == 200 && Yields(rate, ds, m, o, s, lo)
    ensures o == Sponge(rate, ds, m, |o|)
  {
    hide Sponge;
    assert Sponge(rate, ds, m, |o| + 0) == o + Squeeze(rate, s, lo, 0);
  }

  /** Reading on, within the block and to its end. */
  lemma ReadOn(rate: nat, ds: Byte, m: seq<Byte>, o: seq<Byte>, s: seq<Byte>, lo: nat, k: nat)
    requires lo < rate <= 200 && lo + k <= rate && |s| == 200 && Reading(rate, ds, m, o, s, lo)
    ensures lo + k < rate ==> Reading(rate, ds, m, o + s[lo..lo + k], s, lo + k)
    ensures lo + k == rate ==> Reading(rate, ds, m, o + s[lo..lo + k], Permute(s), 0)
  {
    hide Yields, Permute;
    var base, now := o[..|o| - lo], o + s[lo..lo + k];
    assert now == base + s[..lo + k];
    if lo + k < rate {
      assert now[..|now| - (lo + k)] == base && now[|now| - (lo + k)..] == s[..lo + k];
    } else {
      Drained(rate, ds, m, base, s, 0);
      assert base + s[0..rate] == now && now[..|now| - 0] == now;
    }
  }

  /** Standing `k` bytes back in the same block. */
  lemma ReadBack(rate: nat, ds: Byte, m: seq<Byte>, o: seq<Byte>, s: seq<Byte>, lo: nat, k: nat)
    requires k <= lo < rate <= 200 && |s| == 200 && Reading(rate, ds, m, o, s, lo)
    ensures Reading(rate, ds, m, o[..|o| - k], s, lo - k)
  {
    hide Yields;
    var back := o[..|o| - k];
    assert back[..|back| - (lo - k)] == o[..|o| - lo];
    assert back[|back| - (lo - k)..] == o[|o| - lo..][..lo - k] == s[..lo][..lo - k];
  }

  /** Two places in a block go on alike, whatever the block, only if they are the same place. */
  lemma PlacesDiffer(rate: nat, at: nat, lo: nat)
    requires at <= lo < rate <= 200
    ensures (forall s: seq<Byte> | |s| == 200 :: Squeeze(rate, s, at, 1) == Squeeze(rate, s, lo, 1)) <==> at == lo
  {
    if at != lo {
      var s: seq<Byte> := seq(200, i => if i == lo then 1 else 0);
      assert Squeeze(rate, s, at, 1) == [0] && Squeeze(rate, s, lo, 1) == [1];
    }
  }

  /** The `n` bytes of the output after the first `at`. */
  ghost function OutputAt(rate: nat, ds: Byte, m: seq<Byte>, at: nat, n: nat): (z: seq<Byte>)
    requires 0 < rate <= 200
    ensures |z| == n
  {
    Sponge(rate, ds, m, at + n)[at..]
  }

  lemma OutputAfter(rate: nat, ds: Byte, m: seq<Byte>, o: seq<Byte>, z: seq<Byte>)
    requires 0 < rate <= 200 && o + z == Sponge(rate, ds, m, |o + z|)
    ensures z == OutputAt(rate, ds, m, |o|, |z|)
  {
    hide Sponge;
    assert (o + z)[|o|..] == z;
  }

  lemma OutputFromStart(rate: nat, ds: Byte, m: seq<Byte>, n: nat)
    requires 0 < rate <= 200
    ensures OutputAt(rate, ds, m, 0, n) == Sponge(rate, ds, m, n)
  {
    hide Sponge;
  }
}
