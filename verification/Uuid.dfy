/**
 Version 1 UUIDs: the generator's stored clock, the byte layout, and when two of them collide.
 Integers are naturals; 16-bit wrap-around and byte operations are written out.
 */
module Uuid {
  import opened Arith
  import opened Bits
  import opened Hamming

  const P16: nat := 0x1_0000
  const P32: nat := 0x1_0000_0000
  const P48: nat := 0x1_0000_0000_0000
  const P60: nat := 0x1000_0000_0000_0000

  /** SetVersion(1): the version nibble replaces the top of byte 6. */
  function WithVersion1(b: nat): nat { Or(And(b, 0x0f), 0x10) }

  /** SetVariant: the two variant bits replace the top of byte 8. */
  function WithVariant(b: nat): nat { Or(And(b, 0xbf), 0x80) }

  /** Or with a multiple of 16 leaves the low nibble. */
  lemma Or16(a: nat, b: nat, m: nat)
    requires b < 16
    ensures Or(16 * a + b, 16 * m) == 16 * Or(a, m) + b
  {
    hide Or;
    OrBit(a, m, b / 8, 0);
    OrBit(2 * a + b / 8, 2 * m, (b / 4) % 2, 0);
    OrBit(4 * a + b / 4, 4 * m, (b / 2) % 2, 0);
    OrBit(8 * a + b / 2, 8 * m, b % 2, 0);
  }

  lemma VersionByte(b: nat)
    requires b < 256
    ensures WithVersion1(b) == 16 + b % 16
  {
    And16Whole(b / 16, b % 16, 0);
    assert And(b / 16, 0) == 0;
    hide And;
    Or16(0, b % 16, 1);
    assert Or(0, 1) == 1;
  }

  lemma VariantByte(b: nat)
    requires b < 256
    ensures WithVariant(b) == 128 + b % 64
  {
    hide And, Or;
    var h, l := b / 16, b % 16;
    And16Whole(h, l, 11);
    VariantNibble(h);
    Or16(And(h, 11), l, 8);
    DivModUnique(b, 64, h / 4, 16 * (h % 4) + l);
  }

  lemma VariantNibble(h: nat)
    requires h < 16
    ensures Or(And(h, 11), 8) == 8 + h % 4
  {
    hide And, Or;
    var b3, b2, b1, b0 := h / 8, (h / 4) % 2, (h / 2) % 2, h % 2;
    AndBit(h / 2, 5, b0, 1);
    AndBit(h / 4, 2, b1, 1);
    AndBit(h / 8, 1, b2, 0);
    AndBit(0, 0, b3, 1);
    ZeroFacts(0, 2, 0);
    OrEight(b3, b1, b0);
  }

  lemma OrEight(b3: nat, b1: nat, b0: nat)
    requires b3 < 2 && b1 < 2 && b0 < 2
    ensures Or(8 * b3 + 2 * b1 + b0, 8) == 8 + 2 * b1 + b0
  {
    hide Or;
    OrEightLow();
    OrEightHigh();
  }

  lemma OrEightLow()
    ensures Or(0, 8) == 8 && Or(1, 8) == 9 && Or(2, 8) == 10 && Or(3, 8) == 11
  {
  }

  lemma OrEightHigh()
    ensures Or(8, 8) == 8 && Or(9, 8) == 9 && Or(10, 8) == 10 && Or(11, 8) == 11
  {
  }

  // ----- layout -----

  /** The sixteen bytes NewV1 writes: low, middle and high time, clock sequence, hardware address. */
  function Layout(time: nat, clock: nat, hw: seq<nat>): (u: seq<nat>)
    requires |hw| == 6
    ensures |u| == 16
  {
    var low, mid, high := time % P32, time / P32 % P16, time / P48 % P16;
    [low / 0x100_0000, low / P16 % 256, low / 256 % 256, low % 256,
     mid / 256, mid % 256,
     WithVersion1(high / 256), high % 256,
     WithVariant(clock / 256), clock % 256] + hw
  }

  /** The time and the clock sequence that the bytes carry. */
  function TimeOf(u: seq<nat>): nat
    requires |u| == 16
  {
    ((u[6] % 16) * 256 + u[7]) * P48 + (u[4] * 256 + u[5]) * P32
    + u[0] * 0x100_0000 + u[1] * P16 + u[2] * 256 + u[3]
  }

  function ClockOf(u: seq<nat>): nat
    requires |u| == 16
  {
    (u[8] % 64) * 256 + u[9]
  }

  lemma ClockBytes(time: nat, clock: nat, hw: seq<nat>)
    requires |hw| == 6
    ensures Layout(time, clock, hw)[8] == WithVariant(clock / 256) && Layout(time, clock, hw)[9] == clock % 256
  {
    hide WithVariant, WithVersion1;
  }

  lemma TimeBytes(time: nat, clock: nat, hw: seq<nat>)
    requires |hw| == 6
    ensures var low, mid, high := time % P32, time / P32 % P16, time / P48 % P16;
            var u := Layout(time, clock, hw);
            && u[..4] == [low / 0x100_0000, low / P16 % 256, low / 256 % 256, low % 256]
            && u[4..8] == [mid / 256, mid % 256, WithVersion1(high / 256), high % 256]
  {
    hide WithVariant, WithVersion1;
  }

  lemma ClockRecovered(time: nat, clock: nat, hw: seq<nat>)
    requires |hw| == 6 && clock < P16
    ensures ClockOf(Layout(time, clock, hw)) == clock % 0x4000
  {
    hide WithVariant, WithVersion1;
    VariantByte(clock / 256);
    ClockBytes(time, clock, hw);
    hide Layout;
    ClockDigits(clock);
  }

  /** The bytes carry the time modulo 2^60: the version replaces its top four bits. */
  lemma TimeRecovered(time: nat, clock: nat, hw: seq<nat>)
    requires |hw| == 6
    ensures TimeOf(Layout(time, clock, hw)) == time % P60
  {
    hide WithVariant, WithVersion1, Layout;
    var low, mid, high := time % P32, time / P32 % P16, time / P48 % P16;
    var u := Layout(time, clock, hw);
    TimeBytes(time, clock, hw);
    assert u[..4][0] == u[0] && u[..4][1] == u[1] && u[..4][2] == u[2] && u[..4][3] == u[3];
    assert u[4..8][0] == u[4] && u[4..8][1] == u[5] && u[4..8][2] == u[6] && u[4..8][3] == u[7];
    FourDigits(low);
    TimeParts(time);
    HighParts(high);
    VersionByte(high / 256);
    assert (16 + high / 256 % 16) % 16 == high / 256 % 16;
  }

  lemma HighParts(high: nat)
    ensures high % 0x1000 == high / 256 % 16 * 256 + high % 256
    ensures high % 0x1000 / 256 == high / 256 % 16 && high % 0x1000 % 256 == high % 256
  {
    var h, l := high / 256, high % 256;
    DivModUnique(high, 0x1000, h / 16, h % 16 * 256 + l);
    DivModUnique(high % 0x1000, 256, h % 16, l);
  }

  /** The three fields of a time, and those of the time modulo 2^60. */
  lemma TimeParts(time: nat)
    ensures var low, mid, high := time % P32, time / P32 % P16, time / P48 % P16;
            var t := time % P60;
            && t == high % 0x1000 * P48 + mid * P32 + low
            && t % P32 == low && t / P32 % P16 == mid && t / P48 % P16 == high % 0x1000
  {
    var low, mid, all := time % P32, time / P32 % P16, time / P32 / P16;
    DivModUnique(time, P48, all, mid * P32 + low);
    var high := all % P16;
    var top := high % 0x1000;
    DivModUnique(all, 0x1000, all / P16 * 16 + high / 0x1000, top);
    var t := top * P48 + mid * P32 + low;
    DivModUnique(time, P60, all / 0x1000, t);
    DivModUnique(t, P32, top * P16 + mid, low);
    DivModUnique(top * P16 + mid, P16, top, mid);
    DivModUnique(t, P48, top, mid * P32 + low);
  }

  lemma LayoutWraps(time: nat, clock: nat, hw: seq<nat>)
    requires |hw| == 6
    ensures Layout(time, clock, hw) == Layout(time % P60, clock, hw)
  {
    hide WithVariant, WithVersion1;
    var high := time / P48 % P16;
    TimeParts(time);
    HighParts(high);
    VersionByte(high / 256);
    VersionByte(high % 0x1000 / 256);
  }

  lemma FourDigits(low: nat)
    requires low < P32
    ensures low == (low / 0x100_0000) * 0x100_0000 + (low / P16 % 256) * P16 + (low / 256 % 256) * 256 + low % 256
  {
    var q1, q2 := low / 256, low / 256 / 256;
    DivModUnique(low, P16, q2, q1 % 256 * 256 + low % 256);
    DivModUnique(low, 0x100_0000, q2 / 256, q2 % 256 * P16 + q1 % 256 * 256 + low % 256);
  }

  /** Equal bytes, exactly when the times are equal modulo 2^60 and the clock sequences modulo 2^14. */
  /** The last six bytes are the hardware address. */
  lemma HardwareRecovered(time: nat, clock: nat, hw: seq<nat>)
    requires |hw| == 6
    ensures Layout(time, clock, hw)[10..] == hw
  {
    hide WithVariant, WithVersion1;
  }

  lemma LayoutCollides(t1: nat, c1: nat, hw1: seq<nat>, t2: nat, c2: nat, hw2: seq<nat>)
    requires |hw1| == |hw2| == 6 && c1 < P16 && c2 < P16
    ensures Layout(t1, c1, hw1) == Layout(t2, c2, hw2) <==>
      t1 % P60 == t2 % P60 && c1 % 0x4000 == c2 % 0x4000 && hw1 == hw2
  {
    hide TimeOf, ClockOf, Layout;
    TimeRecovered(t1, c1, hw1);
    TimeRecovered(t2, c2, hw2);
    ClockRecovered(t1, c1, hw1);
    ClockRecovered(t2, c2, hw2);
    HardwareRecovered(t1, c1, hw1);
    HardwareRecovered(t2, c2, hw2);
    LayoutWraps(t1, c1, hw1);
    LayoutWraps(t2, c2, hw1);
    if t1 % P60 == t2 % P60 && c1 % 0x4000 == c2 % 0x4000 {
      SameClockLayout(t1 % P60, c1, c2, hw1);
    }
  }

  lemma SameClockLayout(time: nat, c1: nat, c2: nat, hw: seq<nat>)
    requires |hw| == 6 && c1 < P16 && c2 < P16 && c1 % 0x4000 == c2 % 0x4000
    ensures Layout(time, c1, hw) == Layout(time, c2, hw)
  {
    hide WithVariant, WithVersion1;
    SameClockBytes(c1, c2);
  }

  lemma SameClockBytes(c1: nat, c2: nat)
    requires c1 < P16 && c2 < P16 && c1 % 0x4000 == c2 % 0x4000
    ensures WithVariant(c1 / 256) == WithVariant(c2 / 256) && c1 % 256 == c2 % 256
  {
    hide WithVariant;
    VariantByte(c1 / 256);
    VariantByte(c2 / 256);
    ClockDigits(c1);
    ClockDigits(c2);
  }

  lemma ClockDigits(c: nat)
    ensures c % 0x4000 == c / 256 % 64 * 256 + c % 256
    ensures c / 256 % 64 == c % 0x4000 / 256 && c % 256 == c % 0x4000 % 256
  {
    var h, l := c / 256, c % 256;
    DivModUnique(c, 0x4000, h / 64, h % 64 * 256 + l);
    DivModUnique(c % 0x4000, 256, h % 64, l);
  }

  // ----- the generator -----

  class Generator {
    var clockSequence: nat
    var lastTime: nat
    const hardwareAddr: seq<nat>

    ghost predicate Valid()
      reads this
    {
      clockSequence < P16 && |hardwareAddr| == 6
    }

    constructor (clockSequence: nat, hardwareAddr: seq<nat>)
      requires clockSequence < P16 && |hardwareAddr| == 6
      ensures Valid() && this.clockSequence == clockSequence && lastTime == 0 && this.hardwareAddr == hardwareAddr
    {
      this.clockSequence, lastTime, this.hardwareAddr := clockSequence, 0, hardwareAddr;
    }

    /** getStorage, for one reading of the clock. */
    method GetStorage(timeNow: nat) returns (time: nat, clock: nat)
      requires Valid()
      modifies this
      ensures Valid() && time == timeNow == lastTime && clock == clockSequence
      ensures clockSequence == NextClock(old(lastTime), old(clockSequence), timeNow)
    {
      if timeNow <= lastTime {
        clockSequence := (clockSequence + 1) % P16;
      }
      lastTime := timeNow;
      return timeNow, clockSequence;
    }

    method NewV1(timeNow: nat) returns (u: seq<nat>)
      requires Valid()
      modifies this
      ensures Valid() && lastTime == timeNow
      ensures clockSequence == NextClock(old(lastTime), old(clockSequence), timeNow)
      ensures u == Layout(timeNow, clockSequence, hardwareAddr)
    {
      hide And, Or;
      var time, clock := GetStorage(timeNow);
      var low, mid, high := time % P32, time / P32 % P16, time / P48 % P16;
      u := [low / 0x100_0000, low / P16 % 256, low / 256 % 256, low % 256,
            mid / 256, mid % 256, high / 256, high % 256, clock / 256, clock % 256] + hardwareAddr;
      u := u[6 := Or(And(u[6], 0x0f), 0x10)];
      u := u[8 := Or(And(u[8], 0xbf), 0x80)];
    }
  }

  function NextClock(last: nat, clock: nat, now: nat): nat {
    if now <= last then (clock + 1) % P16 else clock
  }

  // ----- runs -----

  /** The reading before reading `i`; `last` before the first. */
  function Previous(last: nat, times: seq<nat>, i: nat): nat
    requires i <= |times|
  {
    if i == 0 then last else times[i - 1]
  }

  /** How many of the first `n` readings did not advance. */
  function Stalls(last: nat, times: seq<nat>, n: nat): nat
    requires n <= |times|
  {
    if n == 0 then 0
    else Stalls(last, times, n - 1) + (if times[n - 1] <= Previous(last, times, n - 1) then 1 else 0)
  }

  /** The clock sequence after `n` readings. */
  function ClockAfter(last: nat, clock: nat, times: seq<nat>, n: nat): nat
    requires n <= |times|
  {
    if n == 0 then clock
    else NextClock(Previous(last, times, n - 1), ClockAfter(last, clock, times, n - 1), times[n - 1])
  }

  /** The UUID of reading `i` of a run. */
  function Generated(last: nat, clock: nat, times: seq<nat>, hw: seq<nat>, i: nat): seq<nat>
    requires i < |times| && |hw| == 6
  {
    Layout(times[i], ClockAfter(last, clock, times, i + 1), hw)
  }

  /** The method, run over the readings, gives these. */
  method Generate(g: Generator, times: seq<nat>) returns (us: seq<seq<nat>>)
    requires g.Valid()
    modifies g
    ensures |us| == |times|
    ensures forall i: nat | i < |times| ::
              us[i] == Generated(old(g.lastTime), old(g.clockSequence), times, g.hardwareAddr, i)
  {
    hide Layout;
    us := [];
    for i := 0 to |times|
      invariant g.Valid() && |us| == i
      invariant g.lastTime == Previous(old(g.lastTime), times, i)
      invariant g.clockSequence == ClockAfter(old(g.lastTime), old(g.clockSequence), times, i)
      invariant forall k: nat | k < i ::
                  us[k] == Generated(old(g.lastTime), old(g.clockSequence), times, g.hardwareAddr, k)
    {
      var u := g.NewV1(times[i]);
      us := us + [u];
    }
  }

  lemma {:induction false} ClockCounts(last: nat, clock: nat, times: seq<nat>, n: nat)
    requires n <= |times| && clock < P16
    ensures ClockAfter(last, clock, times, n) == (clock + Stalls(last, times, n)) % P16
    decreases n
  {
    if n > 0 {
      ClockCounts(last, clock, times, n - 1);
    }
  }

  lemma {:induction false} StallsGrow(last: nat, times: seq<nat>, i: nat, j: nat)
    requires i < j < |times|
    ensures Stalls(last, times, i + 1) <= Stalls(last, times, j + 1)
    ensures Stalls(last, times, i + 1) == Stalls(last, times, j + 1) ==> times[i] < times[j]
    decreases j
  {
    if i < j - 1 {
      StallsGrow(last, times, i, j - 1);
    }
  }

  /** Two UUIDs of a run are equal exactly when their readings are equal modulo 2^60 and the readings that
      did not advance in between are a multiple of 2^14 in number. */
  lemma CollisionCondition(last: nat, clock: nat, times: seq<nat>, hw: seq<nat>, i: nat, j: nat)
    requires i < j < |times| && |hw| == 6 && clock < P16
    ensures Generated(last, clock, times, hw, i) == Generated(last, clock, times, hw, j)
       <==> times[i] % P60 == times[j] % P60
            && (Stalls(last, times, j + 1) - Stalls(last, times, i + 1)) % 0x4000 == 0
  {
    hide Layout, ClockAfter, Stalls;
    ClockCounts(last, clock, times, i + 1);
    ClockCounts(last, clock, times, j + 1);
    StallsGrow(last, times, i, j);
    var a, b := Stalls(last, times, i + 1), Stalls(last, times, j + 1);
    var c1, c2 := ClockAfter(last, clock, times, i + 1), ClockAfter(last, clock, times, j + 1);
    LayoutCollides(times[i], c1, hw, times[j], c2, hw);
    SameLowBits(clock, a, b);
  }

  lemma SameLowBits(c: nat, a: nat, b: nat)
    requires a <= b
    ensures (c + a) % P16 % 0x4000 == (c + b) % P16 % 0x4000 <==> (b - a) % 0x4000 == 0
  {
    Low14(c + a);
    Low14(c + b);
    var x, d := c + a, b - a;
    var r, e := x % 0x4000, d % 0x4000;
    if r + e < 0x4000 {
      DivModUnique(x + d, 0x4000, x / 0x4000 + d / 0x4000, r + e);
    } else {
      DivModUnique(x + d, 0x4000, x / 0x4000 + d / 0x4000 + 1, r + e - 0x4000);
    }
  }

  lemma Low14(x: nat)
    ensures x % P16 % 0x4000 == x % 0x4000
  {
    var q, r := x / P16, x % P16;
    DivModUnique(x, 0x4000, 4 * q + r / 0x4000, r % 0x4000);
  }

  /** With clock readings below 2^60 and fewer than 2^14 that do not advance, all UUIDs differ. */
  lemma AllDistinct(last: nat, clock: nat, times: seq<nat>, hw: seq<nat>, i: nat, j: nat)
    requires |hw| == 6 && clock < P16 && i < j < |times|
    requires (forall k: nat | k < |times| :: times[k] < P60) && Stalls(last, times, |times|) < 0x4000
    ensures Generated(last, clock, times, hw, i) != Generated(last, clock, times, hw, j)
  {
    hide Layout, Generated;
    CollisionCondition(last, clock, times, hw, i, j);
    StallsGrow(last, times, i, j);
    if j < |times| - 1 {
      StallsGrow(last, times, j, |times| - 1);
    }
  }

  /** And no more can be promised: a clock that stands still repeats itself after 2^14 calls. */
  lemma Repeats(clock: nat, time: nat, hw: seq<nat>)
    requires |hw| == 6 && clock < P16 && 0 < time
    ensures var times := seq(0x4001, _ => time);
            Generated(0, clock, times, hw, 0) == Generated(0, clock, times, hw, 0x4000)
  {
    hide Layout, Generated;
    var times := seq(0x4001, _ => time);
    StandsStill(time, 0x4000);
    StandsStill(time, 0);
    CollisionCondition(0, clock, times, hw, 0, 0x4000);
  }

  lemma {:induction false} StandsStill(time: nat, n: nat)
    requires time > 0 && n <= 0x4000
    ensures Stalls(0, seq(0x4001, _ => time), n + 1) == n
    decreases n
  {
    if n > 0 {
      StandsStill(time, n - 1);
    }
  }
}
