/**
 The two byte/lane back ends of the sponge: the portable loops, and the straight-line forms that
 read a buffer as little-endian words through a cast.
 */
module LaneIO {
  import opened Fips202
  import opened Keccakf
  import opened StateString

  const MAX_RATE: nat := 168

  function Word(buf: seq<Byte>, i: nat): Lane
    requires 8 * i + 8 <= |buf|
  {
    LaneOf(buf[8 * i..8 * i + 8])
  }

  method XorInGeneric(a: array<Lane>, buf: seq<Byte>)
    requires a.Length == 25 && |buf| / 8 <= 25
    modifies a
    ensures a[..] == XorLanes(old(a[..]), buf, |buf| / 8)
  {
    hide Xor, LaneOf;
    var n := |buf| / 8;
    var b := buf;
    var i := 0;
    while i < n
      invariant 0 <= i <= n && b == buf[8 * i..]
      invariant a[..] == XorLanes(old(a[..]), buf, i)
    {
      assert b[..8] == buf[8 * i..8 * i + 8];
      a[i] := Xor(a[i], LaneOf(b[..8]));
      b := b[8..];
      i := i + 1;
    }
  }

  method PutWord(out: array<Byte>, at: nat, w: seq<Byte>)
    requires |w| == 8 && at + 8 <= out.Length
    modifies out
    ensures out[..] == old(out[..at]) + w + old(out[at + 8..])
  {
    forall k | 0 <= k < 8 { out[at + k] := w[k]; }
  }

  method CopyOutGeneric(a: array<Lane>, out: array<Byte>, n: nat)
    requires a.Length == 25 && n <= out.Length && n / 8 <= 25 && a as object != out
    modifies out
    ensures out[..] == Bytes(a[..])[..8 * (n / 8)] + old(out[8 * (n / 8)..])
  {
    hide BytesOf, Bytes;
    var i, at := 0, 0;
    ghost var s, o := Bytes(a[..]), out[..];
    while n - at >= 8
      invariant 0 <= at <= n && at == 8 * i && i <= 25 && a[..] == old(a[..])
      invariant out[..] == s[..at] + o[at..]
    {
      BytesSlice(a[..], i);
      OverwriteNext(s, o, at, out[..]);
      PutWord(out, at, BytesOf(a[i]));
      i, at := i + 1, at + 8;
    }
    assert at == 8 * (n / 8);
  }

  lemma OverwriteNext(s: seq<Byte>, o: seq<Byte>, at: nat, t: seq<Byte>)
    requires at + 8 <= |s| && at + 8 <= |o| && t == s[..at] + o[at..]
    ensures t[..at] + s[at..at + 8] + t[at + 8..] == s[..at + 8] + o[at + 8..]
  {
  }

  /** How many words the straight-line form xors in for a buffer of `n` bytes. */
  function UnalignedLanes(n: nat): nat {
    if n >= 168 then 21 else if n >= 144 then 18 else if n >= 136 then 17 else if n >= 104 then 13
    else if n >= 72 then 9 else 0
  }

  method XorWord(a: array<Lane>, buf: seq<Byte>, i: nat, ghost start: Words)
    requires a.Length == 25 && i < 25 && 8 * i + 8 <= |buf|
    requires a[..] == XorLanes(start, buf, i)
    modifies a
    ensures a[..] == XorLanes(start, buf, i + 1)
  {
    hide Xor, LaneOf;
    a[i] := Xor(a[i], Word(buf, i));
  }

  lemma XorNoLanes(a: Words, buf: seq<Byte>)
    ensures XorLanes(a, buf, 0) == a
  {
  }

  method XorInUnaligned(a: array<Lane>, buf: seq<Byte>)
    requires a.Length == 25 && |buf| > 0
    modifies a
    ensures a[..] == XorLanes(old(a[..]), buf, UnalignedLanes(|buf|))
  {
    hide XorLanes;
    var n := |buf|;
    ghost var start := a[..];
    XorNoLanes(start, buf);
    if n >= 72 {
      XorWord(a, buf, 0, start);
      XorWord(a, buf, 1, start);
      XorWord(a, buf, 2, start);
      XorWord(a, buf, 3, start);
      XorWord(a, buf, 4, start);
      XorWord(a, buf, 5, start);
      XorWord(a, buf, 6, start);
      XorWord(a, buf, 7, start);
      XorWord(a, buf, 8, start);
    }
    if n >= 104 {
      XorWord(a, buf, 9, start);
      XorWord(a, buf, 10, start);
      XorWord(a, buf, 11, start);
      XorWord(a, buf, 12, start);
    }
    if n >= 136 {
      XorWord(a, buf, 13, start);
      XorWord(a, buf, 14, start);
      XorWord(a, buf, 15, start);
      XorWord(a, buf, 16, start);
    }
    if n >= 144 {
      XorWord(a, buf, 17, start);
    }
    if n >= 168 {
      XorWord(a, buf, 18, start);
      XorWord(a, buf, 19, start);
      XorWord(a, buf, 20, start);
    }
  }

  method CopyOutUnaligned(a: array<Lane>, out: array<Byte>, n: nat)
    requires a.Length == 25 && n <= out.Length && a as object != out
    modifies out
    ensures var m := if n < MAX_RATE then n else MAX_RATE;
            out[..] == Bytes(a[..])[..m] + old(out[m..])
  {
    var m := if n < MAX_RATE then n else MAX_RATE;
    var ab := Bytes(a[..]);
    hide Bytes;
    forall j | 0 <= j < m { out[j] := ab[j]; }
    assert a[..] == old(a[..]);
  }

  /** The back ends xor the same lanes into every state exactly when the buffer length falls in the
      word count of a rate (or holds no word at all); a caller with another block size would lose input.
      The unaligned one panics on an empty buffer. */
  lemma BackEndsAgree(n: nat)
    requires 0 < n <= MAX_RATE
    ensures (forall a: Words, buf: seq<Byte> | |buf| == n ::
               XorLanes(a, buf, n / 8) == XorLanes(a, buf, UnalignedLanes(n)))
       <==> n / 8 in {0, 9, 13, 17, 18, 21}
  {
    hide Xor, LaneOf;
    if n / 8 !in {0, 9, 13, 17, 18, 21} {
      var u := UnalignedLanes(n);
      assert u < n / 8;
      var a: Words := seq(25, _ => Lane(0));
      var buf: seq<Byte> := seq(n, _ => 1);
      NonZeroWord(buf, u);
      assert XorLanes(a, buf, n / 8)[u] == Xor(a[u], Word(buf, u)) != a[u];
      assert XorLanes(a, buf, u)[u] == a[u];
      assert XorLanes(a, buf, n / 8) != XorLanes(a, buf, UnalignedLanes(n));
    }
  }

  lemma NonZeroWord(buf: seq<Byte>, i: nat)
    requires 8 * i + 8 <= |buf| && buf[8 * i] == 1
    ensures Xor(Lane(0), Word(buf, i)) != Lane(0)
  {
  }
}
