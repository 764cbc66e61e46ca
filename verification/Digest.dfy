/**
 The buffered, two-direction sponge: `Write` absorbs, the first `Read` pads and turns the sponge
 round, and `Sum` works on a copy.  `message` is everything written and `output` everything read.
 */
module Digests {
  import opened Arith
  import opened Fips202
  import opened Keccakf
  import opened StateString
  import opened SpongeSpec
  import opened LaneIO
  import opened Options

  class Digest {
    const rate: nat
    const dsbyte: Byte
    const outputLen: nat
    const unaligned: bool     // which back end was built in
    const a: array<Lane>
    const storage: array<Byte>
    var lo: nat               // the buffer is storage[lo..hi]
    var hi: nat
    var squeezing: bool
    ghost var message: seq<Byte>
    ghost var output: seq<Byte>

    ghost predicate Shape()
      reads this, a, storage
    {
      && IsRate(rate) && a.Length == 25 && storage.Length == MAX_RATE && a as object != storage
      && lo <= hi <= rate
    }

    /** Absorbing: the words and the buffer stand for the message, whatever follows it. */
    ghost predicate Absorbing()
      requires Shape()
      reads this, a, storage
    {
      && lo == 0 && hi == |message| % rate && output == []
      && StandsFor(rate, message, Bytes(a[..]), storage[..hi])
    }

    /** Squeezing: the words hold the current block, the buffer what is left of it, and what was read
        together with what they still yield is the output of the sponge. */
    ghost predicate Squeezing()
      requires Shape()
      reads this, a, storage
    {
      && lo < hi == rate && storage[..rate] == Bytes(a[..])[..rate] && lo == |output| % rate
      && Reading(rate, dsbyte, message, output, Bytes(a[..]), lo)
    }

    ghost predicate Valid()
      reads this, a, storage
    {
      Shape() && if squeezing then Squeezing() else Absorbing()
    }

    constructor (rate: nat, dsbyte: Byte, outputLen: nat, unaligned: bool)
      requires IsRate(rate)
      ensures Valid() && fresh(a) && fresh(storage)
      ensures this.rate == rate && this.dsbyte == dsbyte && this.outputLen == outputLen && this.unaligned == unaligned
      ensures !squeezing && message == [] && output == []
    {
      hide StandsFor, Bytes;
      this.rate, this.dsbyte, this.outputLen, this.unaligned := rate, dsbyte, outputLen, unaligned;
      a := new Lane[25](_ => Lane(0));
      storage := new Byte[168];
      lo, hi, squeezing, message, output := 0, 0, false, [], [];
      new;
      ZeroBytes(a[..]);
      StandsForNothing(rate);
    }

    /** Zero the words and turn back to absorbing. */
    method Reset()
      requires Shape()
      modifies this, a
      ensures Valid() && !squeezing && message == []
    {
      hide StandsFor, Bytes;
      for i := 0 to 25
        invariant forall j | 0 <= j < i :: a[j] == Lane(0)
        invariant lo == old(lo) && hi == old(hi)
      {
        a[i] := Lane(0);
      }
      squeezing, lo, hi, message, output := false, 0, 0, [], [];
      ZeroBytes(a[..]);
      StandsForNothing(rate);
    }

    /** xorIn of the chosen back end, on a block of the rate. */
    method XorIn(buf: seq<Byte>)
      requires Shape() && |buf| == rate
      modifies a
      ensures Bytes(a[..]) == XorBlock(old(Bytes(a[..])), buf)
    {
      hide Bytes, XorBlock, XorLanes;
      if unaligned {
        XorInUnaligned(a, buf);
      } else {
        XorInGeneric(a, buf);
      }
      XorLanesIsXorBlock(old(a[..]), buf, rate / 8);
    }

    /** copyOut of the chosen back end, into storage[:rate]. */
    method CopyOut()
      requires Shape()
      modifies storage
      ensures storage[..rate] == Bytes(a[..])[..rate]
    {
      hide Bytes;
      if unaligned {
        CopyOutUnaligned(a, storage, rate);
      } else {
        CopyOutGeneric(a, storage, rate);
      }
    }

    method Permutation()
      requires Shape()
      modifies a
      ensures Bytes(a[..]) == Permute(old(Bytes(a[..])))
    {
      hide Bytes, KeccakF, Lanes;
      LanesOfBytes(a[..]);
      KeccakF1600(a);
    }

    /** permute, in the direction the sponge faces. */
    method Permutes()
      requires Shape() && (if squeezing then true else lo == 0 && hi == rate)
      modifies this`lo, this`hi, a, storage
      ensures Shape()
      ensures !squeezing ==> lo == hi == 0 && storage[..] == old(storage[..])
      ensures !squeezing ==> Bytes(a[..]) == Permute(XorBlock(old(Bytes(a[..])), old(storage[..rate])))
      ensures squeezing ==> lo == 0 && hi == rate && storage[..rate] == Bytes(a[..])[..rate]
      ensures squeezing ==> Bytes(a[..]) == Permute(old(Bytes(a[..])))
    {
      hide Bytes, Permute, XorBlock;
      if !squeezing {
        XorIn(storage[..hi]);
        lo, hi := 0, 0;
        Permutation();
      } else {
        Permutation();
        lo, hi := 0, rate;
        CopyOut();
      }
    }

    /** The domain bits and the padding, after the buffered bytes. */
    method Pad()
      requires Valid() && !squeezing
      modifies this`hi, storage
      ensures Shape() && hi == rate
      ensures storage[..rate] == old(storage[..hi]) + Padding(rate, dsbyte, |message|)
    {
      hide Bytes, StandsFor, XorByte, Padding;
      ghost var buf := storage[..hi];
      LastBlock(rate, |message|);
      storage[hi] := dsbyte;
      var zerosStart := hi + 1;
      hi := rate;
      for i := zerosStart to rate
        modifies storage
        invariant forall j | 0 <= j < zerosStart - 1 :: storage[j] == buf[j]
        invariant storage[zerosStart - 1] == dsbyte
        invariant forall j | zerosStart <= j < i :: storage[j] == 0
      {
        storage[i] := 0;
      }
      storage[rate - 1] := XorByte(storage[rate - 1], 0x80);
      assert storage[..rate][..|buf|] == buf;
      PaddedBlock(rate, dsbyte, |message|, buf, storage[..rate]);
    }

    /** Pad, absorb, and turn the sponge round. */
    method PadAndPermute()
      requires Valid() && !squeezing
      modifies this, a, storage
      ensures Valid() && squeezing && message == old(message) && output == []
    {
      hide Bytes, Permute, XorBlock, StandsFor, Yields, Padding;
      ghost var s, buf := Bytes(a[..]), storage[..hi];
      Pad();
      Permutes();
      squeezing := true;
      lo, hi := 0, rate;
      CopyOut();
      Turned(rate, dsbyte, message, s, buf);
    }

    /** append(buf, chunk...), which stays inside the storage. */
    method Append(chunk: seq<Byte>)
      requires Shape() && hi + |chunk| <= rate
      modifies this`hi, storage
      ensures Shape() && hi == old(hi) + |chunk|
      ensures storage[..hi] == old(storage[..hi]) + chunk
      ensures a[..] == old(a[..])
    {
      forall i | 0 <= i < |chunk| { storage[hi + i] := chunk[i]; }
      hi := hi + |chunk|;
    }

    /** The fast path of Write: a whole block, with nothing buffered. */
    method AbsorbBlock(block: seq<Byte>)
      requires Valid() && !squeezing && hi == 0 && |block| == rate
      modifies this, a, storage
      ensures Valid() && !squeezing && message == old(message) + block
    {
      hide Bytes, Permute, XorBlock, StandsFor;
      ghost var s, buf, m := Bytes(a[..]), storage[..hi], message;
      XorIn(block);
      message := message + block;
      Permutation();
      Buffered(rate, m, s, buf, block);
      assert buf + block == block;
      Flushed(rate, message, s, block);
      assert storage[..0] == [];
      NextLength(rate, |m|, rate);
    }

    /** The slow path: buffer what fits, and absorb the buffer when it is full. */
    method BufferInput(p: seq<Byte>) returns (todo: nat)
      requires Valid() && !squeezing && |p| > 0
      modifies this, a, storage
      ensures Valid() && !squeezing && 1 <= todo <= |p| && message == old(message) + p[..todo]
    {
      hide Bytes, Permute, XorBlock, StandsFor;
      ghost var s, buf, m := Bytes(a[..]), storage[..hi], message;
      LastBlock(rate, |m|);
      todo := rate - hi;
      if todo > |p| {
        todo := |p|;
      }
      Append(p[..todo]);
      message := message + p[..todo];
      Buffered(rate, m, s, buf, p[..todo]);
      NextLength(rate, |m|, todo);
      if hi == rate {
        Flushed(rate, message, s, storage[..hi]);
        Permutes();
        assert storage[..0] == [];
      }
    }

    /** Write absorbs `p`; the whole message, not how it was cut up, decides what the sponge stands for. */
    method Write(p: seq<Byte>) returns (written: nat)
      requires Valid() && !squeezing
      modifies this, a, storage
      ensures Valid() && !squeezing && output == []
      ensures message == old(message) + p
      ensures written == |p|
    {
      hide StandsFor, Bytes;
      written := |p|;
      var q := p;
      while |q| > 0
        invariant Valid() && !squeezing
        invariant message + q == old(message) + p
        decreases |q|
      {
        if hi == 0 && |q| >= rate {
          AbsorbBlock(q[..rate]);
          q := q[rate..];
        } else {
          var todo := BufferInput(q);
          q := q[todo..];
        }
      }
      assert q == [];
    }

    /** copy(out[at:], buf), of `k` bytes. */
    method CopyBuffer(out: array<Byte>, at: nat, k: nat)
      requires Shape() && out != storage && out as object != a && at + k <= out.Length && lo + k <= hi
      modifies out
      ensures out[..at] == old(out[..at]) && out[at..at + k] == storage[lo..lo + k]
      ensures a[..] == old(a[..]) && storage[..] == old(storage[..])
    {
      for i := 0 to k
        modifies out
        invariant out[..at] == old(out[..at]) && out[at..at + i] == storage[lo..lo + i]
      {
        out[at + i] := storage[lo + i];
        assert out[at..at + i + 1] == out[at..at + i] + [storage[lo + i]];
      }
    }

    /** One round of Read: copy what is buffered, and permute when the block is used up. */
    method ReadChunk(out: array<Byte>, at: nat) returns (k: nat)
      requires Valid() && squeezing && out != storage && out as object != a && at < out.Length
      modifies this, a, storage, out
      ensures Valid() && squeezing && message == old(message)
      ensures 1 <= k <= out.Length - at
      ensures out[..at] == old(out[..at]) && output == old(output) + out[at..at + k]
    {
      hide Bytes, Permute, StandsFor, Reading;
      ghost var s, o := Bytes(a[..]), output;
      k := if hi - lo < out.Length - at then hi - lo else out.Length - at;
      ReadOn(rate, dsbyte, message, o, s, lo, k);
      NextLength(rate, |o|, k);
      ghost var chunk := s[lo..lo + k];
      SameSlice(s, storage[..], rate, lo, lo + k);
      assert storage[..][lo..lo + k] == storage[lo..lo + k] && storage[..][..rate] == storage[..rate];
      CopyBuffer(out, at, k);
      output := output + chunk;
      lo := lo + k;
      if lo == hi {
        Permutes();
      }
    }

    /** Read fills `out` with the next bytes of the sponge's output. */
    method Read(out: array<Byte>) returns (n: nat)
      requires Valid() && out != storage && out as object != a
      modifies this, a, storage, out
      ensures Valid() && squeezing
      ensures message == old(message) && output == old(output) + out[..]
      ensures output == Sponge(rate, dsbyte, message, |output|)
      ensures n == out.Length
    {
      if !squeezing {
        PadAndPermute();
      }
      n := out.Length;
      var at := 0;
      hide Valid, Sponge;
      while at < out.Length
        invariant 0 <= at <= out.Length
        invariant Valid() && squeezing && message == old(message)
        invariant output == old(output) + out[..at]
        decreases out.Length - at
      {
        ghost var before := out[..at];
        var k := ReadChunk(out, at);
        assert out[..at + k] == before + out[at..at + k];
        at := at + k;
      }
      assert out[..at] == out[..];
      OutputSoFar();
    }

    /** Read into a new buffer of `n` bytes: the bytes of the output after those read before. */
    method ReadBytes(n: nat) returns (z: seq<Byte>)
      requires Valid()
      modifies this, a, storage
      ensures Valid() && squeezing && message == old(message) && output == old(output) + z && |z| == n
      ensures 0 < rate <= MAX_RATE && z == OutputAt(rate, dsbyte, message, |old(output)|, n)
    {
      assert 0 < rate <= MAX_RATE;
      hide *;
      var out := new Byte[n];
      var _ := Read(out);
      z := out[..];
      OutputAfter(rate, dsbyte, message, old(output), z);
    }

    lemma OutputSoFar()
      requires Valid() && squeezing
      ensures output == Sponge(rate, dsbyte, message, |output|)
    {
      hide Sponge, Bytes, Reading;
      ReadingYields(rate, dsbyte, message, output, Bytes(a[..]), lo);
    }

    /** A copy of the words and the storage, with the buffer at `start`. */
    constructor Copy(d: Digest, start: nat, ghost read: seq<Byte>)
      requires d.Shape() && start <= d.hi
      ensures Shape() && fresh(a) && fresh(storage) && a[..] == d.a[..] && storage[..] == d.storage[..]
      ensures rate == d.rate && dsbyte == d.dsbyte && outputLen == d.outputLen && unaligned == d.unaligned
      ensures lo == start && hi == d.hi && squeezing == d.squeezing && message == d.message && output == read
    {
      rate, dsbyte, outputLen, unaligned := d.rate, d.dsbyte, d.outputLen, d.unaligned;
      var words, bytes := d.a, d.storage;
      a := new Lane[25](i requires 0 <= i < words.Length reads words => words[i]);
      storage := new Byte[168](i requires 0 <= i < bytes.Length reads bytes => bytes[i]);
      lo, hi, squeezing, message, output := start, d.hi, d.squeezing, d.message, read;
      new;
      assert a[..] == d.a[..] && storage[..] == d.storage[..];
    }

    /** A clone panics when the current block has yielded fewer than 168 - rate bytes. */
    ghost predicate ClonePanics()
      requires rate > 0
      reads this
    {
      squeezing && |output| % rate < MAX_RATE - rate
    }

    /** Where in the output a clone stands. */
    ghost function ClonePlace(): int
      reads this
    {
      if squeezing then |output| - (MAX_RATE - rate) else 0
    }

    /** clone. Of a squeezing sponge it takes the capacity of the buffer for its length, and so stands
        168 - rate bytes back, or panics when the block has not yielded that many. */
    static method Clone(d: Digest) returns (r: Option<Digest>)
      requires d.Valid()
      ensures d.rate > 0 && (r.None? <==> d.ClonePanics())
      ensures r.Some? ==>
                var c := r.value;
                && c.Valid() && fresh(c) && fresh(c.a) && fresh(c.storage)
                && c.rate == d.rate && c.dsbyte == d.dsbyte && c.outputLen == d.outputLen
                && c.unaligned == d.unaligned
                && c.squeezing == d.squeezing && c.message == d.message
                && 0 <= d.ClonePlace() <= |d.output| && c.output == d.output[..d.ClonePlace()]
                && (c.output == d.output <==> !d.squeezing || d.rate == MAX_RATE)
    {
      hide StandsFor, Bytes, Reading;
      if !d.squeezing {
        var c := new Digest.Copy(d, 0, []);
        assert c.storage[..c.hi] == d.storage[..d.hi];
        return Some(c);
      }
      var start := d.rate - (MAX_RATE - d.lo);
      if start < 0 {
        return None;
      }
      BackInBlock(d.rate, |d.output|, MAX_RATE - d.rate);
      Rewound(d, MAX_RATE - d.rate);
      var c := new Digest.Copy(d, start, d.output[..|d.output| - (MAX_RATE - d.rate)]);
      assert c.storage[..c.rate] == d.storage[..d.rate];
      return Some(c);
    }

    static lemma Rewound(d: Digest, k: nat)
      requires d.Valid() && d.squeezing && k <= d.lo
      ensures k <= |d.output|
      ensures Reading(d.rate, d.dsbyte, d.message, d.output[..|d.output| - k], Bytes(d.a[..]), d.lo - k)
    {
      hide Bytes, Yields;
      ReadBack(d.rate, d.dsbyte, d.message, d.output, Bytes(d.a[..]), d.lo, k);
    }

    /** Sum appends the digest of everything written so far and leaves the sponge as it was. Of a sponge that
        was read from it appends what its clone reads next, or panics with it. */
    method Sum(prefix: seq<Byte>) returns (sum: Option<seq<Byte>>)
      requires Valid()
      ensures rate > 0 && (sum.None? <==> ClonePanics())
      ensures sum.Some? ==>
                var at := ClonePlace();
                0 <= at && sum.value == prefix + OutputAt(rate, dsbyte, message, at, outputLen)
    {
      assert 0 < rate <= MAX_RATE;
      hide *;
      var dup := Clone(this);
      if dup.None? {
        return None;
      }
      var hash := dup.value.ReadBytes(outputLen);
      return Some(prefix + hash);
    }
  }

  /** The bytes that a clone of a squeezing sponge reads next are those of the original, whatever the state,
      exactly when the rate is 168. */
  lemma CloneGoesOnIff(rate: nat, lo: nat)
    requires MAX_RATE - rate <= lo < rate <= MAX_RATE
    ensures (forall s: seq<Byte> | |s| == 200 ::
               Squeeze(rate, s, lo - (MAX_RATE - rate), 1) == Squeeze(rate, s, lo, 1))
       <==> rate == MAX_RATE
  {
    hide Squeeze;
    PlacesDiffer(rate, lo - (MAX_RATE - rate), lo);
  }

  /** New224, New256, New384 and New512 with one Write and one Sum, for the digest length in bytes.
      The capacity is twice the digest length in every case. */
  method SumFixed(data: seq<Byte>, size: nat, unaligned: bool) returns (digest: seq<Byte>)
    requires size in {28, 32, 48, 64}
    ensures digest == Sponge(200 - 2 * size, 0x06, data, size)
  {
    hide Sponge, OutputAt, Digest.Valid, Digest.Shape;
    var rate := match size case 28 => 144 case 32 => 136 case 48 => 104 case _ => 72;
    var h := new Digest(rate, 0x06, size, unaligned);
    var _ := h.Write(data);
    assert h.message == data;
    var sum := h.Sum([]);
    digest := sum.value;
    OutputFromStart(rate, 0x06, data, size);
  }

  /** ShakeSum128 and ShakeSum256: as many bytes of output as `hash` holds. */
  method ShakeSum(hash: array<Byte>, data: seq<Byte>, strength: nat, unaligned: bool)
    requires strength in {128, 256}
    modifies hash
    ensures hash[..] == Sponge(200 - strength / 4, 0x1f, data, hash.Length)
  {
    hide Sponge, Digest.Valid, Digest.Shape;
    var rate := if strength == 128 then 168 else 136;
    var h := new Digest(rate, 0x1f, 0, unaligned);
    var _ := h.Write(data);
    assert h.message == data;
    var _ := h.Read(hash);
    assert h.output == hash[..];
  }

  /** SHAKE: write, read `n` bytes, clone, and read `m` bytes from the clone. With SHAKE128 they are the next
      ones; with SHAKE256 the clone reads 32 bytes again, or there is none. */
  method CloneAndRead(data: seq<Byte>, n: nat, m: nat, strength: nat, unaligned: bool)
    returns (r: Option<seq<Byte>>)
    requires strength in {128, 256}
    ensures strength == 128 ==> r == Some(OutputAt(168, 0x1f, data, n, m))
    ensures strength == 256 ==> (r.None? <==> n % 136 < 32)
    ensures strength == 256 && r.Some? ==> n >= 32 && r.value == OutputAt(136, 0x1f, data, n - 32, m)
  {
    hide Sponge, OutputAt, Digest.Valid, Digest.Shape;
    var rate := if strength == 128 then 168 else 136;
    var h := new Digest(rate, 0x1f, 0, unaligned);
    var _ := h.Write(data);
    assert h.message == data;
    var _ := h.ReadBytes(n);
    assert |h.output| == n;
    var c := Digest.Clone(h);
    if c.None? {
      return None;
    }
    var z := c.value.ReadBytes(m);
    return Some(z);
  }

  lemma BackInBlock(rate: nat, n: nat, k: nat)
    requires rate > 0 && k <= n % rate
    ensures k <= n && (n - k) % rate == n % rate - k
  {
    DivModUnique(n - k, rate, n / rate, n % rate - k);
  }

  lemma SameSlice(x: seq<Byte>, y: seq<Byte>, n: nat, i: nat, j: nat)
    requires i <= j <= n <= |x| && n <= |y|
    ensures x[..n] == y[..n] ==> x[i..j] == y[i..j]
  {
    assert x[..n][i..j] == x[i..j] && y[..n][i..j] == y[i..j];
  }

  lemma LastBlock(rate: nat, n: nat)
    requires rate > 0
    ensures n % rate < rate
  {
  }

  /** How the length of the buffer follows the length of the message. */
  lemma NextLength(rate: nat, n: nat, k: nat)
    requires rate > 0 && n % rate + k <= rate
    ensures (n + k) % rate == if n % rate + k == rate then 0 else n % rate + k
  {
    var r := n % rate + k;
    if r == rate {
      DivModUnique(n + k, rate, n / rate + 1, 0);
    } else {
      DivModUnique(n + k, rate, n / rate, r);
    }
  }

  lemma PaddedBlock(rate: nat, ds: Byte, n: nat, buf: seq<Byte>, block: seq<Byte>)
    requires rate > 0 && |buf| == n % rate && |block| == rate && block[..|buf|] == buf
    requires forall i | |buf| <= i < rate ::
      block[i] == if i == rate - 1 then XorByte(if i == |buf| then ds else 0, 0x80) else if i == |buf| then ds else 0
    ensures block == buf + Padding(rate, ds, n)
  {
    XorConstants(ds);
    XorConstants(0);
    hide XorByte;
  }

  lemma ZeroBytes(a: Words)
    requires forall i | 0 <= i < 25 :: a[i] == Lane(0)
    ensures Bytes(a) == Zero()
  {
    assert BytesOf(Lane(0)) == [0, 0, 0, 0, 0, 0, 0, 0];
    hide BytesOf;
  }
}
