/**
 * The bloom filter over Jenkins' one-at-a-time hash, and the filter of a block set. Filters that come
 * out of Merge share the mutable hash of the filter they were merged from.
 */
module Jenkins {

  type Bytes = seq<bv8>

  function Mixed(h: bv32, b: bv8): bv32 { Stirred(h + b as bv32) }

  function Stirred(h: bv32): bv32 {
    var h1 := h + (h << 10);
    h1 ^ (h1 >> 6)
  }

  function MixedAll(h: bv32, key: Bytes): bv32 {
    if key == [] then h else Mixed(MixedAll(h, key[..|key| - 1]), key[|key| - 1])
  }

  function Finished(h: bv32): bv32 {
    var h1 := h + (h << 3);
    var h2 := h1 ^ (h1 >> 11);
    h2 + (h2 << 15)
  }

  /** The state after a Write in state `h`. */
  function Hashed(h: bv32, key: Bytes): bv32 {
    Finished(MixedAll(h, key))
  }

  // ----- the same in the arithmetic modulo 2^32 of bv32 -----

  function Spread(h: bv32): bv32 {
    var s := h * 1025;
    s ^ (s / 64)
  }

  /** Each byte is added, the sum multiplied by 2^10 + 1, and xored with its 64th part. */
  lemma MixedMeans(h: bv32, b: bv8)
    ensures Mixed(h, b) == Spread(h + b as bv32)
  {
    hide Stirred, Spread;
    StirredMeans(h + b as bv32);
  }

  lemma StirredMeans(h: bv32)
    ensures Stirred(h) == Spread(h)
  {
  }

  /** At the end: times 2^3 + 1, xored with the 2048th part, times 2^15 + 1. */
  lemma FinishedMeans(h: bv32)
    ensures Finished(h) == var s := h * 9; (s ^ (s / 2048)) * 32769
  {
  }

  /** The hash of the bytes of "Apple". */
  lemma AppleHash()
    ensures Hashed(0, [0x41, 0x70, 0x70, 0x6c, 0x65]) == 884782484
  {
    var key: Bytes := [0x41, 0x70, 0x70, 0x6c, 0x65];
    assert key[..4] == [0x41, 0x70, 0x70, 0x6c] && key[..4][..3] == [0x41, 0x70, 0x70];
    assert key[..4][..3][..2] == [0x41, 0x70] && key[..4][..3][..2][..1] == [0x41];
    var m1 := Mixed(0, 0x41);
    assert MixedAll(0, [0x41]) == m1;
    var m2 := Mixed(m1, 0x70);
    assert MixedAll(0, [0x41, 0x70]) == m2;
    var m3 := Mixed(m2, 0x70);
    assert MixedAll(0, [0x41, 0x70, 0x70]) == m3;
    assert MixedAll(0, [0x41, 0x70, 0x70, 0x6c]) == Mixed(m3, 0x6c);
  }

  class Hash {
    var state: bv32

    constructor ()
      ensures state == 0
    {
      state := 0;
    }

    method Write(key: Bytes)
      modifies this
      ensures state == Hashed(old(state), key)
    {
      hide Mixed;
      var hash := state;
      for i := 0 to |key|
        invariant hash == MixedAll(old(state), key[..i])
      {
        assert key[..i + 1][..i] == key[..i];
        hash := Mixed(hash, key[i]);
      }
      assert key[..|key|] == key;
      state := Finished(hash);
    }

    method Reset()
      modifies this
      ensures state == 0
    {
      state := 0;
    }

    method Sum32() returns (h: bv32)
      ensures h == state
    {
      h := state;
    }
  }
}

/** Filters as sets of bit positions. */
module BloomSpec {
  import opened Arith
  import opened Bits
  import opened Hamming
  import opened Jenkins

  const P32: nat := 0x1_0000_0000

  /** The modulus of the bit indices of a filter of `len` bytes, in 32-bit arithmetic. */
  function Width(len: nat): (w: nat)
    ensures w <= 8 * len
  {
    WidthWraps(len);
    len % P32 * 8 % P32
  }

  lemma WidthWraps(len: nat)
    ensures len % P32 * 8 % P32 <= 8 * len
  {
  }

  /** The modulus is zero, and Add and Find divide by zero, just for multiples of 2^29 bytes. */
  lemma WidthZero(len: nat)
    ensures Width(len) == 0 <==> len % 0x2000_0000 == 0
    ensures 0 < len < 0x2000_0000 ==> Width(len) == 8 * len
  {
    assert len % P32 % 0x2000_0000 == len % 0x2000_0000;
  }

  lemma WidthIs(len: nat)
    ensures Width(len) == 8 * len % P32
  {
    var q, r := len / P32, len % P32;
    DivModUnique(8 * len, P32, 8 * q + 8 * r / P32, 8 * r % P32);
  }

  function LittleEndian(h: bv32): Bytes {
    [(h & 0xff) as bv8, ((h >> 8) & 0xff) as bv8, ((h >> 16) & 0xff) as bv8, ((h >> 24) & 0xff) as bv8]
  }

  /** Lowest byte first. */
  lemma LittleEndianMeans(h: bv32)
    ensures var b := LittleEndian(h);
            |b| == 4 && h == b[0] as bv32 + b[1] as bv32 * 256 + b[2] as bv32 * 0x1_0000 + b[3] as bv32 * 0x100_0000
  {
  }

  /** The hash before the index number `i` is taken. */
  function HashAt(item: Bytes, i: nat): bv32 {
    if i == 0 then Hashed(0, item) else Hashed(HashAt(item, i - 1), LittleEndian(HashAt(item, i - 1)))
  }

  /** The bit positions of an item. */
  function Indices(len: nat, k: nat, item: Bytes): (r: seq<nat>)
    requires Width(len) != 0
    ensures |r| == k && forall p | p in r :: p < Width(len)
  {
    hide Width;
    seq(k, i requires 0 <= i < k => HashAt(item, i) as nat % Width(len))
  }

  predicate BitSet(bytes: seq<nat>, p: nat) {
    p / 8 < |bytes| && BitAt(bytes[p / 8], p % 8)
  }

  /** Position `p` belongs to one of the items. */
  ghost predicate Covered(len: nat, k: nat, items: set<Bytes>, p: nat)
    requires Width(len) != 0
  {
    exists x :: x in items && p in Indices(len, k, x)
  }

  /** The bits set are exactly the positions of the items. */
  ghost predicate Represents(bytes: seq<nat>, k: nat, items: set<Bytes>) {
    && Below(bytes, 256)
    && (Width(|bytes|) == 0 ==> items == {})
    && (forall p: nat | p < 8 * |bytes| ::
          BitSet(bytes, p) <==> Width(|bytes|) != 0 && Covered(|bytes|, k, items, p))
  }

  /** So the bytes are determined by the set of items: not by their order, nor by repetitions. */
  lemma BytesDetermined(a: seq<nat>, b: seq<nat>, k: nat, items: set<Bytes>)
    requires |a| == |b| && Represents(a, k, items) && Represents(b, k, items)
    ensures a == b
  {
    forall i: nat | i < |a|
      ensures a[i] == b[i]
    {
      forall j: nat | j < 8
        ensures BitAt(a[i], j) == BitAt(b[i], j)
      {
        var p := 8 * i + j;
        assert p / 8 == i && p % 8 == j;
        assert BitSet(a, p) == BitSet(b, p);
      }
      assert Pow2(8) == 256;
      SameBits(a[i], b[i], 8);
    }
  }

  // ----- byte updates -----

  function WithBit(bytes: seq<nat>, p: nat): (r: seq<nat>)
    requires p / 8 < |bytes|
    ensures |r| == |bytes|
  {
    bytes[p / 8 := Or(bytes[p / 8], Pow2(p % 8))]
  }

  lemma WithBitSets(bytes: seq<nat>, p: nat, q: nat)
    requires p / 8 < |bytes|
    ensures BitSet(WithBit(bytes, p), q) <==> BitSet(bytes, q) || p == q
  {
    if q / 8 == p / 8 {
      OrAt(bytes[p / 8], Pow2(p % 8), q % 8);
      PowAt(p % 8, q % 8);
      assert p % 8 == q % 8 <==> p == q;
    }
  }

  lemma WithBitBelow(bytes: seq<nat>, p: nat)
    requires p / 8 < |bytes| && Below(bytes, 256)
    ensures Below(WithBit(bytes, p), 256)
  {
    assert Pow2(8) == 256;
    PowBelow(p % 8, 8);
    OrBelow(bytes[p / 8], Pow2(p % 8), 8);
  }

  /** Setting an item's bits. */
  ghost predicate Added(was: seq<nat>, now: seq<nat>, ps: seq<nat>) {
    && |now| == |was| && Below(now, 256)
    && forall q: nat | q < 8 * |was| :: BitSet(now, q) <==> BitSet(was, q) || q in ps
  }

  lemma AddedRepresents(was: seq<nat>, now: seq<nat>, k: nat, items: set<Bytes>, item: Bytes)
    requires Width(|was|) != 0 && Represents(was, k, items) && Added(was, now, Indices(|was|, k, item))
    ensures Represents(now, k, items + {item})
  {
    hide Width, Indices;
    forall p: nat | p < 8 * |now|
      ensures BitSet(now, p) <==> Covered(|now|, k, items + {item}, p)
    {
      if p in Indices(|was|, k, item) {
        assert item in items + {item};
      }
      if Covered(|was|, k, items, p) {
        var x :| x in items && p in Indices(|was|, k, x);
        assert x in items + {item};
      }
    }
  }

  // ----- merging -----

  function OrBytes(a: seq<nat>, b: seq<nat>): (r: seq<nat>)
    requires |a| == |b|
    ensures |r| == |a|
  {
    seq(|a|, i requires 0 <= i < |a| => Or(a[i], b[i]))
  }

  lemma OrBytesSets(a: seq<nat>, b: seq<nat>, p: nat)
    requires |a| == |b|
    ensures BitSet(OrBytes(a, b), p) <==> BitSet(a, p) || BitSet(b, p)
  {
    if p / 8 < |a| {
      OrAt(a[p / 8], b[p / 8], p % 8);
    }
  }

  lemma OrBytesBelow(a: seq<nat>, b: seq<nat>)
    requires |a| == |b| && Below(a, 256) && Below(b, 256)
    ensures Below(OrBytes(a, b), 256)
  {
    assert Pow2(8) == 256;
    forall i: nat | i < |a|
      ensures OrBytes(a, b)[i] < 256
    {
      OrBelow(a[i], b[i], 8);
    }
  }

  /** Merging filters is taking the union of their items. */
  lemma MergeRepresents(a: seq<nat>, b: seq<nat>, k: nat, xs: set<Bytes>, ys: set<Bytes>)
    requires |a| == |b| && Represents(a, k, xs) && Represents(b, k, ys)
    ensures Represents(OrBytes(a, b), k, xs + ys)
  {
    hide Width, Indices, OrBytes;
    OrBytesBelow(a, b);
    var len := |a|;
    forall p: nat | p < 8 * len
      ensures BitSet(OrBytes(a, b), p) <==> Width(len) != 0 && Covered(len, k, xs + ys, p)
    {
      OrBytesSets(a, b, p);
      if Width(len) != 0 {
        CoveredUnion(len, k, xs, ys, p);
      }
    }
  }

  lemma CoveredUnion(len: nat, k: nat, xs: set<Bytes>, ys: set<Bytes>, p: nat)
    requires Width(len) != 0
    ensures Covered(len, k, xs + ys, p) <==> Covered(len, k, xs, p) || Covered(len, k, ys, p)
  {
    hide Width, Indices;
    if Covered(len, k, xs, p) {
      var x :| x in xs && p in Indices(len, k, x);
      assert x in xs + ys;
    } else if Covered(len, k, ys, p) {
      var y :| y in ys && p in Indices(len, k, y);
      assert y in xs + ys;
    }
  }

  // ----- distance -----

  /** The positions below `n` in which two filters differ. */
  ghost function DifferingPositions(a: seq<nat>, b: seq<nat>, n: nat): set<nat> {
    set p: nat | p < n && BitSet(a, p) != BitSet(b, p)
  }

  lemma {:induction false} PositionsInByte(a: seq<nat>, b: seq<nat>, i: nat, j: nat)
    requires |a| == |b| && i < |a| && j <= 8
    ensures |DifferingPositions(a, b, 8 * i + j)| == |DifferingPositions(a, b, 8 * i)| + Differing(a[i], b[i], j)
    decreases j
  {
    if j > 0 {
      hide DifferingPositions;
      PositionsInByte(a, b, i, j - 1);
      var p := 8 * i + j - 1;
      assert p / 8 == i && p % 8 == j - 1;
      PositionsNext(a, b, p);
    }
  }

  lemma PositionsNext(a: seq<nat>, b: seq<nat>, p: nat)
    ensures |DifferingPositions(a, b, p + 1)| == |DifferingPositions(a, b, p)| + Bit(BitSet(a, p) != BitSet(b, p))
  {
    hide BitSet;
    if BitSet(a, p) != BitSet(b, p) {
      assert DifferingPositions(a, b, p + 1) == DifferingPositions(a, b, p) + {p};
    } else {
      assert DifferingPositions(a, b, p + 1) == DifferingPositions(a, b, p);
    }
  }

  /** The distance counts the positions in which the filters differ. */
  lemma {:induction false} DistanceCountsPositions(a: seq<nat>, b: seq<nat>, n: nat)
    requires |a| == |b| && n <= |a| && Below(a, 256) && Below(b, 256)
    ensures TotalDistance(a[..n], b[..n]) == |DifferingPositions(a, b, 8 * n)|
    decreases n
  {
    if n == 0 {
      assert DifferingPositions(a, b, 0) == {};
    } else {
      DistanceCountsPositions(a, b, n - 1);
      assert a[..n][..n - 1] == a[..n - 1] && b[..n][..n - 1] == b[..n - 1];
      PositionsInByte(a, b, n - 1, 8);
      assert Pow2(8) == 256;
      DistanceCounts(a[n - 1], b[n - 1], 8);
    }
  }
}

module Bloom {
  import opened Bits
  import opened Hamming
  import opened Jenkins
  import opened BloomSpec

  datatype Error = LengthMismatch | KMismatch

  datatype Result<T> = Ok(value: T) | Err(error: Error)

  class Filter {
    const filter: array<nat>
    const hash: Hash
    const k: nat

    /** Between calls the hash, shared or not, is back at its initial state. */
    ghost predicate Valid()
      reads hash, filter
    {
      hash.state == 0 && Below(filter[..], 256)
    }

    /** NewFilter. */
    constructor (size: nat)
      ensures Valid() && fresh(filter) && fresh(hash)
      ensures filter.Length == size && k == 3 && Represents(filter[..], 3, {})
    {
      filter := new nat[size](_ => 0);
      hash := new Hash();
      k := 3;
      new;
      forall p: nat | p < 8 * size
        ensures !BitSet(filter[..], p)
      {
        ZeroAt(p % 8);
      }
    }

    constructor Sharing(h: Hash, bytes: array<nat>, k: nat)
      ensures hash == h && filter == bytes && this.k == k
    {
      filter, hash, this.k := bytes, h, k;
    }

    method GetBitIndicies(bytes: Bytes) returns (indicies: seq<nat>)
      requires hash.state == 0 && Width(filter.Length) != 0
      modifies hash
      ensures hash.state == 0 && indicies == Indices(filter.Length, k, bytes)
    {
      hide Hashed, LittleEndian, Width;
      indicies := [];
      hash.Write(bytes);
      for i := 0 to k
        invariant |indicies| == i && hash.state == HashAt(bytes, i)
        invariant forall j: nat | j < i :: indicies[j] == HashAt(bytes, j) as nat % Width(filter.Length)
      {
        var res := hash.Sum32();
        indicies := indicies + [res as nat % Width(filter.Length)];
        hash.Write(LittleEndian(res));
      }
      hash.Reset();
    }

    method SetBit(i: nat)
      requires i / 8 < filter.Length
      modifies filter
      ensures forall q: nat :: BitSet(filter[..], q) <==> BitSet(old(filter[..]), q) || q == i
      ensures Below(old(filter[..]), 256) ==> Below(filter[..], 256)
    {
      hide BitSet;
      filter[i / 8] := Or(filter[i / 8], Pow2(i % 8));
      assert filter[..] == WithBit(old(filter[..]), i);
      forall q: nat
        ensures BitSet(filter[..], q) <==> BitSet(old(filter[..]), q) || q == i
      {
        WithBitSets(old(filter[..]), i, q);
      }
      if Below(old(filter[..]), 256) {
        WithBitBelow(old(filter[..]), i);
      }
    }

    method GetBit(i: nat) returns (b: bool)
      requires i / 8 < filter.Length
      ensures b == BitSet(filter[..], i)
    {
      AndPow(filter[i / 8], i % 8);
      b := And(filter[i / 8], Pow2(i % 8)) != 0;
    }

    method Add(bytes: Bytes)
      requires Valid() && Width(filter.Length) != 0
      modifies filter, hash
      ensures Valid() && Added(old(filter[..]), filter[..], Indices(filter.Length, k, bytes))
    {
      hide Width, Indices, WithBit, BitSet;
      var bits := GetBitIndicies(bytes);
      ghost var was := filter[..];
      for i := 0 to |bits|
        invariant hash.state == 0 && Added(was, filter[..], bits[..i])
      {
        assert bits[i] in bits;
        SetBit(bits[i]);
        assert bits[..i + 1] == bits[..i] + [bits[i]];
      }
      assert bits[..|bits|] == bits;
    }

    method Find(bytes: Bytes) returns (found: bool)
      requires Valid() && Width(filter.Length) != 0
      modifies hash
      ensures Valid()
      ensures found <==> forall p | p in Indices(filter.Length, k, bytes) :: BitSet(filter[..], p)
    {
      hide Width, Indices, BitSet;
      var bits := GetBitIndicies(bytes);
      for i := 0 to |bits|
        invariant hash.state == 0
        invariant forall p | p in bits[..i] :: BitSet(filter[..], p)
      {
        assert bits[i] in bits;
        var b := GetBit(bits[i]);
        if !b {
          return false;
        }
        assert bits[..i + 1] == bits[..i] + [bits[i]];
      }
      assert bits[..|bits|] == bits;
      return true;
    }

    /** The merged filter has bytes of its own but this filter's hash. */
    method Merge(o: Filter) returns (r: Result<Filter>)
      requires Valid()
      ensures r.Ok? <==> o.filter.Length == filter.Length && o.k == k
      ensures r.Err? ==> r.error == if o.filter.Length != filter.Length then LengthMismatch else KMismatch
      ensures r.Ok? ==> fresh(r.value) && fresh(r.value.filter) && r.value.hash == hash && r.value.k == k
      ensures r.Ok? ==> r.value.filter[..] == OrBytes(filter[..], o.filter[..])
    {
      if o.filter.Length != filter.Length {
        return Err(LengthMismatch);
      }
      if o.k != k {
        return Err(KMismatch);
      }
      var bytes := new nat[filter.Length];
      for i := 0 to filter.Length
        modifies bytes
        invariant forall j: nat | j < i :: bytes[j] == Or(filter[j], o.filter[j])
      {
        bytes[i] := Or(filter[i], o.filter[i]);
      }
      var merged := new Filter.Sharing(hash, bytes, k);
      return Ok(merged);
    }

    method HammingDistance(o: Filter) returns (r: Result<nat>)
      requires Below(filter[..], 256) && Below(o.filter[..], 256)
      ensures r.Ok? <==> o.filter.Length == filter.Length
      ensures r.Ok? ==> r.value == |DifferingPositions(filter[..], o.filter[..], 8 * filter.Length)|
    {
      if filter.Length != o.filter.Length {
        return Err(LengthMismatch);
      }
      ghost var a, b := filter[..], o.filter[..];
      var acc: nat := 0;
      for i := 0 to filter.Length
        invariant acc == TotalDistance(a[..i], b[..i])
      {
        ByteBelow(a[i], b[i]);
        TableCounts(Xor(a[i], b[i]));
        assert a[..i + 1][..i] == a[..i] && b[..i + 1][..i] == b[..i];
        acc := acc + CountBitsByte(Xor(filter[i], o.filter[i]));
      }
      DistanceCountsPositions(a, b, filter.Length);
      return Ok(acc);
    }
  }

  /** Find answers for a filter of known items: yes exactly when other items cover all its positions,
      so always yes for the items themselves. */
  lemma FindAnswers(bytes: seq<nat>, k: nat, items: set<Bytes>, x: Bytes)
    requires Width(|bytes|) != 0 && Represents(bytes, k, items)
    ensures (forall p | p in Indices(|bytes|, k, x) :: BitSet(bytes, p))
       <==> (forall p | p in Indices(|bytes|, k, x) :: Covered(|bytes|, k, items, p))
    ensures x in items ==> forall p | p in Indices(|bytes|, k, x) :: BitSet(bytes, p)
  {
    hide Indices, BitSet;
    forall p | p in Indices(|bytes|, k, x)
      ensures BitSet(bytes, p) <==> Covered(|bytes|, k, items, p)
    {
      assert p < 8 * |bytes|;
    }
    if x in items {
      forall p | p in Indices(|bytes|, k, x)
        ensures BitSet(bytes, p)
      {
        assert Covered(|bytes|, k, items, p);
      }
    }
  }

  // ----- programs over many filters -----

  datatype Op = New(size: nat) | AddTo(i: nat, item: Bytes) | MergeOf(i: nat, j: nat)

  /** A filter as its size and the set of items in it. */
  datatype Sketch = Sketch(size: nat, items: set<Bytes>)

  /** Indices are in range and no Add divides by zero. */
  predicate Runs(op: Op, fs: seq<Sketch>) {
    match op
    case New(_) => true
    case AddTo(i, _) => i < |fs| && Width(fs[i].size) != 0
    case MergeOf(i, j) => i < |fs| && j < |fs|
  }

  /** A merge of filters of different sizes is refused and makes no filter. */
  function After(op: Op, fs: seq<Sketch>): seq<Sketch>
    requires Runs(op, fs)
  {
    match op
    case New(size) => fs + [Sketch(size, {})]
    case AddTo(i, item) => fs[i := Sketch(fs[i].size, fs[i].items + {item})]
    case MergeOf(i, j) =>
      if fs[i].size == fs[j].size then fs + [Sketch(fs[i].size, fs[i].items + fs[j].items)] else fs
  }

  ghost predicate AllRun(ops: seq<Op>)
    decreases |ops|, 0
  {
    ops == [] || (AllRun(ops[..|ops| - 1]) && Runs(ops[|ops| - 1], AfterAll(ops[..|ops| - 1])))
  }

  ghost function AfterAll(ops: seq<Op>): seq<Sketch>
    requires AllRun(ops)
    decreases |ops|, 1
  {
    if ops == [] then [] else After(ops[|ops| - 1], AfterAll(ops[..|ops| - 1]))
  }

  ghost predicate Stands(f: Filter, s: Sketch)
    reads f.filter, f.hash
  {
    f.Valid() && f.k == 3 && f.filter.Length == s.size && Represents(f.filter[..], 3, s.items)
  }

  /** Whatever is created, added to and merged, in whatever order, each filter holds its own items,
      although a merged filter, its ancestors and its descendants use one hash. */
  class Pool {
    var filters: seq<Filter>

    ghost predicate Holds(fs: seq<Sketch>)
      reads this, set f | f in filters :: f.filter, set f | f in filters :: f.hash
    {
      && |filters| == |fs|
      && (forall i: nat | i < |fs| :: Stands(filters[i], fs[i]))
      && (forall i: nat, j: nat | i < j < |fs| :: filters[i].filter != filters[j].filter)
    }

    constructor ()
      ensures Holds([]) && filters == []
    {
      filters := [];
    }

    method Apply(op: Op, ghost fs: seq<Sketch>)
      requires Holds(fs) && Runs(op, fs)
      modifies this, set f | f in filters :: f.filter, set f | f in filters :: f.hash
      ensures Holds(After(op, fs))
      ensures forall f | f in filters && f !in old(filters) :: fresh(f.filter)
      ensures forall f | f in filters && f !in old(filters) ::
                fresh(f.hash) || exists g :: g in old(filters) && g.hash == f.hash
    {
      hide Represents;
      match op
      case New(size) =>
        var f := new Filter(size);
        filters := filters + [f];
      case AddTo(i, item) =>
        ghost var was := filters[i].filter[..];
        filters[i].Add(item);
        AddedRepresents(was, filters[i].filter[..], 3, fs[i].items, item);
      case MergeOf(i, j) =>
        assert Stands(filters[i], fs[i]) && Stands(filters[j], fs[j]);
        var r := filters[i].Merge(filters[j]);
        if r.Ok? {
          OrBytesBelow(filters[i].filter[..], filters[j].filter[..]);
          MergeRepresents(filters[i].filter[..], filters[j].filter[..], 3, fs[i].items, fs[j].items);
          filters := filters + [r.value];
        }
    }
  }

  method RunProgram(ops: seq<Op>) returns (pool: Pool)
    requires AllRun(ops)
    ensures pool.Holds(AfterAll(ops))
  {
    hide Stands, Runs, After;
    pool := new Pool();
    for n := 0 to |ops|
      invariant fresh(pool) && forall f | f in pool.filters :: fresh(f.filter) && fresh(f.hash)
      invariant AllRun(ops[..n]) && pool.Holds(AfterAll(ops[..n]))
    {
      PrefixRuns(ops, n + 1);
      assert ops[..n + 1][..n] == ops[..n];
      pool.Apply(ops[n], AfterAll(ops[..n]));
    }
    assert ops[..|ops|] == ops;
  }

  lemma {:induction false} PrefixRuns(ops: seq<Op>, n: nat)
    requires AllRun(ops) && n <= |ops|
    ensures AllRun(ops[..n])
    decreases |ops|
  {
    if n == |ops| {
      assert ops[..n] == ops;
    } else {
      PrefixRuns(ops[..|ops| - 1], n);
      assert ops[..|ops| - 1][..n] == ops[..n];
    }
  }

  // ----- block sets -----

  class BlockSet {
    var blocks: set<Bytes>

    method AddBlock(k: Bytes)
      modifies this
      ensures blocks == old(blocks) + {k}
    {
      blocks := blocks + {k};
    }

    method RemoveBlock(k: Bytes)
      modifies this
      ensures blocks == old(blocks) - {k}
    {
      blocks := blocks - {k};
    }

    /** The keys come in any order; the filter is the one of the set. */
    method GetBloomFilter() returns (f: Filter)
      ensures fresh(f) && f.filter.Length == 2048 && f.k == 3 && Represents(f.filter[..], 3, blocks)
    {
      f := new Filter(2048);
      WidthZero(2048);
      hide Represents, Width;
      var rest := blocks;
      while rest != {}
        invariant fresh(f.filter) && fresh(f.hash) && f.Valid() && rest <= blocks
        invariant Represents(f.filter[..], 3, blocks - rest)
      {
        var k :| k in rest;
        ghost var was := f.filter[..];
        f.Add(k);
        AddedRepresents(was, f.filter[..], 3, blocks - rest, k);
        rest := rest - {k};
        assert blocks - rest == (blocks - (rest + {k})) + {k};
      }
    }
  }
}
