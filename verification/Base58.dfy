/** Positional numerals, most significant digit first, in any base. */
module Numerals {
  import opened Arith

  ghost predicate Digits(ds: seq<nat>, base: nat) {
    forall i: nat | i < |ds| :: ds[i] < base
  }

  function Value(ds: seq<nat>, base: nat): nat {
    if ds == [] then 0 else Value(ds[..|ds| - 1], base) * base + ds[|ds| - 1]
  }

  /** The numeral of `v` without leading zeros; none at all for zero. */
  function Minimal(v: nat, base: nat): (ds: seq<nat>)
    requires base >= 2
    ensures v > 0 <==> ds != []
    decreases v
  {
    if v == 0 then [] else Shrinks(v, base); Minimal(v / base, base) + [v % base]
  }

  lemma Shrinks(v: nat, base: nat)
    requires v > 0 && base >= 2
    ensures v / base < v
  {
    assert v == (v / base) * base + v % base;
    assert (v / base) * 2 <= (v / base) * base;
  }

  function Zeros(n: nat): seq<nat> { seq(n, _ => 0) }

  function LeadingZeros(ds: seq<nat>): (n: nat)
    ensures n <= |ds|
  {
    if ds != [] && ds[0] == 0 then 1 + LeadingZeros(ds[1..]) else 0
  }

  /** Read a numeral in one base and write it in another, keeping leading zeros one for one. */
  function Transcode(ds: seq<nat>, from: nat, to: nat): seq<nat>
    requires to >= 2
  {
    Zeros(LeadingZeros(ds)) + Minimal(Value(ds, from), to)
  }

  lemma {:induction false} MinimalFacts(v: nat, base: nat)
    requires base >= 2
    ensures Value(Minimal(v, base), base) == v && Digits(Minimal(v, base), base)
    ensures v > 0 ==> Minimal(v, base)[0] > 0
    decreases v
  {
    hide Value, Digits, Minimal;
    if v == 0 {
      MinimalZero(base);
    } else {
      Shrinks(v, base);
      var q, r := v / base, v % base;
      QuotientRemainder(v, base, q, r);
      MinimalFacts(q, base);
      MinimalNext(v, base);
      AppendFacts(Minimal(q, base), r, base);
      if q == 0 {
        MinimalZero(base);
      }
    }
  }

  lemma MinimalZero(base: nat)
    requires base >= 2
    ensures Minimal(0, base) == [] && Value([], base) == 0 && Digits([], base)
  {
  }

  lemma MinimalNext(v: nat, base: nat)
    requires base >= 2 && v > 0
    ensures Minimal(v, base) == Minimal(v / base, base) + [v % base]
  {
  }

  lemma QuotientRemainder(v: nat, base: nat, q: nat, r: nat)
    requires base >= 2 && q == v / base && r == v % base
    ensures v == q * base + r && r < base && (q == 0 ==> r == v)
  {
  }

  lemma AppendFacts(high: seq<nat>, low: nat, base: nat)
    requires Digits(high, base) && low < base
    ensures Value(high + [low], base) == Value(high, base) * base + low && Digits(high + [low], base)
  {
    assert (high + [low])[..|high|] == high;
  }

  lemma {:induction false} ValuePadded(n: nat, ds: seq<nat>, base: nat)
    ensures Value(Zeros(n) + ds, base) == Value(ds, base)
    decreases n + |ds|
  {
    var all := Zeros(n) + ds;
    if ds != [] {
      assert all[..|all| - 1] == Zeros(n) + ds[..|ds| - 1];
      ValuePadded(n, ds[..|ds| - 1], base);
    } else if n > 0 {
      assert all[..|all| - 1] == Zeros(n - 1) + [];
      ValuePadded(n - 1, [], base);
    }
  }

  lemma {:induction false} LeadingZerosPadded(n: nat, ds: seq<nat>)
    requires ds != [] ==> ds[0] != 0
    ensures LeadingZeros(Zeros(n) + ds) == n
  {
    if n > 0 {
      LeadingZerosPadded(n - 1, ds);
      assert (Zeros(n) + ds)[1..] == Zeros(n - 1) + ds;
    } else {
      assert Zeros(0) + ds == ds;
    }
  }

  /** A numeral that does not start with a zero is the minimal one of its value. */
  lemma {:induction false} MinimalUnique(ds: seq<nat>, base: nat)
    requires base >= 2 && Digits(ds, base) && (ds != [] ==> ds[0] > 0)
    ensures Minimal(Value(ds, base), base) == ds
    decreases |ds|
  {
    hide Minimal;
    if ds == [] {
      MinimalZero(base);
    } else {
      var high, low := ds[..|ds| - 1], ds[|ds| - 1];
      var v := Value(high, base);
      assert Value(ds, base) == v * base + low;
      assert Digits(high, base) && (high != [] ==> high[0] > 0) && (high == [] ==> low > 0);
      MinimalUnique(high, base);
      hide Value, Digits;
      if high == [] {
        MinimalZero(base);
      }
      Positive(v, base, low);
      DivModUnique(v * base + low, base, v, low);
      MinimalNext(v * base + low, base);
      assert high + [low] == ds;
    }
  }

  lemma Positive(v: nat, base: nat, low: nat)
    requires base >= 2 && (v > 0 || low > 0)
    ensures v * base + low > 0
  {
  }

  lemma {:induction false} SplitZeros(ds: seq<nat>)
    ensures var n := LeadingZeros(ds);
            ds == Zeros(n) + ds[n..] && (ds[n..] != [] ==> ds[n] > 0)
  {
    if ds != [] && ds[0] == 0 {
      var n, rest := LeadingZeros(ds[1..]), ds[1..];
      assert LeadingZeros(ds) == n + 1;
      hide LeadingZeros;
      SplitZeros(rest);
      ZerosFront(n);
      hide Zeros;
      assert ds == [0] + rest && ds[n + 1..] == rest[n..];
      assert [0] + (Zeros(n) + rest[n..]) == [0] + Zeros(n) + rest[n..];
    } else {
      assert ds == Zeros(0) + ds[0..];
    }
  }

  lemma ZerosFront(n: nat)
    ensures Zeros(n + 1) == [0] + Zeros(n)
  {
  }

  /** Transcoding there and back is the identity, on every numeral with valid digits. */
  lemma TranscodeRoundTrip(ds: seq<nat>, a: nat, b: nat)
    requires a >= 2 && b >= 2 && Digits(ds, a)
    ensures Digits(Transcode(ds, a, b), b)
    ensures Transcode(Transcode(ds, a, b), b, a) == ds
  {
    var n := LeadingZeros(ds);
    var v := Value(ds, a);
    SplitZeros(ds);
    MinimalFacts(v, b);
    LeadingZerosPadded(n, Minimal(v, b));
    ValuePadded(n, Minimal(v, b), b);
    ValuePadded(n, ds[n..], a);
    MinimalUnique(ds[n..], a);
  }
}

/** Base58 over an alphabet of 58 different ASCII characters.  A byte is a digit of base 256. */
module Base58 {
  import opened Sequences
  import opened Numerals

  const BTC_ALPHABET := "123456789" + "ABCDEFGHJKLMNPQRSTUVWXYZ" + "abcdefghijkmnopqrstuvwxyz"

  ghost predicate IsAlphabet(alphabet: string) {
    && |alphabet| == 58
    && (forall i: nat, j: nat | i < j < 58 :: alphabet[i] != alphabet[j])
    && (forall i: nat | i < 58 :: alphabet[i] as int < 128)
  }

  ghost predicate IsBytes(b: seq<nat>) { Digits(b, 256) }

  /** `s` is written in `alphabet`. */
  ghost predicate Over(s: string, alphabet: string) {
    forall i: nat | i < |s| :: s[i] in alphabet
  }

  /** The position of a character, or -1. */
  function IndexOf(alphabet: string, c: char): (i: int)
    ensures -1 <= i < |alphabet|
    ensures i == -1 <==> c !in alphabet
    ensures i >= 0 ==> alphabet[i] == c
  {
    if alphabet == [] then -1
    else if alphabet[0] == c then 0
    else var i := IndexOf(alphabet[1..], c); if i == -1 then -1 else i + 1
  }

  ghost function Spell(ds: seq<nat>, alphabet: string): (s: string)
    requires Digits(ds, |alphabet|)
    ensures |s| == |ds|
  {
    seq(|ds|, i requires 0 <= i < |ds| => alphabet[ds[i]])
  }

  ghost function Unspell(s: string, alphabet: string): (ds: seq<nat>)
    requires Over(s, alphabet)
    ensures |ds| == |s| && Digits(ds, |alphabet|)
  {
    seq(|s|, i requires 0 <= i < |s| => IndexOf(alphabet, s[i]) as nat)
  }

  /** What EncodeAlphabet returns. */
  ghost function Encode(b: seq<nat>, alphabet: string): string
    requires IsBytes(b) && IsAlphabet(alphabet)
  {
    TranscodeRoundTrip(b, 256, 58);
    Spell(Transcode(b, 256, 58), alphabet)
  }

  /** What DecodeAlphabet returns: nothing for a string with a foreign character. */
  ghost function Decode(s: string, alphabet: string): seq<nat>
    requires IsAlphabet(alphabet)
  {
    if Over(s, alphabet) then Transcode(Unspell(s, alphabet), 58, 256) else []
  }

  lemma UnspellSpell(ds: seq<nat>, alphabet: string)
    requires IsAlphabet(alphabet) && Digits(ds, 58)
    ensures Over(Spell(ds, alphabet), alphabet) && Unspell(Spell(ds, alphabet), alphabet) == ds
  {
    forall i: nat | i < |ds|
      ensures Spell(ds, alphabet)[i] in alphabet && IndexOf(alphabet, alphabet[ds[i]]) == ds[i]
    {
    }
  }

  lemma SpellUnspell(s: string, alphabet: string)
    requires IsAlphabet(alphabet) && Over(s, alphabet)
    ensures Spell(Unspell(s, alphabet), alphabet) == s
  {
  }

  /** Every byte string comes back, leading zero bytes included. */
  lemma DecodeEncode(b: seq<nat>, alphabet: string)
    requires IsBytes(b) && IsAlphabet(alphabet)
    ensures Over(Encode(b, alphabet), alphabet)
    ensures Decode(Encode(b, alphabet), alphabet) == b
  {
    TranscodeRoundTrip(b, 256, 58);
    UnspellSpell(Transcode(b, 256, 58), alphabet);
  }

  /** Every string over the alphabet comes back, and any other one decodes to nothing. */
  lemma EncodeDecode(s: string, alphabet: string)
    requires IsAlphabet(alphabet)
    ensures IsBytes(Decode(s, alphabet))
    ensures Over(s, alphabet) ==> Encode(Decode(s, alphabet), alphabet) == s
    ensures !Over(s, alphabet) ==> Decode(s, alphabet) == []
  {
    if Over(s, alphabet) {
      TranscodeRoundTrip(Unspell(s, alphabet), 58, 256);
      SpellUnspell(s, alphabet);
    }
  }

  // ----- the loops -----

  function Power(base: nat, n: nat): nat { if n == 0 then 1 else base * Power(base, n - 1) }

  /** The value grows at the front by a power of the base. */
  lemma {:induction false} ValueFront(d: nat, ds: seq<nat>, base: nat)
    ensures Value([d] + ds, base) == d * Power(base, |ds|) + Value(ds, base)
    decreases |ds|
  {
    var all := [d] + ds;
    if ds == [] {
      assert all[..0] == [];
    } else {
      var high, low := ds[..|ds| - 1], ds[|ds| - 1];
      assert all[..|all| - 1] == [d] + high;
      ValueFront(d, high, base);
      Distribute(d, Power(base, |high|), Value(high, base), base);
    }
  }

  lemma Distribute(d: nat, p: nat, v: nat, base: nat)
    ensures (d * p + v) * base == d * (base * p) + v * base
  {
  }

  /** The first loop of DecodeAlphabet, from the last character on. */
  method ReadValue(b: string, alphabet: string) returns (ok: bool, answer: nat)
    requires IsAlphabet(alphabet)
    ensures ok <==> Over(b, alphabet)
    ensures ok ==> answer == Value(Unspell(b, alphabet), 58)
  {
    hide Value, Power;
    answer := 0;
    var j := 1;
    var i := |b| - 1;
    ReadNothing(b[|b|..], alphabet);
    while i >= 0
      invariant -1 <= i < |b| && Over(b[i + 1..], alphabet)
      invariant answer == Value(Unspell(b[i + 1..], alphabet), 58)
      invariant j == Power(58, |b| - 1 - i)
    {
      var tmp := IndexOf(alphabet, b[i]);
      if tmp == -1 {
        return false, 0;
      }
      ReadOne(b, i, alphabet);
      answer := answer + j * tmp;
      j := j * 58;
      i := i - 1;
    }
    assert b[0..] == b;
    ok := true;
  }

  lemma ReadNothing(s: string, alphabet: string)
    requires s == ""
    ensures Over(s, alphabet) && Value(Unspell(s, alphabet), 58) == 0 && Power(58, 0) == 1
  {
  }

  lemma ReadOne(b: string, i: nat, alphabet: string)
    requires i < |b| && Over(b[i + 1..], alphabet) && b[i] in alphabet
    ensures Over(b[i..], alphabet)
    ensures Value(Unspell(b[i..], alphabet), 58)
         == Value(Unspell(b[i + 1..], alphabet), 58) + Power(58, |b| - 1 - i) * IndexOf(alphabet, b[i])
    ensures Power(58, |b| - i) == Power(58, |b| - 1 - i) * 58
  {
    hide IndexOf, Value, Power, Unspell;
    UnspellFront(b, i, alphabet);
    var d: nat, n: nat, rest := IndexOf(alphabet, b[i]) as nat, |b| - 1 - i, Unspell(b[i + 1..], alphabet);
    assert |rest| == n;
    ValueFront(d, rest, 58);
    PowerNext(58, n);
    Commute(d, Power(58, n));
  }

  lemma Commute(d: nat, p: nat)
    ensures d * p == p * d
  {
  }

  lemma UnspellFront(b: string, i: nat, alphabet: string)
    requires i < |b| && Over(b[i + 1..], alphabet) && b[i] in alphabet
    ensures Over(b[i..], alphabet)
    ensures Unspell(b[i..], alphabet) == [IndexOf(alphabet, b[i]) as nat] + Unspell(b[i + 1..], alphabet)
  {
    hide IndexOf;
    assert b[i..] == [b[i]] + b[i + 1..];
  }

  lemma PowerNext(base: nat, n: nat)
    ensures Power(base, n + 1) == Power(base, n) * base
  {
  }

  method DecodeAlphabet(b: string, alphabet: string) returns (val: seq<nat>)
    requires IsAlphabet(alphabet)
    ensures val == Decode(b, alphabet)
  {
    hide Value, Minimal, LeadingZeros, IndexOf, Unspell;
    var ok, answer := ReadValue(b, alphabet);
    if !ok {
      return [];
    }
    var tmpval := Minimal(answer, 256);
    var numZeros := 0;
    ghost var ds := Unspell(b, alphabet);
    assert ds[0..] == ds;
    while numZeros < |b|
      invariant 0 <= numZeros <= |b|
      invariant LeadingZeros(ds) == numZeros + LeadingZeros(ds[numZeros..])
    {
      FirstDigit(b, alphabet, numZeros);
      if b[numZeros] != alphabet[0] {
        break;
      }
      numZeros := numZeros + 1;
    }
    NoDigits();
    val := Zeros(numZeros) + tmpval;
  }

  lemma NoDigits()
    ensures LeadingZeros([]) == 0
  {
  }

  lemma FirstDigit(b: string, alphabet: string, n: nat)
    requires IsAlphabet(alphabet) && Over(b, alphabet) && n < |b|
    ensures var ds := Unspell(b, alphabet);
            LeadingZeros(ds[n..]) == if b[n] == alphabet[0] then 1 + LeadingZeros(ds[n + 1..]) else 0
  {
    var ds := Unspell(b, alphabet);
    assert ds[n..][1..] == ds[n + 1..];
    assert ds[n] == 0 <==> b[n] == alphabet[0];
  }

  lemma ReverseAppend(ds: seq<nat>, d: nat)
    ensures Reverse(ds + [d]) == [d] + Reverse(ds)
  {
  }

  lemma SpellAppend(ds: seq<nat>, d: nat, alphabet: string)
    requires Digits(ds, |alphabet|) && d < |alphabet|
    ensures Digits(ds + [d], |alphabet|) && Spell(ds + [d], alphabet) == Spell(ds, alphabet) + [alphabet[d]]
  {
  }

  /** The loop that divides: the digits come out lowest first. */
  method EncodeDigits(v: nat, alphabet: string) returns (answer: string, ghost ds: seq<nat>)
    requires IsAlphabet(alphabet)
    ensures |alphabet| == 58 && Digits(ds, 58) && answer == Spell(ds, alphabet) && Reverse(ds) == Minimal(v, 58)
  {
    hide Spell, Reverse, IsAlphabet, Minimal;
    Blank(alphabet);
    answer, ds := "", [];
    var x := v;
    assert Minimal(v, 58) + [] == Minimal(v, 58);
    while x > 0
      invariant x >= 0 && Digits(ds, 58) && answer == Spell(ds, alphabet)
      invariant Minimal(v, 58) == Minimal(x, 58) + Reverse(ds)
      decreases x
    {
      var mod := x % 58;
      Shrinks(x, 58);
      MinimalNext(x, 58);
      ReverseAppend(ds, mod);
      SpellAppend(ds, mod, alphabet);
      assert Minimal(x / 58, 58) + [mod] + Reverse(ds) == Minimal(x / 58, 58) + ([mod] + Reverse(ds));
      answer := answer + [alphabet[mod]];
      ds := ds + [mod];
      x := x / 58;
    }
    MinimalZero(58);
    assert [] + Reverse(ds) == Reverse(ds);
  }

  /** The loop over the leading zero bytes. */
  method AppendZeros(b: seq<nat>, alphabet: string, digits: string, ghost ds: seq<nat>) returns (answer: string)
    requires |alphabet| == 58 && Digits(ds, 58) && digits == Spell(ds, alphabet)
    ensures var all := ds + Zeros(LeadingZeros(b)); Digits(all, 58) && answer == Spell(all, alphabet)
  {
    hide Spell, LeadingZeros, Zeros;
    answer := digits;
    ghost var all := ds;
    var i := 0;
    assert b[0..] == b;
    ZerosNext(0);
    assert ds + [] == ds;
    while i < |b|
      invariant 0 <= i <= |b| && LeadingZeros(b) == i + LeadingZeros(b[i..])
      invariant all == ds + Zeros(i) && Digits(all, 58) && answer == Spell(all, alphabet)
    {
      FirstByte(b, i);
      if b[i] != 0 {
        break;
      }
      SpellAppend(all, 0, alphabet);
      ZerosNext(i);
      answer := answer + [alphabet[0]];
      all := all + [0];
      i := i + 1;
    }
    NoDigits();
  }

  method EncodeAlphabet(b: seq<nat>, alphabet: string) returns (s: string)
    requires IsBytes(b) && IsAlphabet(alphabet)
    ensures s == Encode(b, alphabet)
  {
    hide Value, LeadingZeros, Spell, Reverse, IsAlphabet, Zeros, Minimal;
    var digits, ds := EncodeDigits(Value(b, 256), alphabet);
    var answer := AppendZeros(b, alphabet, digits, ds);
    s := ReverseInPlace(answer);
    ReverseZeros(ds, LeadingZeros(b));
    SpellReverse(ds + Zeros(LeadingZeros(b)), alphabet);
  }

  lemma Blank(alphabet: string)
    requires IsAlphabet(alphabet)
    ensures |alphabet| == 58 && Spell([], alphabet) == "" && Reverse<nat>([]) == []
  {
  }

  lemma ZerosNext(n: nat)
    ensures Zeros(0) == [] && Zeros(n + 1) == Zeros(n) + [0]
  {
  }

  lemma FirstByte(b: seq<nat>, n: nat)
    requires n < |b|
    ensures LeadingZeros(b[n..]) == if b[n] == 0 then 1 + LeadingZeros(b[n + 1..]) else 0
  {
    assert b[n..][1..] == b[n + 1..];
  }

  lemma ReverseZeros(ds: seq<nat>, n: nat)
    ensures Reverse(ds + Zeros(n)) == Zeros(n) + Reverse(ds)
  {
  }

  lemma SpellReverse(ds: seq<nat>, alphabet: string)
    requires Digits(ds, |alphabet|)
    ensures Digits(Reverse(ds), |alphabet|) && Spell(Reverse(ds), alphabet) == Reverse(Spell(ds, alphabet))
  {
    assert forall i: nat | i < |ds| :: Reverse(ds)[i] == ds[|ds| - 1 - i];
  }

  /** The last loop of EncodeAlphabet: swap from both ends. */
  method ReverseInPlace(s: string) returns (r: string)
    ensures r == Reverse(s)
  {
    r := s;
    var alen := |r|;
    var i := 0;
    while i < alen / 2
      invariant 0 <= i <= alen / 2 && |r| == alen
      invariant forall k | 0 <= k < i :: r[k] == s[alen - 1 - k] && r[alen - 1 - k] == s[k]
      invariant forall k | i <= k < alen - i :: r[k] == s[k]
    {
      r := r[i := r[alen - 1 - i]][alen - 1 - i := r[i]];
      i := i + 1;
    }
  }

  /** The character codes of the default alphabet: digits and letters, less 0, I, O and l. */
  function BtcCode(k: nat): nat {
    if k < 9 then 49 + k else if k < 17 then 56 + k else if k < 22 then 57 + k else if k < 33 then 58 + k
    else if k < 44 then 64 + k else 65 + k
  }

  /** The default alphabet is one. */
  lemma BtcAlphabet()
    ensures IsAlphabet(BTC_ALPHABET)
    ensures forall k: nat | k < 58 :: BTC_ALPHABET[k] as int == BtcCode(k)
  {
    var digits, upper, lower := "123456789", "ABCDEFGHJKLMNPQRSTUVWXYZ", "abcdefghijkmnopqrstuvwxyz";
    assert forall k: nat | k < 9 :: digits[k] as int == BtcCode(k);
    assert forall k: nat | k < 24 :: upper[k] as int == BtcCode(k + 9);
    assert forall k: nat | k < 25 :: lower[k] as int == BtcCode(k + 33);
    assert forall k: nat | k < 58 :: BTC_ALPHABET[k] as int == BtcCode(k);
    assert forall i: nat, j: nat | i < j < 58 :: BtcCode(i) < BtcCode(j);
  }
}
