/** An optional value. */
module Options {
  datatype Option<+T> = None | Some(value: T)
}

/** Subsequences and reversal. */
module Sequences {

  predicate Subseq<T(==)>(a: seq<T>, b: seq<T>)
    decreases |b|
  {
    a == [] || (b != [] && ((a[0] == b[0] && Subseq(a[1..], b[1..])) || Subseq(a, b[1..])))
  }

  function DropLast<T>(es: seq<T>): seq<T> {
    if es == [] then [] else es[..|es| - 1]
  }

  lemma SubseqWiden<T>(a: seq<T>, b: seq<T>, x: T)
    requires Subseq(a, b)
    ensures Subseq(a, [x] + b) && Subseq([x] + a, [x] + b)
  {
    assert ([x] + b)[1..] == b && ([x] + a)[1..] == a;
  }

  lemma {:induction false} SubseqIn<T>(a: seq<T>, b: seq<T>, x: T)
    requires Subseq(a, b) && x in a
    ensures x in b
    decreases |b|
  {
    if Subseq(a, b[1..]) {
      SubseqIn(a, b[1..], x);
    } else if x != a[0] {
      assert x in a[1..];
      SubseqIn(a[1..], b[1..], x);
    }
  }

  lemma {:induction false} SubseqDropLast<T>(a: seq<T>, b: seq<T>)
    requires Subseq(a, b)
    ensures Subseq(DropLast(a), DropLast(b)) && Subseq(DropLast(a), b) && |a| <= |b|
    decreases |b|
  {
    if |a| == 1 {
      assert DropLast(a) == [];
      SubseqIn(a, b, a[0]);
    } else if |a| > 1 {
      if Subseq(a, b[1..]) {
        SubseqDropLast(a, b[1..]);
      } else {
        SubseqDropLast(a[1..], b[1..]);
        assert DropLast(a)[1..] == DropLast(a[1..]);
      }
      assert DropLast(b)[1..] == DropLast(b[1..]);
    }
  }

  /** Adding an element at the end of the longer one, or of both. */
  lemma {:induction false} SubseqAppend<T>(a: seq<T>, b: seq<T>, x: T)
    requires Subseq(a, b)
    ensures Subseq(a, b + [x]) && Subseq(a + [x], b + [x])
    decreases |b|
  {
    if b == [] {
      assert a + [x] == [x] && b + [x] == [x] && [x][1..] == [];
    } else {
      assert (b + [x])[0] == b[0] && (b + [x])[1..] == b[1..] + [x];
      if Subseq(a, b[1..]) {
        SubseqAppend(a, b[1..], x);
      } else {
        SubseqAppend(a[1..], b[1..], x);
        assert (a + [x])[0] == a[0] && (a + [x])[1..] == a[1..] + [x];
      }
    }
  }

  /** Leaving an element out. */
  lemma {:induction false} SubseqRemove<T>(x: seq<T>, h: T, y: seq<T>, b: seq<T>)
    requires Subseq(x + [h] + y, b)
    ensures Subseq(x + y, b)
    decreases |b|
  {
    var a := x + [h] + y;
    if Subseq(a, b[1..]) {
      SubseqRemove(x, h, y, b[1..]);
    } else if x == [] {
      assert a[1..] == y && x + y == y;
    } else {
      assert a[0] == x[0] && a[1..] == x[1..] + [h] + y;
      SubseqRemove(x[1..], h, y, b[1..]);
      assert (x + y)[0] == x[0] && (x + y)[1..] == x[1..] + y;
    }
  }

  /** Leaving the end out. */
  lemma {:induction false} SubseqPrefix<T>(x: seq<T>, y: seq<T>, b: seq<T>)
    requires Subseq(x + y, b)
    ensures Subseq(x, b)
    decreases |y|
  {
    if y == [] {
      assert x + y == x;
    } else {
      assert DropLast(x + y) == x + DropLast(y);
      SubseqDropLast(x + y, b);
      SubseqPrefix(x, DropLast(y), b);
    }
  }

  function Reverse<T>(s: seq<T>): (r: seq<T>)
    ensures |r| == |s|
  {
    seq(|s|, i requires 0 <= i < |s| => s[|s| - 1 - i])
  }
}
