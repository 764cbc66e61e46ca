/**
 The LRU cache as a recency list of entries, most recent first.
 */
module LruSpec {
  import opened Options
  import opened Sequences

  datatype Entry<K, V> = Entry(key: K, value: V)

  predicate Distinct<K(==), V>(es: seq<Entry<K, V>>) {
    forall i: nat, j: nat | i < j < |es| :: es[i].key != es[j].key
  }

  function Lookup<K(==), V>(es: seq<Entry<K, V>>, k: K): Option<V> {
    if es == [] then None else if es[0].key == k then Some(es[0].value) else Lookup(es[1..], k)
  }

  function Without<K(==), V>(es: seq<Entry<K, V>>, k: K): seq<Entry<K, V>> {
    if es == [] then [] else (if es[0].key == k then [] else [es[0]]) + Without(es[1..], k)
  }

  // ----- the operations -----

  function Add<K(==), V>(es: seq<Entry<K, V>>, size: nat, k: K, v: V): seq<Entry<K, V>> {
    var pushed := [Entry(k, v)] + Without(es, k);
    if Lookup(es, k).None? && |pushed| > size then DropLast(pushed) else pushed
  }

  function Touch<K(==), V>(es: seq<Entry<K, V>>, k: K): seq<Entry<K, V>> {
    match Lookup(es, k)
    case None => es
    case Some(v) => [Entry(k, v)] + Without(es, k)
  }

  datatype Op<K, V> = OpAdd(k: K, v: V) | OpGet(k: K) | OpRemove(k: K) | OpRemoveOldest | OpPurge

  function Apply<K(==), V>(es: seq<Entry<K, V>>, size: nat, op: Op<K, V>): seq<Entry<K, V>> {
    match op
    case OpAdd(k, v) => Add(es, size, k, v)
    case OpGet(k) => Touch(es, k)
    case OpRemove(k) => Without(es, k)
    case OpRemoveOldest => DropLast(es)
    case OpPurge => []
  }

  function Run<K(==), V>(es: seq<Entry<K, V>>, size: nat, ops: seq<Op<K, V>>): seq<Entry<K, V>>
    decreases |ops|
  {
    if ops == [] then es else Run(Apply(es, size, ops[0]), size, ops[1..])
  }

  // ----- facts about lists -----

  lemma {:induction false} WithoutIn<K, V>(es: seq<Entry<K, V>>, k: K, e: Entry<K, V>)
    ensures e in Without(es, k) <==> e in es && e.key != k
    decreases |es|
  {
    if es != [] {
      WithoutIn(es[1..], k, e);
      assert e in es <==> e == es[0] || e in es[1..];
    }
  }

  lemma {:induction false} LookupIn<K, V>(es: seq<Entry<K, V>>, k: K)
    ensures Lookup(es, k).Some? ==> Entry(k, Lookup(es, k).value) in es
    ensures Lookup(es, k).None? ==> forall e | e in es :: e.key != k
    decreases |es|
  {
    if es != [] {
      LookupIn(es[1..], k);
      assert es == [es[0]] + es[1..];
    }
  }

  lemma LookupUnique<K, V>(es: seq<Entry<K, V>>, e: Entry<K, V>)
    requires Distinct(es) && e in es
    ensures Lookup(es, e.key) == Some(e.value)
  {
    LookupIn(es, e.key);
  }

  lemma {:induction false} WithoutAbsent<K, V>(es: seq<Entry<K, V>>, k: K)
    requires forall e | e in es :: e.key != k
    ensures Without(es, k) == es
    decreases |es|
  {
    if es != [] {
      assert es[0] in es;
      WithoutAbsent(es[1..], k);
    }
  }

  lemma DistinctCons<K, V>(e: Entry<K, V>, es: seq<Entry<K, V>>)
    ensures Distinct([e] + es) <==> Distinct(es) && forall d | d in es :: d.key != e.key
  {
    var all := [e] + es;
    assert all[1..] == es;
    if Distinct(all) {
      forall d | d in es ensures d.key != e.key {
        var i: nat :| i < |es| && es[i] == d;
        assert all[0] == e && all[i + 1] == d;
      }
      forall i: nat, j: nat | i < j < |es| ensures es[i].key != es[j].key {
        assert all[i + 1] == es[i] && all[j + 1] == es[j];
      }
    }
  }

  lemma {:induction false} WithoutDistinct<K, V>(es: seq<Entry<K, V>>, k: K)
    requires Distinct(es)
    ensures Distinct(Without(es, k))
    ensures |Without(es, k)| == |es| - (if Lookup(es, k).Some? then 1 else 0)
    decreases |es|
  {
    if es != [] {
      var e, rest := es[0], es[1..];
      assert es == [e] + rest;
      DistinctCons(e, rest);
      WithoutDistinct(rest, k);
      if e.key == k {
        WithoutAbsent(rest, k);
      } else {
        forall d | d in Without(rest, k) ensures d.key != e.key {
          WithoutIn(rest, k, d);
        }
        DistinctCons(e, Without(rest, k));
      }
    }
  }

  lemma {:induction false} WithoutAt<K, V>(es: seq<Entry<K, V>>, i: nat)
    requires Distinct(es) && i < |es|
    ensures es[..i] + es[i + 1..] == Without(es, es[i].key)
    decreases |es|
  {
    var k := es[i].key;
    if i == 0 {
      forall e | e in es[1..] ensures e.key != k {}
      WithoutAbsent(es[1..], k);
    } else {
      WithoutAt(es[1..], i - 1);
      assert es[..i] + es[i + 1..] == [es[0]] + (es[1..][..i - 1] + es[1..][i..]);
    }
  }

  // ----- subsequences -----

  lemma {:induction false} SubseqWithout<K, V>(a: seq<Entry<K, V>>, b: seq<Entry<K, V>>, k: K)
    requires Subseq(a, b)
    ensures Subseq(Without(a, k), Without(b, k))
    decreases |b|
  {
    if a != [] {
      if Subseq(a, b[1..]) {
        SubseqWithout(a, b[1..], k);
        SubseqWiden(Without(a, k), Without(b[1..], k), b[0]);
        assert [] + Without(b[1..], k) == Without(b[1..], k);
      } else {
        SubseqWithout(a[1..], b[1..], k);
        SubseqWiden(Without(a[1..], k), Without(b[1..], k), b[0]);
        assert [] + Without(b[1..], k) == Without(b[1..], k);
        assert [] + Without(a[1..], k) == Without(a[1..], k);
      }
    }
  }

  // ----- inclusion -----

  /** How a cache of size `n` stands to one of size `m` that saw the same operations. */
  ghost predicate Included<K, V>(small: seq<Entry<K, V>>, large: seq<Entry<K, V>>, n: nat, m: nat) {
    && Distinct(small) && Distinct(large)
    && |small| <= n && |large| <= m && |large| - |small| <= m - n
    && Subseq(small, large)
  }

  lemma LookupIncluded<K, V>(small: seq<Entry<K, V>>, large: seq<Entry<K, V>>, k: K)
    requires Distinct(small) && Distinct(large) && Subseq(small, large)
    ensures Lookup(small, k).Some? ==> Lookup(large, k) == Lookup(small, k)
  {
    if Lookup(small, k).Some? {
      LookupIn(small, k);
      var e := Entry(k, Lookup(small, k).value);
      SubseqIn(small, large, e);
      LookupUnique(large, e);
    }
  }

  lemma {:induction false} DropLastIncluded<K, V>(es: seq<Entry<K, V>>)
    requires Distinct(es)
    ensures Distinct(DropLast(es))
  {
  }

  lemma PushDistinct<K, V>(es: seq<Entry<K, V>>, k: K, v: V)
    requires Distinct(es)
    ensures Distinct([Entry(k, v)] + Without(es, k))
    ensures |[Entry(k, v)] + Without(es, k)| == |es| + (if Lookup(es, k).Some? then 0 else 1)
  {
    WithoutDistinct(es, k);
    forall d | d in Without(es, k) ensures d.key != k {
      WithoutIn(es, k, d);
    }
    DistinctCons(Entry(k, v), Without(es, k));
  }

  lemma AddIncluded<K, V>(small: seq<Entry<K, V>>, large: seq<Entry<K, V>>, n: nat, m: nat, k: K, v: V)
    requires 0 < n <= m && Included(small, large, n, m)
    ensures Included(Add(small, n, k, v), Add(large, m, k, v), n, m)
  {
    var e := Entry(k, v);
    var s, l := [e] + Without(small, k), [e] + Without(large, k);
    PushDistinct(small, k, v);
    PushDistinct(large, k, v);
    LookupIncluded(small, large, k);
    SubseqWithout(small, large, k);
    SubseqWiden(Without(small, k), Without(large, k), e);
    SubseqDropLast(s, l);
    DropLastIncluded(s);
    DropLastIncluded(l);
  }

  lemma ApplyIncluded<K, V>(small: seq<Entry<K, V>>, large: seq<Entry<K, V>>, n: nat, m: nat, op: Op<K, V>)
    requires 0 < n <= m && Included(small, large, n, m)
    ensures Included(Apply(small, n, op), Apply(large, m, op), n, m)
  {
    match op
    case OpAdd(k, v) =>
      AddIncluded(small, large, n, m, k, v);
    case OpGet(k) =>
      LookupIncluded(small, large, k);
      SubseqWithout(small, large, k);
      if Lookup(large, k).Some? {
        var v := Lookup(large, k).value;
        PushDistinct(small, k, v);
        PushDistinct(large, k, v);
        SubseqWiden(Without(small, k), Without(large, k), Entry(k, v));
        if Lookup(small, k).None? {
          LookupIn(small, k);
          WithoutAbsent(small, k);
        }
      }
    case OpRemove(k) =>
      LookupIncluded(small, large, k);
      SubseqWithout(small, large, k);
      WithoutDistinct(small, k);
      WithoutDistinct(large, k);
    case OpRemoveOldest =>
      SubseqDropLast(small, large);
    case OpPurge =>
  }

  lemma {:induction false} RunIncluded<K, V>(small: seq<Entry<K, V>>, large: seq<Entry<K, V>>, n: nat, m: nat,
                                             ops: seq<Op<K, V>>)
    requires 0 < n <= m && Included(small, large, n, m)
    ensures Included(Run(small, n, ops), Run(large, m, ops), n, m)
    decreases |ops|
  {
    if ops != [] {
      ApplyIncluded(small, large, n, m, ops[0]);
      RunIncluded(Apply(small, n, ops[0]), Apply(large, m, ops[0]), n, m, ops[1..]);
    }
  }

  /** After the same operations the smaller cache's list is a subsequence of the larger one's, with the
      same values, so every hit in the smaller cache is the same hit in the larger one. */
  lemma Inclusion<K, V>(n: nat, m: nat, ops: seq<Op<K, V>>, k: K)
    requires 0 < n <= m
    ensures Subseq(Run([], n, ops), Run([], m, ops))
    ensures Lookup(Run([], n, ops), k).Some? ==> Lookup(Run([], m, ops), k) == Lookup(Run([], n, ops), k)
  {
    RunIncluded([], [], n, m, ops);
    LookupIncluded(Run([], n, ops), Run([], m, ops), k);
  }

  // ----- what each operation does to lookups -----

  lemma LookupAgree<K, V>(a: seq<Entry<K, V>>, b: seq<Entry<K, V>>, k: K)
    requires Distinct(a) && Distinct(b) && forall v :: Entry(k, v) in a <==> Entry(k, v) in b
    ensures Lookup(a, k) == Lookup(b, k)
  {
    LookupIn(a, k);
    LookupIn(b, k);
    assert Lookup(b, k).Some? ==> Entry(k, Lookup(b, k).value) in a;
    if Lookup(a, k).Some? {
      LookupUnique(b, Entry(k, Lookup(a, k).value));
    }
  }

  lemma WithoutLookup<K, V>(es: seq<Entry<K, V>>, k: K, key: K)
    requires Distinct(es)
    ensures Lookup(Without(es, k), key) == if key == k then None else Lookup(es, key)
  {
    WithoutDistinct(es, k);
    forall v
      ensures Entry(key, v) in Without(es, k) <==> Entry(key, v) in es && key != k
    {
      WithoutIn(es, k, Entry(key, v));
    }
    LookupIn(Without(es, k), key);
    if key != k {
      LookupAgree(Without(es, k), es, key);
    }
  }

  lemma DropLastLookup<K, V>(es: seq<Entry<K, V>>, key: K)
    requires Distinct(es)
    ensures Lookup(DropLast(es), key)
         == if es != [] && es[|es| - 1].key == key then None else Lookup(es, key)
  {
    if es != [] {
      var last := es[|es| - 1];
      assert es == DropLast(es) + [last];
      LookupIn(DropLast(es), key);
      if last.key != key {
        forall v
          ensures Entry(key, v) in DropLast(es) <==> Entry(key, v) in es
        {
        }
        DropLastIncluded(es);
        hide Distinct, DropLast;
        LookupAgree(DropLast(es), es, key);
      }
    }
  }

  /** The key just added has its value.  Every other keeps its own, except that adding a new key to a full
      list drops the last. */
  lemma AddLookup<K, V>(es: seq<Entry<K, V>>, size: nat, k: K, v: V, key: K)
    requires size > 0 && Distinct(es)
    ensures Lookup(Add(es, size, k, v), key) ==
      if key == k then Some(v)
      else if Lookup(es, k).None? && |es| >= size && es[|es| - 1].key == key then None
      else Lookup(es, key)
  {
    var pushed := [Entry(k, v)] + Without(es, k);
    PushDistinct(es, k, v);
    WithoutLookup(es, k, key);
    if Lookup(es, k).None? {
      LookupIn(es, k);
      WithoutAbsent(es, k);
    }
    DropLastLookup(pushed, key);
  }

  /** Get changes no lookup; a key that is found comes first. */
  lemma TouchLookup<K, V>(es: seq<Entry<K, V>>, k: K, key: K)
    requires Distinct(es)
    ensures Lookup(Touch(es, k), key) == Lookup(es, key)
    ensures Lookup(es, k).Some? ==> Touch(es, k) != [] && Touch(es, k)[0].key == k
  {
    WithoutLookup(es, k, key);
  }

  // ----- which keys a cache keeps -----

  lemma {:induction false} RunSnoc<K, V>(es: seq<Entry<K, V>>, size: nat, ops: seq<Op<K, V>>, op: Op<K, V>)
    ensures Run(es, size, ops + [op]) == Apply(Run(es, size, ops), size, op)
    decreases |ops|
  {
    if ops == [] {
      assert ([op])[1..] == [];
    } else {
      assert (ops + [op])[0] == ops[0] && (ops + [op])[1..] == ops[1..] + [op];
      RunSnoc(Apply(es, size, ops[0]), size, ops[1..], op);
    }
  }

  /** Only Add and Get. */
  ghost predicate Plays<K, V>(ops: seq<Op<K, V>>) { forall op | op in ops :: op.OpAdd? || op.OpGet? }

  /** The keys that were used, last one first: added, or asked for and found. */
  function Uses<K(==), V>(size: nat, ops: seq<Op<K, V>>): seq<K>
    decreases |ops|
  {
    if ops == [] then []
    else
      var before, op := ops[..|ops| - 1], ops[|ops| - 1];
      match op
      case OpAdd(k, _) => [k] + Uses(size, before)
      case OpGet(k) => (if Lookup(Run([], size, before), k).Some? then [k] else []) + Uses(size, before)
      case _ => Uses(size, before)
  }

  /** The value that `k` was last given. */
  function LastGiven<K(==), V>(ops: seq<Op<K, V>>, k: K): Option<V>
    decreases |ops|
  {
    if ops == [] then None
    else
      match ops[|ops| - 1]
      case OpAdd(key, v) => if key == k then Some(v) else LastGiven(ops[..|ops| - 1], k)
      case _ => LastGiven(ops[..|ops| - 1], k)
  }

  ghost function Members<T>(s: seq<T>): set<T> { set x | x in s }

  /** The last use of `k` is `i` uses back. */
  predicate LastUse<K(==)>(uses: seq<K>, k: K, i: nat) { i < |uses| && uses[i] == k && k !in uses[..i] }

  /** `k` was used, and fewer than `size` different keys since. */
  ghost predicate Recent<K>(uses: seq<K>, k: K, size: nat) {
    exists i: nat :: LastUse(uses, k, i) && |Members(uses[..i])| < size
  }

  function Keys<K, V>(es: seq<Entry<K, V>>): (ks: seq<K>)
    ensures |ks| == |es|
  {
    seq(|es|, i requires 0 <= i < |es| => es[i].key)
  }

  /** The entry at `j` was used after all that follow it: those before it are the keys used since. */
  ghost predicate InOrder<K, V>(es: seq<Entry<K, V>>, uses: seq<K>, j: nat)
    requires j < |es|
  {
    exists i: nat :: LastUse(uses, es[j].key, i) && Members(uses[..i]) == Members(Keys(es[..j]))
  }

  /** The list holds the keys last used, in the order of their last uses. */
  ghost predicate Ranked<K, V>(es: seq<Entry<K, V>>, uses: seq<K>, size: nat) {
    && Distinct(es) && |es| <= size
    && (forall j: nat | j < |es| :: InOrder(es, uses, j))
    && (|es| == size || forall k | k in uses :: k in Keys(es))
  }

  /** Where the entries behind the front come from when `k` is moved or pushed there. */
  lemma Pushed<K, V>(es: seq<Entry<K, V>>, k: K, v: V, j: nat) returns (i: nat)
    requires Distinct(es) && 0 < j < |[Entry(k, v)] + Without(es, k)|
    ensures var pushed := [Entry(k, v)] + Without(es, k);
            && i < |es| && pushed[j] == es[i] && es[i].key != k
            && Members(Keys(pushed[..j])) == {k} + Members(Keys(es[..i]))
  {
    var e, rest := Entry(k, v), Without(es, k);
    assert ([e] + rest)[..j] == [e] + rest[..j - 1];
    KeysCons(e, rest[..j - 1]);
    hide Members, Keys;
    LookupIn(es, k);
    if Lookup(es, k).None? {
      WithoutAbsent(es, k);
      i := j - 1;
    } else {
      var p: nat :| p < |es| && es[p] == Entry(k, Lookup(es, k).value);
      i := Passed(es, p, j - 1);
    }
  }

  /** Without the entry at `p` the others keep their order. */
  lemma Passed<K, V>(es: seq<Entry<K, V>>, p: nat, j: nat) returns (i: nat)
    requires Distinct(es) && p < |es| && j < |Without(es, es[p].key)|
    ensures var k, rest := es[p].key, Without(es, es[p].key);
            && i < |es| && rest[j] == es[i] && es[i].key != k
            && {k} + Members(Keys(rest[..j])) == {k} + Members(Keys(es[..i]))
  {
    var rest := Without(es, es[p].key);
    WithoutAt(es, p);
    hide Without;
    if j < p {
      i := j;
      assert rest[..j] == es[..i];
    } else {
      i := j + 1;
      assert rest[..j] == es[..p] + es[p + 1..i];
      KeysSplit(es, p, i);
    }
  }

  lemma KeysCons<K, V>(e: Entry<K, V>, es: seq<Entry<K, V>>)
    ensures Members(Keys([e] + es)) == {e.key} + Members(Keys(es))
  {
    assert Keys([e] + es) == [e.key] + Keys(es);
  }

  lemma KeysSplit<K, V>(es: seq<Entry<K, V>>, p: nat, i: nat)
    requires p < i <= |es|
    ensures Members(Keys(es[..i])) == Members(Keys(es[..p] + es[p + 1..i])) + {es[p].key}
  {
    assert Keys(es[..i]) == Keys(es[..p]) + [es[p].key] + Keys(es[p + 1..i]);
    assert Keys(es[..p] + es[p + 1..i]) == Keys(es[..p]) + Keys(es[p + 1..i]);
  }

  lemma UseInOrder<K, V>(es: seq<Entry<K, V>>, uses: seq<K>, k: K, v: V, j: nat)
    requires Distinct(es) && j < |[Entry(k, v)] + Without(es, k)|
    requires forall i: nat | i < |es| :: InOrder(es, uses, i)
    ensures InOrder([Entry(k, v)] + Without(es, k), [k] + uses, j)
  {
    var pushed, uses' := [Entry(k, v)] + Without(es, k), [k] + uses;
    if j == 0 {
      assert LastUse(uses', k, 0);
      assert Members(uses'[..0]) == Members(Keys(pushed[..0]));
    } else {
      var i := Pushed(es, k, v, j);
      assert InOrder(es, uses, i);
      var u: nat :| LastUse(uses, es[i].key, u) && Members(uses[..u]) == Members(Keys(es[..i]));
      assert uses'[..u + 1] == [k] + uses[..u];
      assert Members(uses'[..u + 1]) == {k} + Members(uses[..u]);
      assert LastUse(uses', pushed[j].key, u + 1);
    }
  }

  lemma {:induction false} DropInOrder<K, V>(es: seq<Entry<K, V>>, uses: seq<K>, j: nat)
    requires j + 1 < |es| && InOrder(es, uses, j)
    ensures InOrder(DropLast(es), uses, j)
  {
    assert DropLast(es)[..j] == es[..j];
  }

  /** Using a key, whether it is there or not, keeps the list ranked, also when the last is dropped. */
  lemma UseRanked<K, V>(es: seq<Entry<K, V>>, uses: seq<K>, size: nat, k: K, v: V)
    requires size > 0 && Ranked(es, uses, size)
    ensures Ranked(Add(es, size, k, v), [k] + uses, size)
  {
    var pushed, uses' := [Entry(k, v)] + Without(es, k), [k] + uses;
    PushDistinct(es, k, v);
    forall j: nat | j < |pushed|
      ensures InOrder(pushed, uses', j)
    {
      UseInOrder(es, uses, k, v, j);
    }
    if |pushed| > size {
      forall j: nat | j + 1 < |pushed|
        ensures InOrder(DropLast(pushed), uses', j)
      {
        DropInOrder(pushed, uses', j);
      }
    } else if |pushed| < size {
      forall x | x in uses'
        ensures x in Keys(pushed)
      {
        KeyStays(es, k, v, x);
      }
    }
  }

  lemma KeyStays<K, V>(es: seq<Entry<K, V>>, k: K, v: V, x: K)
    requires x == k || x in Keys(es)
    ensures x in Keys([Entry(k, v)] + Without(es, k))
  {
    var pushed := [Entry(k, v)] + Without(es, k);
    if x == k {
      assert Keys(pushed)[0] == k;
    } else {
      var i: nat :| i < |es| && es[i].key == x;
      WithoutIn(es, k, es[i]);
      assert es[i] in pushed;
      var j: nat :| j < |pushed| && pushed[j] == es[i];
      assert Keys(pushed)[j] == x;
    }
  }

  lemma {:induction false} RunRanked<K, V>(size: nat, ops: seq<Op<K, V>>)
    requires size > 0 && Plays(ops)
    ensures Ranked(Run([], size, ops), Uses(size, ops), size)
    decreases |ops|
  {
    if ops != [] {
      var before, op := ops[..|ops| - 1], ops[|ops| - 1];
      assert ops == before + [op];
      RunRanked(size, before);
      RunSnoc([], size, before, op);
      var es, uses := Run([], size, before), Uses(size, before);
      assert op in ops;
      match op
      case OpAdd(k, v) => UseRanked(es, uses, size, k, v);
      case OpGet(k) =>
        if Lookup(es, k).Some? {
          UseRanked(es, uses, size, k, Lookup(es, k).value);
        } else {
          assert [] + uses == uses;
        }
    }
  }

  lemma {:induction false} MembersDistinct<K, V>(es: seq<Entry<K, V>>)
    requires Distinct(es)
    ensures |Members(Keys(es))| == |es|
  {
    if es != [] {
      var rest := DropLast(es);
      var last := es[|es| - 1];
      MembersDistinct(rest);
      assert Keys(es) == Keys(rest) + [last.key];
      assert Members(Keys(es)) == Members(Keys(rest)) + {last.key};
    }
  }

  lemma MembersSnoc<T>(s: seq<T>, x: T)
    ensures Members(s + [x]) == Members(s) + {x}
  {
  }

  lemma InPrefix<T>(s: seq<T>, n: nat, i: nat)
    requires n <= |s| && i < |s|
    ensures i < n ==> s[i] in Members(s[..n])
  {
    if i < n {
      assert s[..n][i] == s[i];
    }
  }

  lemma MembersPrefix<T>(s: seq<T>, i: nat, j: nat)
    requires i <= j <= |s|
    ensures Members(s[..i]) <= Members(s[..j])
  {
    assert s[..j] == s[..i] + s[i..j];
  }

  lemma SubsetSize<T>(a: set<T>, b: set<T>)
    requires a <= b
    ensures |a| <= |b|
  {
    assert b == a + (b - a);
  }

  lemma RankedIsRecent<K, V>(es: seq<Entry<K, V>>, uses: seq<K>, size: nat, k: K)
    requires size > 0 && Ranked(es, uses, size)
    ensures k in Keys(es) <==> Recent(uses, k, size)
  {
    if k in Keys(es) {
      var j: nat :| j < |es| && es[j].key == k;
      assert InOrder(es, uses, j);
      var i: nat :| LastUse(uses, k, i) && Members(uses[..i]) == Members(Keys(es[..j]));
      MembersDistinct(es[..j]);
    } else if Recent(uses, k, size) {
      var i: nat :| LastUse(uses, k, i) && |Members(uses[..i])| < size;
      assert |es| == size;
      UsedBefore(es, uses, size, k, i);
    }
  }

  /** A key that a full list does not hold was last used before all that it holds. */
  lemma UsedBefore<K, V>(es: seq<Entry<K, V>>, uses: seq<K>, size: nat, k: K, i: nat)
    requires size > 0 && Ranked(es, uses, size) && |es| == size && k !in Keys(es) && LastUse(uses, k, i)
    ensures |Members(uses[..i])| >= size
  {
    var last := size - 1;
    assert InOrder(es, uses, last);
    var key := es[last].key;
    var u: nat :| LastUse(uses, key, u) && Members(uses[..u]) == Members(Keys(es[..last]));
    assert es == es[..last] + [es[last]];
    assert Keys(es) == Keys(es[..last]) + [key];
    MembersSnoc(Keys(es[..last]), key);
    assert uses[..u + 1] == uses[..u] + [key];
    MembersSnoc(uses[..u], key);
    assert k !in Members(uses[..u + 1]);
    InPrefix(uses, u + 1, i);
    MembersPrefix(uses, u + 1, i);
    MembersDistinct(es);
    SubsetSize(Members(Keys(es)), Members(uses[..i]));
  }

  lemma {:induction false} HasLastGiven<K, V>(size: nat, ops: seq<Op<K, V>>, k: K)
    requires size > 0
    ensures Distinct(Run([], size, ops))
    ensures Lookup(Run([], size, ops), k).Some? ==> Lookup(Run([], size, ops), k) == LastGiven(ops, k)
    decreases |ops|
  {
    RunIncluded([], [], size, size, ops);
    if ops != [] {
      var before, op := ops[..|ops| - 1], ops[|ops| - 1];
      assert ops == before + [op];
      HasLastGiven(size, before, k);
      RunSnoc([], size, before, op);
      var es := Run([], size, before);
      match op
      case OpAdd(key, v) => AddLookup(es, size, key, v, k);
      case OpGet(key) => TouchLookup(es, key, k);
      case OpRemove(key) => WithoutLookup(es, key, k);
      case OpRemoveOldest => DropLastLookup(es, k);
      case OpPurge =>
    }
  }

  /** A cache of size n that is only added to and asked holds a key exactly if fewer than n different keys
      were used since the key was last used, and then with the value it was last given. */
  lemma RecencyLaw<K, V>(size: nat, ops: seq<Op<K, V>>, k: K)
    requires size > 0 && Plays(ops)
    ensures Lookup(Run([], size, ops), k) == if Recent(Uses(size, ops), k, size) then LastGiven(ops, k) else None
    ensures Recent(Uses(size, ops), k, size) ==> LastGiven(ops, k).Some?
  {
    RunRanked(size, ops);
    RankedIsRecent(Run([], size, ops), Uses(size, ops), size, k);
    HasLastGiven(size, ops, k);
    LookupKeys(Run([], size, ops), k);
  }

  lemma LookupKeys<K, V>(es: seq<Entry<K, V>>, k: K)
    ensures Lookup(es, k).Some? <==> k in Keys(es)
  {
    assert k in Keys(es) ==> exists e :: e in es && e.key == k by {
      if k in Keys(es) {
        var i: nat :| i < |es| && Keys(es)[i] == k;
        assert es[i] in es;
      }
    }
    LookupIn(es, k);
    if Lookup(es, k).Some? {
      var i: nat :| i < |es| && es[i] == Entry(k, Lookup(es, k).value);
      assert Keys(es)[i] == k;
    }
  }
}

/** The cache itself: a list of elements and a map from keys to them. */
module Lru {
  import opened Options
  import opened Sequences
  import opened LruSpec

  /** An element of the list, holding an entry. */
  class Element<K, V> {
    const key: K
    var value: V

    constructor (key: K, value: V)
      ensures this.key == key && this.value == value
    {
      this.key, this.value := key, value;
    }
  }

  /** The map and the list hold the same elements, each under its own key. */
  ghost predicate Bijection<K, V>(list: seq<Element<K, V>>, items: map<K, Element<K, V>>) {
    && (forall i: nat, j: nat | i < j < |list| :: list[i].key != list[j].key)
    && (forall i: nat | i < |list| :: list[i].key in items && items[list[i].key] == list[i])
    && (forall k | k in items :: items[k] in list && items[k].key == k)
  }

  lemma BijectionRemoved<K, V>(list: seq<Element<K, V>>, items: map<K, Element<K, V>>, i: nat)
    requires Bijection(list, items) && i < |list|
    ensures Bijection(list[..i] + list[i + 1..], items - {list[i].key})
  {
    var list', items' := list[..i] + list[i + 1..], items - {list[i].key};
    assert forall j: nat | j < |list'| :: list'[j] == if j < i then list[j] else list[j + 1];
    forall k | k in items' ensures items'[k] in list' {
      var j: nat :| j < |list| && list[j] == items[k];
      assert list'[if j < i then j else j - 1] == list[j];
    }
  }

  lemma BijectionPushed<K, V>(list: seq<Element<K, V>>, items: map<K, Element<K, V>>, e: Element<K, V>)
    requires Bijection(list, items) && e.key !in items
    ensures Bijection([e] + list, items[e.key := e])
  {
    var list', items' := [e] + list, items[e.key := e];
    forall i: nat | i < |list'|
      ensures list'[i].key in items' && items'[list'[i].key] == list'[i]
      ensures i > 0 ==> list'[i].key in items && list'[i].key != e.key
    {
      assert i > 0 ==> list'[i] == list[i - 1];
    }
    forall i: nat, j: nat | i < j < |list'|
      ensures list'[i].key != list'[j].key
    {
      assert list'[j] == list[j - 1] && (i > 0 ==> list'[i] == list[i - 1]);
    }
    assert forall k | k in items :: items[k] in list && list' == [e] + list;
  }

  lemma BijectionMoved<K, V>(list: seq<Element<K, V>>, items: map<K, Element<K, V>>, i: nat)
    requires Bijection(list, items) && i < |list|
    ensures Bijection([list[i]] + list[..i] + list[i + 1..], items)
    ensures forall x :: x in [list[i]] + list[..i] + list[i + 1..] <==> x in list
  {
    var e := list[i];
    var rest := list[..i] + list[i + 1..];
    BijectionRemoved(list, items, i);
    BijectionPushed(rest, items - {e.key}, e);
    assert [e] + rest == [e] + list[..i] + list[i + 1..];
    assert (items - {e.key})[e.key := e] == items;
    hide Bijection;
    SameElements(list, i);
  }

  lemma SameElements<T>(list: seq<T>, i: nat)
    requires i < |list|
    ensures forall x :: x in [list[i]] + list[..i] + list[i + 1..] <==> x in list
  {
    assert list == list[..i] + [list[i]] + list[i + 1..];
  }

  ghost function Entries<K, V>(list: seq<Element<K, V>>): (es: seq<Entry<K, V>>)
    reads list
    ensures |es| == |list|
  {
    seq(|list|, i requires 0 <= i < |list| reads list => Entry(list[i].key, list[i].value))
  }

  lemma EntriesRemoved<K, V>(list: seq<Element<K, V>>, items: map<K, Element<K, V>>, i: nat)
    requires Bijection(list, items) && i < |list|
    ensures Distinct(Entries(list)) && Entries(list)[i] == Entry(list[i].key, list[i].value)
    ensures Entries(list[..i] + list[i + 1..]) == Without(Entries(list), list[i].key)
  {
    WithoutAt(Entries(list), i);
    assert Entries(list[..i] + list[i + 1..]) == Entries(list)[..i] + Entries(list)[i + 1..];
  }

  lemma EntriesMoved<K, V>(list: seq<Element<K, V>>, items: map<K, Element<K, V>>, i: nat)
    requires Bijection(list, items) && i < |list|
    ensures Entries([list[i]] + list[..i] + list[i + 1..])
         == [Entry(list[i].key, list[i].value)] + Without(Entries(list), list[i].key)
  {
    EntriesRemoved(list, items, i);
    hide Bijection;
    assert Entries([list[i]] + list[..i] + list[i + 1..])
        == [Entry(list[i].key, list[i].value)] + Entries(list[..i] + list[i + 1..]);
  }

  lemma EntriesPushed<K, V>(list: seq<Element<K, V>>, e: Element<K, V>)
    ensures Entries([e] + list) == [Entry(e.key, e.value)] + Entries(list)
  {
  }

  class Cache<K(==), V> {
    const size: nat
    var evictList: seq<Element<K, V>>
    var items: map<K, Element<K, V>>

    ghost predicate Linked()
      reads this
    {
      Bijection(evictList, items)
    }

    ghost predicate Valid()
      reads this
    {
      Linked() && 0 < size && |evictList| <= size
    }

    /** The recency list that the cache holds. */
    ghost function Contents(): (es: seq<Entry<K, V>>)
      reads this, evictList
    {
      Entries(evictList)
    }

    lemma ContentsFacts(k: K)
      requires Linked()
      ensures Distinct(Contents()) && |Contents()| == |evictList|
      ensures k in items <==> Lookup(Contents(), k).Some?
      ensures k in items ==> Lookup(Contents(), k) == Some(items[k].value)
    {
      var es := Contents();
      if k in items {
        var i: nat :| i < |evictList| && evictList[i] == items[k];
        assert es[i] == Entry(k, items[k].value);
        LookupUnique(es, es[i]);
      } else {
        LookupIn(es, k);
      }
    }

    /** New: an error, here null, unless the size is positive. */
    static method New(size: int) returns (c: Cache?<K, V>)
      ensures c == null <==> size <= 0
      ensures c != null ==> fresh(c) && c.Valid() && c.size == size && c.Contents() == []
    {
      if size <= 0 {
        return null;
      }
      c := new Cache<K, V>.Make(size);
    }

    constructor Make(size: nat)
      requires size > 0
      ensures Valid() && this.size == size && evictList == [] && Contents() == []
    {
      this.size := size;
      evictList, items := [], map[];
    }

    method Purge()
      requires Valid()
      modifies this
      ensures Valid() && Contents() == []
    {
      evictList, items := [], map[];
    }

    /** Where an element stands in the list. */
    method Position(e: Element<K, V>) returns (i: nat)
      requires e in evictList
      ensures i < |evictList| && evictList[i] == e
    {
      i := 0;
      while evictList[i] != e
        invariant i < |evictList| && e in evictList[i..]
        decreases |evictList| - i
      {
        i := i + 1;
      }
    }

    /** The list's MoveToFront. */
    method MoveToFront(e: Element<K, V>)
      requires Valid() && e in evictList
      modifies this`evictList
      ensures Valid() && evictList != [] && evictList[0] == e
      ensures forall x :: x in evictList <==> x in old(evictList)
      ensures Contents() == [Entry(e.key, e.value)] + Without(old(Contents()), e.key)
    {
      hide Bijection, Entries, Without;
      var i := Position(e);
      EntriesMoved(evictList, items, i);
      BijectionMoved(evictList, items, i);
      evictList := [e] + evictList[..i] + evictList[i + 1..];
    }

    method Add(key: K, value: V)
      requires Valid()
      modifies this, evictList
      ensures Valid()
      ensures forall e | e in evictList :: e in old(evictList) || fresh(e)
      ensures Contents() == LruSpec.Add(old(Contents()), size, key, value)
    {
      ContentsFacts(key);
      ghost var before := Contents();
      hide Bijection, Entries, Without, Lookup;
      if key in items {
        var ent := items[key];
        InItems(key);
        MoveToFront(ent);
        SetFront(value);
        return;
      }
      LookupIn(before, key);
      WithoutAbsent(before, key);
      var ent := new Element(key, value);
      BijectionPushed(evictList, items, ent);
      EntriesPushed(evictList, ent);
      evictList := [ent] + evictList;
      items := items[key := ent];
      if |evictList| > size {
        RemoveOldestElement();
      }
    }

    lemma InItems(k: K)
      requires Linked() && k in items
      ensures items[k] in evictList && items[k].key == k
    {
    }

    /** Assign the value of the first element. */
    method SetFront(value: V)
      requires Linked() && evictList != []
      modifies evictList[0]
      ensures Contents() == [Entry(evictList[0].key, value)] + old(Contents())[1..]
    {
      evictList[0].value := value;
    }

    method Get(key: K) returns (value: Option<V>)
      requires Valid()
      modifies this`evictList
      ensures Valid()
      ensures value == Lookup(old(Contents()), key)
      ensures Contents() == Touch(old(Contents()), key)
      ensures forall x :: x in evictList <==> x in old(evictList)
    {
      ContentsFacts(key);
      if key in items {
        var ent := items[key];
        MoveToFront(ent);
        return Some(ent.value);
      }
      return None;
    }

    /** removeElement: out of the list and out of the map. */
    method RemoveElement(e: Element<K, V>)
      requires Linked() && e in evictList
      modifies this
      ensures Linked() && |evictList| == old(|evictList|) - 1
      ensures forall x | x in evictList :: x in old(evictList)
      ensures Contents() == Without(old(Contents()), e.key)
    {
      hide Bijection, Entries, Without;
      var i := Position(e);
      EntriesRemoved(evictList, items, i);
      BijectionRemoved(evictList, items, i);
      evictList := evictList[..i] + evictList[i + 1..];
      items := items - {e.key};
    }

    method RemoveOldestElement()
      requires Linked()
      modifies this
      ensures Linked() && |evictList| == (if old(|evictList|) == 0 then 0 else old(|evictList|) - 1)
      ensures forall x | x in evictList :: x in old(evictList)
      ensures Contents() == DropLast(old(Contents()))
    {
      if |evictList| > 0 {
        var ent := evictList[|evictList| - 1];
        EntriesRemoved(evictList, items, |evictList| - 1);
        WithoutAt(Contents(), |evictList| - 1);
        hide Bijection, Entries, Without;
        assert Contents()[|evictList|..] == [];
        RemoveElement(ent);
      }
    }

    method Remove(key: K)
      requires Valid()
      modifies this
      ensures Valid()
      ensures forall x | x in evictList :: x in old(evictList)
      ensures Contents() == Without(old(Contents()), key)
    {
      ContentsFacts(key);
      if key in items {
        RemoveElement(items[key]);
      } else {
        LookupIn(Contents(), key);
        WithoutAbsent(Contents(), key);
      }
    }

    method RemoveOldest()
      requires Valid()
      modifies this
      ensures Valid()
      ensures forall x | x in evictList :: x in old(evictList)
      ensures Contents() == DropLast(old(Contents()))
    {
      RemoveOldestElement();
    }
  }
}
