/**
 The write-cached blockstore against the plain one.  `ds` turns a block key into a datastore key.
 */
module WriteCacheSpec {
  import opened Options
  import opened LruSpec

  datatype Block<K, B> = Block(key: K, data: B)

  datatype Op<K, B> = Put(b: Block<K, B>) | HasBlock(k: K) | GetBlock(k: K) | DeleteBlock(k: K)

  function KeyOf<K, B>(op: Op<K, B>): K {
    match op
    case Put(b) => b.key
    case HasBlock(k) => k
    case GetBlock(k) => k
    case DeleteBlock(k) => k
  }

  /** Done(false) is the datastore's not-found error. */
  datatype Reply<B> = Done(ok: bool) | Present(b: bool) | Found(data: Option<B>)

  /** The plain blockstore over a datastore that reports no write errors. */
  function Plain<K, D(==), B>(store: map<D, B>, op: Op<K, B>, ds: K -> D): (map<D, B>, Reply<B>) {
    match op
    case Put(b) =>
      if ds(b.key) in store then (store, Done(true)) else (store[ds(b.key) := b.data], Done(true))
    case HasBlock(k) => (store, Present(ds(k) in store))
    case GetBlock(k) => (store, Found(if ds(k) in store then Some(store[ds(k)]) else None))
    case DeleteBlock(k) => (store - {ds(k)}, Done(ds(k) in store))
  }

  datatype Cached<K, D, B> = Cached(keys: seq<Entry<K, ()>>, store: map<D, B>)

  /** The write cache over it. */
  function Step<K(==), D(==), B>(c: Cached<K, D, B>, size: nat, op: Op<K, B>, ds: K -> D)
    : (Cached<K, D, B>, Reply<B>)
  {
    match op
    case Put(b) =>
      if Lookup(c.keys, b.key).Some? then (Cached(Touch(c.keys, b.key), c.store), Done(true))
      else var (store, r) := Plain(c.store, op, ds); (Cached(Add(c.keys, size, b.key, ()), store), r)
    case HasBlock(k) =>
      if Lookup(c.keys, k).Some? then (Cached(Touch(c.keys, k), c.store), Present(true))
      else var (store, r) := Plain(c.store, op, ds); (Cached(c.keys, store), r)
    case GetBlock(_) =>
      var (store, r) := Plain(c.store, op, ds); (Cached(c.keys, store), r)
    case DeleteBlock(k) =>
      var (store, r) := Plain(c.store, op, ds); (Cached(Without(c.keys, k), store), r)
  }

  function RunPlain<K, D(==), B>(store: map<D, B>, ops: seq<Op<K, B>>, ds: K -> D): (map<D, B>, seq<Reply<B>>)
    decreases |ops|
  {
    if ops == [] then (store, [])
    else
      var (store1, r) := Plain(store, ops[0], ds);
      var (store2, rs) := RunPlain(store1, ops[1..], ds);
      (store2, [r] + rs)
  }

  function RunCached<K(==), D(==), B>(c: Cached<K, D, B>, size: nat, ops: seq<Op<K, B>>, ds: K -> D)
    : (map<D, B>, seq<Reply<B>>)
    decreases |ops|
  {
    if ops == [] then (c.store, [])
    else
      var (c1, r) := Step(c, size, ops[0], ds);
      var (store2, rs) := RunCached(c1, size, ops[1..], ds);
      (store2, [r] + rs)
  }

  // ----- what the plain blockstore promises, in replies alone -----

  function Got<K, D(==), B>(store: map<D, B>, k: K, ds: K -> D): Reply<B> { Plain(store, GetBlock(k), ds).1 }

  /** Has says whether Get finds the block, Put always succeeds, and DeleteBlock fails if there is none. */
  lemma RepliesAgree<K, D, B>(store: map<D, B>, op: Op<K, B>, ds: K -> D)
    ensures var r, got := Plain(store, op, ds).1, Got(store, KeyOf(op), ds);
            && got.Found?
            && match op
               case Put(_) => r == Done(true)
               case HasBlock(_) => r == Present(got.data.Some?)
               case GetBlock(_) => r == got
               case DeleteBlock(_) => r == Done(got.data.Some?)
  {
  }

  /** After Put of an absent block Get gives its data, after DeleteBlock nothing; a block that is there is not
      overwritten, and no other operation and no operation on another datastore key changes what Get gives. */
  lemma GotAfter<K, D, B>(store: map<D, B>, op: Op<K, B>, ds: K -> D, k: K)
    ensures Got(Plain(store, op, ds).0, k, ds) ==
      if ds(KeyOf(op)) != ds(k) then Got(store, k, ds)
      else match op
           case Put(b) => if Got(store, k, ds) == Found(None) then Found(Some(b.data)) else Got(store, k, ds)
           case DeleteBlock(_) => Found(None)
           case _ => Got(store, k, ds)
  {
  }

  /** The run deletes nothing under datastore key `d`. */
  ghost predicate Spares<K, D, B>(ops: seq<Op<K, B>>, ds: K -> D, d: D) {
    forall i: nat | i < |ops| && ops[i].DeleteBlock? :: ds(ops[i].k) != d
  }

  lemma {:induction false} StaysStored<K, D, B>(store: map<D, B>, ops: seq<Op<K, B>>, ds: K -> D, k: K)
    requires Spares(ops, ds, ds(k)) && Got(store, k, ds) != Found(None)
    ensures Got(RunPlain(store, ops, ds).0, k, ds) == Got(store, k, ds)
    decreases |ops|
  {
    hide Plain;
    if ops != [] {
      GotAfter(store, ops[0], ds, k);
      assert forall i: nat | i < |ops[1..]| :: ops[1..][i] == ops[i + 1];
      if ops[0].DeleteBlock? {
        assert ds(ops[0].k) != ds(k);
      }
      StaysStored(Plain(store, ops[0], ds).0, ops[1..], ds, k);
    }
  }

  lemma {:induction false} RunPlainJoins<K, D, B>(store: map<D, B>, a: seq<Op<K, B>>, b: seq<Op<K, B>>, ds: K -> D)
    ensures RunPlain(store, a + b, ds).0 == RunPlain(RunPlain(store, a, ds).0, b, ds).0
    ensures RunPlain(store, a + b, ds).1
         == RunPlain(store, a, ds).1 + RunPlain(RunPlain(store, a, ds).0, b, ds).1
    decreases |a|
  {
    hide Plain;
    if a == [] {
      assert a + b == b;
    } else {
      assert (a + b)[0] == a[0] && (a + b)[1..] == a[1..] + b;
      RunPlainJoins(Plain(store, a[0], ds).0, a[1..], b, ds);
    }
  }

  // ----- cached keys are stored keys -----

  /** The cached keys are among `ks` and stored. */
  ghost predicate Backed<K, D, B>(c: Cached<K, D, B>, ds: K -> D, ks: iset<K>) {
    Distinct(c.keys) && forall e | e in c.keys :: e.key in ks && ds(e.key) in c.store
  }

  /** No two of the block keys share a datastore key. */
  ghost predicate Apart<K(!new), D>(ds: K -> D, ks: iset<K>) {
    forall k, k' | k in ks && k' in ks :: ds(k) == ds(k') ==> k == k'
  }

  /** The run works on keys of `ks` only. */
  ghost predicate Within<K, B>(ops: seq<Op<K, B>>, ks: iset<K>) {
    forall i: nat | i < |ops| :: KeyOf(ops[i]) in ks
  }

  ghost predicate Uses<K, B>(ops: seq<Op<K, B>>, k: K) {
    exists i: nat :: i < |ops| && KeyOf(ops[i]) == k
  }

  /** The keys that a run works on. */
  ghost function KeysOf<K(!new), B>(ops: seq<Op<K, B>>): iset<K> {
    iset k | Uses(ops, k)
  }

  lemma AddIn<K, V>(es: seq<Entry<K, V>>, size: nat, k: K, v: V, e: Entry<K, V>)
    requires Distinct(es)
    ensures Distinct(Add(es, size, k, v))
    ensures e in Add(es, size, k, v) ==> e in es || e.key == k
  {
    var pushed := [Entry(k, v)] + Without(es, k);
    PushDistinct(es, k, v);
    WithoutIn(es, k, e);
    assert e in Add(es, size, k, v) ==> e in pushed;
    assert e in pushed ==> e.key == k || e in Without(es, k);
  }

  lemma TouchIn<K, V>(es: seq<Entry<K, V>>, k: K, e: Entry<K, V>)
    requires Distinct(es)
    ensures Distinct(Touch(es, k))
    ensures e in Touch(es, k) ==> e in es
  {
    LookupIn(es, k);
    if Lookup(es, k).Some? {
      var v := Lookup(es, k).value;
      PushDistinct(es, k, v);
      WithoutIn(es, k, e);
      assert e in [Entry(k, v)] + Without(es, k) ==> e == Entry(k, v) || e in Without(es, k);
    }
  }

  lemma StepBacked<K(!new), D, B>(c: Cached<K, D, B>, size: nat, op: Op<K, B>, ds: K -> D, ks: iset<K>)
    requires Apart(ds, ks) && Backed(c, ds, ks) && KeyOf(op) in ks
    ensures var (c', r) := Step(c, size, op, ds); Backed(c', ds, ks) && (c'.store, r) == Plain(c.store, op, ds)
  {
    var (c', _) := Step(c, size, op, ds);
    match op
    case Put(b) =>
      LookupIn(c.keys, b.key);
      forall e ensures (e in c'.keys ==> e in c.keys || e.key == b.key) && Distinct(c'.keys) {
        AddIn(c.keys, size, b.key, (), e);
        TouchIn(c.keys, b.key, e);
      }
    case HasBlock(k) =>
      LookupIn(c.keys, k);
      forall e ensures (e in c'.keys ==> e in c.keys) && Distinct(c'.keys) {
        TouchIn(c.keys, k, e);
      }
    case GetBlock(_) =>
    case DeleteBlock(k) =>
      WithoutDistinct(c.keys, k);
      forall e | e in c'.keys ensures e.key in ks && ds(e.key) in c'.store {
        WithoutIn(c.keys, k, e);
      }
  }

  lemma {:induction false} RunSame<K(!new), D, B>(c: Cached<K, D, B>, size: nat, ops: seq<Op<K, B>>, ds: K -> D,
                                                  ks: iset<K>)
    requires Apart(ds, ks) && Backed(c, ds, ks) && Within(ops, ks)
    ensures RunCached(c, size, ops, ds) == RunPlain(c.store, ops, ds)
    decreases |ops|
  {
    if ops != [] {
      assert KeyOf(ops[0]) in ks;
      StepBacked(c, size, ops[0], ds, ks);
      var (c1, _) := Step(c, size, ops[0], ds);
      assert forall i: nat | i < |ops[1..]| :: ops[1..][i] == ops[i + 1];
      RunSame(c1, size, ops[1..], ds, ks);
    }
  }

  /** A run whose own keys do not share datastore keys replies and stores the same without the cache,
      whatever other keys there are. */
  lemma RunApart<K(!new), D, B>(store: map<D, B>, size: nat, ops: seq<Op<K, B>>, ds: K -> D)
    requires Apart(ds, KeysOf(ops))
    ensures RunCached(Cached([], store), size, ops, ds) == RunPlain(store, ops, ds)
  {
    hide RunCached, RunPlain;
    RunSame(Cached([], store), size, ops, ds, KeysOf(ops));
  }

  /** Through the cache too: a block that was put and not deleted since is got, with the data of the Put if
      there was none before. */
  lemma PutIsGot<K(!new), D, B>(store: map<D, B>, size: nat, before: seq<Op<K, B>>, b: Block<K, B>,
                                after: seq<Op<K, B>>, ds: K -> D)
    requires var ops := before + [Put(b)] + after + [GetBlock(b.key)]; Apart(ds, KeysOf(ops))
    requires Spares(after, ds, ds(b.key))
    ensures var replies := RunCached(Cached([], store), size, before + [Put(b)] + after + [GetBlock(b.key)], ds).1;
            var old_ := Got(RunPlain(store, before, ds).0, b.key, ds);
            && replies != []
            && replies[|replies| - 1] == if old_ == Found(None) then Found(Some(b.data)) else old_
  {
    var ops := before + [Put(b)] + after + [GetBlock(b.key)];
    RunApart(store, size, ops, ds);
    var s0 := RunPlain(store, before, ds).0;
    var s1 := Plain(s0, Put(b), ds).0;
    var s2 := RunPlain(s1, after, ds).0;
    RunPlainJoins(store, before, [Put(b)], ds);
    RunPlainJoins(store, before + [Put(b)], after, ds);
    RunPlainJoins(store, before + [Put(b)] + after, [GetBlock(b.key)], ds);
    assert [Put(b)][1..] == [] && RunPlain(s0, [Put(b)], ds).0 == s1;
    var get: seq<Op<K, B>> := [GetBlock(b.key)];
    assert get[1..] == [] && RunPlain(s2, get, ds).1 == [Got(s2, b.key, ds)];
    GotAfter(s0, Put(b), ds, b.key);
    RepliesAgree(s0, GetBlock(b.key), ds);
    hide Plain, RunPlain, RunCached;
    StaysStored(s1, after, ds, b.key);
  }

  /** Every run over `ks` gives the same replies and the same stored contents with and without the cache. */
  ghost predicate Transparent<K(!new), D(!new), B(!new)>(size: nat, ds: K -> D, ks: iset<K>) {
    forall store: map<D, B>, ops: seq<Op<K, B>> | Within(ops, ks) ::
      RunCached(Cached([], store), size, ops, ds) == RunPlain(store, ops, ds)
  }

  /** The cache cannot be noticed by runs over given block keys exactly when no two of them share a datastore
      key: otherwise deleting through one of them leaves the other one cached. */
  lemma TransparentIffApart<K(!new), D(!new), B(!new)>(size: nat, ds: K -> D, ks: iset<K>, data: B)
    requires size > 0
    ensures Transparent<K, D, B>(size, ds, ks) <==> Apart(ds, ks)
  {
    if Apart(ds, ks) {
      forall store: map<D, B>, ops: seq<Op<K, B>> | Within(ops, ks)
        ensures RunCached(Cached([], store), size, ops, ds) == RunPlain(store, ops, ds)
      {
        RunSame(Cached([], store), size, ops, ds, ks);
      }
    } else {
      var k, k' :| k in ks && k' in ks && ds(k) == ds(k') && k != k';
      Noticed(size, ds, ks, k, k', data);
    }
  }

  lemma Noticed<K(!new), D(!new), B(!new)>(size: nat, ds: K -> D, ks: iset<K>, k: K, k': K, data: B)
    requires size > 0 && k in ks && k' in ks && ds(k) == ds(k') && k != k'
    ensures !Transparent<K, D, B>(size, ds, ks)
  {
    var put, delete, has := Put(Block(k, data)), DeleteBlock(k'), HasBlock(k);
    var ops := [put, delete, has];
    assert Within(ops, ks);
    assert ops[1..] == [delete, has] && [delete, has][1..] == [has] && [has][1..] == [];
    var e := Entry(k, ());
    var c0: Cached<K, D, B> := Cached([], map[]);
    var c1 := Step(c0, size, put, ds).0;
    assert c1.keys == [e];
    var c2 := Step(c1, size, delete, ds).0;
    WithoutAbsent([e], k');
    assert c2.keys == [e];
    assert c2.store == map[];
    assert RunCached(c2, size, [has], ds).1 == [Present(true)];
    assert RunCached(c1, size, [delete, has], ds).1 == [Done(true)] + [Present(true)];
    var cached := RunCached(c0, size, ops, ds);
    var plain := RunPlain(map[], ops, ds);
    assert cached.1 == [Done(true)] + ([Done(true)] + [Present(true)]);
    var p1 := Plain(map[], put, ds).0;
    var p2 := Plain(p1, delete, ds).0;
    assert RunPlain(p2, [has], ds).1 == [Present(false)];
    assert RunPlain(p1, [delete, has], ds).1 == [Done(true)] + [Present(false)];
    assert plain.1 == [Done(true)] + ([Done(true)] + [Present(false)]);
    assert cached.1[2] != plain.1[2];
  }

  /** Worse, a block put again after that is acknowledged and not stored. */
  lemma LostWrite<K, D, B>(size: nat, ds: K -> D, k: K, k': K, data: B)
    requires size > 0 && ds(k) == ds(k') && k != k'
    ensures var ops := [Put(Block(k, data)), DeleteBlock(k'), Put(Block(k, data))];
            && RunCached(Cached([], map[]), size, ops, ds) == (map[], [Done(true), Done(true), Done(true)])
            && RunPlain(map[], ops, ds) == (map[ds(k) := data], [Done(true), Done(true), Done(true)])
  {
    var put: Op<K, B>, delete: Op<K, B> := Put(Block(k, data)), DeleteBlock(k');
    var ops := [put, delete, put];
    assert ops[1..] == [delete, put] && [delete, put][1..] == [put] && [put][1..] == [];
    var e := Entry(k, ());
    var empty: map<D, B> := map[];
    var c := Cached([e], empty);
    WithoutAbsent([e], k');
    assert Step(Cached([], empty), size, put, ds) == (Cached([e], map[ds(k) := data]), Done(true));
    assert map[ds(k) := data] - {ds(k')} == empty;
    assert Step(Cached([e], map[ds(k) := data]), size, delete, ds) == (c, Done(true));
    assert Step(c, size, put, ds).0.store == empty && Step(c, size, put, ds).1 == Done(true);
    var ok: Reply<B> := Done(true);
    assert [ok] + [] == [ok] && [ok] + [ok] == [ok, ok] && [ok] + [ok, ok] == [ok, ok, ok];
    assert RunCached(c, size, [put], ds) == (empty, [ok]);
    assert RunCached(Cached([e], map[ds(k) := data]), size, [delete, put], ds) == (empty, [ok, ok]);
    assert RunPlain(empty, [put], ds) == (map[ds(k) := data], [ok]);
    assert RunPlain(map[ds(k) := data], [delete, put], ds) == (map[ds(k) := data], [ok, ok]);
  }
}

/** The two blockstores as they are: objects over a shared datastore. */
module Blockstores {
  import opened Options
  import opened LruSpec
  import opened Lru
  import opened WriteCacheSpec

  /** The plain blockstore. */
  class Blockstore<K, D(==), B> {
    var datastore: map<D, B>
    const ds: K -> D

    constructor (ds: K -> D)
      ensures this.ds == ds && datastore == map[]
    {
      this.ds, datastore := ds, map[];
    }

    method Put(b: Block<K, B>) returns (r: Reply<B>)
      modifies this
      ensures (datastore, r) == Plain(old(datastore), WriteCacheSpec.Put(b), ds)
    {
      var k := ds(b.key);
      var exists_ := k in datastore;
      if exists_ {
        return Done(true);
      }
      datastore := datastore[k := b.data];
      return Done(true);
    }

    method Has(k: K) returns (r: Reply<B>)
      ensures (datastore, r) == Plain(datastore, HasBlock(k), ds)
    {
      return Present(ds(k) in datastore);
    }

    method Get(k: K) returns (r: Reply<B>)
      ensures (datastore, r) == Plain(datastore, GetBlock(k), ds)
    {
      return Found(if ds(k) in datastore then Some(datastore[ds(k)]) else None);
    }

    method Delete(k: K) returns (r: Reply<B>)
      modifies this
      ensures (datastore, r) == Plain(old(datastore), DeleteBlock(k), ds)
    {
      r := Done(ds(k) in datastore);
      datastore := datastore - {ds(k)};
    }
  }

  method PerformPlain<K, D(==), B>(bs: Blockstore<K, D, B>, op: WriteCacheSpec.Op<K, B>) returns (r: Reply<B>)
    modifies bs
    ensures (bs.datastore, r) == Plain(old(bs.datastore), op, bs.ds)
  {
    match op
    case Put(b) => r := bs.Put(b);
    case HasBlock(k) => r := bs.Has(k);
    case GetBlock(k) => r := bs.Get(k);
    case DeleteBlock(k) => r := bs.Delete(k);
  }

  class WriteCache<K(==), D(==), B> {
    const cache: Cache<K, ()>
    const blockstore: Blockstore<K, D, B>

    ghost predicate Valid()
      reads this, cache
    {
      cache.Valid()
    }

    /** What the cache and the store hold together. */
    ghost function State(): Cached<K, D, B>
      reads this, cache, cache.evictList, blockstore
    {
      Cached(cache.Contents(), blockstore.datastore)
    }

    /** WriteCached, of a positive size; lru.New reports the error for the others. */
    constructor (bs: Blockstore<K, D, B>, size: nat)
      requires size > 0
      ensures Valid() && fresh(cache) && blockstore == bs && cache.size == size
      ensures cache.evictList == [] && State() == Cached([], bs.datastore)
    {
      blockstore := bs;
      cache := new Cache<K, ()>.Make(size);
    }

    method DeleteBlock(k: K) returns (r: Reply<B>)
      requires Valid()
      modifies cache, blockstore
      ensures Valid() && (State(), r) == Step(old(State()), cache.size, WriteCacheSpec.DeleteBlock(k), blockstore.ds)
      ensures forall e | e in cache.evictList :: e in old(cache.evictList) || fresh(e)
    {
      cache.Remove(k);
      r := blockstore.Delete(k);
    }

    method Has(k: K) returns (r: Reply<B>)
      requires Valid()
      modifies cache
      ensures Valid() && (State(), r) == Step(old(State()), cache.size, HasBlock(k), blockstore.ds)
      ensures forall e | e in cache.evictList :: e in old(cache.evictList) || fresh(e)
    {
      var hit := cache.Get(k);
      if hit.Some? {
        return Present(true);
      }
      r := blockstore.Has(k);
    }

    method Get(k: K) returns (r: Reply<B>)
      requires Valid()
      ensures (State(), r) == Step(State(), cache.size, GetBlock(k), blockstore.ds)
    {
      r := blockstore.Get(k);
    }

    method Put(b: Block<K, B>) returns (r: Reply<B>)
      requires Valid()
      modifies cache, cache.evictList, blockstore
      ensures Valid() && (State(), r) == Step(old(State()), cache.size, WriteCacheSpec.Put(b), blockstore.ds)
      ensures forall e | e in cache.evictList :: e in old(cache.evictList) || fresh(e)
    {
      var hit := cache.Get(b.key);
      if hit.Some? {
        return Done(true);
      }
      cache.Add(b.key, ());
      r := blockstore.Put(b);
    }
  }

  method PerformCached<K(==), D(==), B>(w: WriteCache<K, D, B>, op: WriteCacheSpec.Op<K, B>) returns (r: Reply<B>)
    requires w.Valid()
    modifies w.cache, w.cache.evictList, w.blockstore
    ensures w.Valid() && (w.State(), r) == Step(old(w.State()), w.cache.size, op, w.blockstore.ds)
    ensures forall e | e in w.cache.evictList :: e in old(w.cache.evictList) || fresh(e)
  {
    hide Step;
    match op
    case Put(b) => r := w.Put(b);
    case HasBlock(k) => r := w.Has(k);
    case GetBlock(k) => r := w.Get(k);
    case DeleteBlock(k) => r := w.DeleteBlock(k);
  }

  /** The cached and the plain blockstore, side by side on the same calls: when no two keys of these calls share
      a datastore key, they reply the same and end up with the same blocks. */
  method RunBoth<K(!new, ==), D(==), B>(ds: K -> D, size: nat, ops: seq<WriteCacheSpec.Op<K, B>>)
    returns (cached: WriteCache<K, D, B>, plain: Blockstore<K, D, B>, replies: seq<Reply<B>>, others: seq<Reply<B>>)
    requires size > 0
    ensures |replies| == |others| == |ops|
    ensures Apart(ds, WriteCacheSpec.KeysOf(ops)) ==>
              replies == others && cached.blockstore.datastore == plain.datastore
  {
    hide Step, Plain, Apart, Backed, WriteCacheSpec.KeysOf;
    ghost var ks := WriteCacheSpec.KeysOf(ops);
    var store := new Blockstore<K, D, B>(ds);
    plain := new Blockstore<K, D, B>(ds);
    cached := new WriteCache<K, D, B>(store, size);
    replies, others := [], [];
    NothingBacked(cached.State(), ds, ks);
    for i := 0 to |ops|
      invariant fresh(cached.cache) && fresh(store) && fresh(plain)
      invariant forall e | e in cached.cache.evictList :: fresh(e)
      invariant cached.Valid() && cached.blockstore == store && store != plain && store.ds == plain.ds == ds
      invariant |replies| == |others| == i
      invariant Apart(ds, ks) ==>
                  Backed(cached.State(), ds, ks) && replies == others && store.datastore == plain.datastore
    {
      ghost var c := cached.State();
      var r := PerformCached(cached, ops[i]);
      var o := PerformPlain(plain, ops[i]);
      replies, others := replies + [r], others + [o];
      if Apart(ds, ks) {
        assert KeyOf(ops[i]) in ks by { KeyIn(ops, i); }
        StepBacked(c, cached.cache.size, ops[i], ds, ks);
      }
    }
  }

  lemma NothingBacked<K, D, B>(c: Cached<K, D, B>, ds: K -> D, ks: iset<K>)
    requires c.keys == []
    ensures Backed(c, ds, ks)
  {
  }

  lemma KeyIn<K(!new), B>(ops: seq<WriteCacheSpec.Op<K, B>>, i: nat)
    requires i < |ops|
    ensures KeyOf(ops[i]) in WriteCacheSpec.KeysOf(ops)
  {
  }
}
