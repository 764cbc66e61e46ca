/**
 * The coalescing datastore (coalesce.go): simultaneous requests with the same operation, key and
 * value share one call to the child datastore. Requests run as threads; a step is a critical section,
 * a channel operation, the return of a child call, or a return to the caller.
 */
module Coalesce {

  datatype Op = Put | Get | Has | Delete

  datatype Value = Nil | Object(id: nat) | Bool(b: bool)

  datatype Error = NoError | Failed(code: nat)

  /** keySync; `value` is Nil except for Put. */
  datatype KeySync = KeySync(op: Op, key: string, value: Value)

  /** valSync, with `done` as "the channel is closed". `ks` and `leader` say which request it was made
      for and which thread made it: no step reads them. */
  datatype ValSync = ValSync(val: Value, err: Error, done: bool, ks: KeySync, leader: nat)

  datatype Phase =
    | Entered                        // about to call sync
    | Waiting(vs: nat)               // found a request under way, receiving from its done channel
    | Calling(vs: nat)               // inside the child's method
    | Written(vs: nat)               // the result is stored, about to lock in syncDone
    | Releasing(vs: nat, found: nat) // removed `found` from the map, about to close its channel
    | Leaving(vs: nat)               // about to read the result and return
    | Done(vs: nat, val: Value, err: Error)
    | Panicked

  datatype Thread = Thread(ks: KeySync, phase: Phase)

  datatype State = State(req: map<KeySync, nat>, vals: seq<ValSync>, threads: seq<Thread>)

  datatype Action =
    | Invoke(ks: KeySync)
    | Sync(t: nat)
    | ChildReturns(t: nat, val: Value, err: Error)
    | SyncDone(t: nat)
    | Close(t: nat)
    | Wake(t: nat)
    | Return(t: nat)

  const INIT := State(map[], [], [])

  /** What the child's method of the operation may answer: Has gives a boolean, Put and Delete only an error. */
  predicate Answer(op: Op, val: Value) {
    match op
    case Get => true
    case Has => val.Bool?
    case Put => val.Nil?
    case Delete => val.Nil?
  }

  predicate Enabled(s: State, a: Action) {
    match a
    case Invoke(ks) => true
    case Sync(t) => t < |s.threads| && s.threads[t].phase.Entered?
    case ChildReturns(t, val, err) => t < |s.threads| && s.threads[t].phase.Calling? && Answer(s.threads[t].ks.op, val)
    case SyncDone(t) => t < |s.threads| && s.threads[t].phase.Written?
    case Close(t) => t < |s.threads| && s.threads[t].phase.Releasing?
    case Wake(t) =>
      && t < |s.threads| && s.threads[t].phase.Waiting?
      && var vs := s.threads[t].phase.vs;
      vs < |s.vals| && s.vals[vs].done
    case Return(t) => t < |s.threads| && s.threads[t].phase.Leaving?
  }

  function Moved(s: State, t: nat, p: Phase): State
    requires t < |s.threads|
  {
    s.(threads := s.threads[t := s.threads[t].(phase := p)])
  }

  /** What the caller gets: Put returns its own result variable, which is never assigned; Has asserts that
      the value is a boolean. */
  function Reply(op: Op, vs: nat, v: ValSync): Phase {
    match op
    case Put => Done(vs, Nil, NoError)
    case Get => Done(vs, v.val, v.err)
    case Has => if v.val.Bool? then Done(vs, v.val, v.err) else Panicked
    case Delete => Done(vs, Nil, v.err)
  }

  function Next(s: State, a: Action): State
    requires Enabled(s, a)
  {
    match a
    case Invoke(ks) => s.(threads := s.threads + [Thread(ks, Entered)])
    case Sync(t) =>
      var ks := s.threads[t].ks;
      if ks in s.req then Moved(s, t, Waiting(s.req[ks]))
      else
        var vs := |s.vals|;
        Moved(s.(req := s.req[ks := vs], vals := s.vals + [ValSync(Nil, NoError, false, ks, t)]), t, Calling(vs))
    case ChildReturns(t, val, err) =>
      var vs := s.threads[t].phase.vs;
      if vs < |s.vals| then Moved(s.(vals := s.vals[vs := s.vals[vs].(val := val, err := err)]), t, Written(vs))
      else Moved(s, t, Panicked)
    case SyncDone(t) =>
      var ks := s.threads[t].ks;
      if ks !in s.req then Moved(s, t, Panicked)
      else Moved(s.(req := s.req - {ks}), t, Releasing(s.threads[t].phase.vs, s.req[ks]))
    case Close(t) =>
      var found := s.threads[t].phase.found;
      if found < |s.vals| && !s.vals[found].done then
        Moved(s.(vals := s.vals[found := s.vals[found].(done := true)]), t, Leaving(s.threads[t].phase.vs))
      else Moved(s, t, Panicked)
    case Wake(t) => Moved(s, t, Leaving(s.threads[t].phase.vs))
    case Return(t) =>
      var vs := s.threads[t].phase.vs;
      if vs < |s.vals| then Moved(s, t, Reply(s.threads[t].ks.op, vs, s.vals[vs])) else Moved(s, t, Panicked)
  }

  // ----- the invariant -----

  predicate Assigned(p: Phase) {
    !p.Entered? && !p.Panicked?
  }

  predicate ThreadOk(s: State, t: nat)
    requires t < |s.threads|
  {
    var p, ks := s.threads[t].phase, s.threads[t].ks;
    && !p.Panicked?
    && (Assigned(p) ==> p.vs < |s.vals| && s.vals[p.vs].ks == ks)
    && (p.Calling? || p.Written? || p.Releasing? ==> s.vals[p.vs].leader == t)
    && (p.Calling? || p.Written? ==> ks in s.req && s.req[ks] == p.vs)
    && (p.Releasing? ==> p.found == p.vs)
    && (p.Leaving? || p.Done? ==> s.vals[p.vs].done)
    && (p.Done? ==> p == Reply(ks.op, p.vs, s.vals[p.vs]))
  }

  /** The leader of an entry is a thread of its own; it has closed the channel exactly if it is through
      with the entry, and the stored result is an answer unless it is still in the child's method. */
  predicate ValOk(s: State, v: nat)
    requires v < |s.vals|
  {
    var e := s.vals[v];
    && e.leader < |s.threads|
    && var p := s.threads[e.leader].phase;
    && Assigned(p) && p.vs == v && !p.Waiting?
    && (e.done <==> p.Leaving? || p.Done?)
    && (p.Calling? || Answer(e.ks.op, e.val))
  }

  /** The map holds just the requests whose leader is before its syncDone. */
  predicate ReqOk(s: State, ks: KeySync)
    requires ks in s.req
  {
    var v := s.req[ks];
    && v < |s.vals| && s.vals[v].ks == ks && s.vals[v].leader < |s.threads|
    && var p := s.threads[s.vals[v].leader].phase;
    p.Calling? || p.Written?
  }

  ghost predicate Inv(s: State) {
    && (forall t: nat | t < |s.threads| :: ThreadOk(s, t))
    && (forall v: nat | v < |s.vals| :: ValOk(s, v))
    && (forall ks | ks in s.req :: ReqOk(s, ks))
  }

  lemma NextKeeps(s: State, a: Action)
    requires Inv(s) && Enabled(s, a)
    ensures Inv(Next(s, a))
  {
    var n := Next(s, a);
    if !a.Invoke? {
      assert ThreadOk(s, a.t);
    }
    forall t: nat | t < |n.threads|
      ensures ThreadOk(n, t)
    {
      KeepsThread(s, a, t);
    }
    forall v: nat | v < |n.vals|
      ensures ValOk(n, v)
    {
      KeepsVal(s, a, v);
    }
    forall ks | ks in n.req
      ensures ReqOk(n, ks)
    {
      KeepsReq(s, a, ks);
    }
  }

  lemma KeepsThread(s: State, a: Action, t: nat)
    requires Inv(s) && Enabled(s, a) && t < |Next(s, a).threads|
    ensures ThreadOk(Next(s, a), t)
  {
    if !a.Invoke? && t == a.t {
      KeepsMover(s, a);
    } else {
      KeepsOther(s, a, t);
    }
  }

  lemma KeepsMover(s: State, a: Action)
    requires Inv(s) && Enabled(s, a) && !a.Invoke?
    ensures a.t < |s.threads| && ThreadOk(Next(s, a), a.t)
  {
    assert ThreadOk(s, a.t);
    assert Assigned(s.threads[a.t].phase) ==> ValOk(s, s.threads[a.t].phase.vs);
    assert s.threads[a.t].ks in s.req ==> ReqOk(s, s.threads[a.t].ks);
  }

  lemma KeepsOther(s: State, a: Action, t: nat)
    requires Inv(s) && Enabled(s, a) && t < |Next(s, a).threads| && (!a.Invoke? ==> t != a.t)
    ensures ThreadOk(Next(s, a), t)
  {
    assert !a.Invoke? ==> ThreadOk(s, a.t);
    assert t < |s.threads| ==> ThreadOk(s, t);
    assert t < |s.threads| && Assigned(s.threads[t].phase) ==> ValOk(s, s.threads[t].phase.vs);
  }

  lemma KeepsVal(s: State, a: Action, v: nat)
    requires Inv(s) && Enabled(s, a) && v < |Next(s, a).vals|
    ensures ValOk(Next(s, a), v)
  {
    assert !a.Invoke? ==> ThreadOk(s, a.t);
    assert v < |s.vals| ==> ValOk(s, v);
    assert !a.Invoke? && Assigned(s.threads[a.t].phase) ==> ValOk(s, s.threads[a.t].phase.vs);
  }

  lemma KeepsReq(s: State, a: Action, ks: KeySync)
    requires Inv(s) && Enabled(s, a) && ks in Next(s, a).req
    ensures ReqOk(Next(s, a), ks)
  {
    assert !a.Invoke? ==> ThreadOk(s, a.t);
    assert ks in s.req ==> ReqOk(s, ks);
    assert ks in s.req ==> ValOk(s, s.req[ks]);
  }

  // ----- runs -----

  /** `ss[i + 1]` comes from `ss[i]` by `acts[i]`. */
  ghost predicate IsRun(ss: seq<State>, acts: seq<Action>) {
    && |ss| == |acts| + 1 && ss[0] == INIT
    && (forall i: nat | i < |acts| :: Enabled(ss[i], acts[i]) && ss[i + 1] == Next(ss[i], acts[i]))
  }

  lemma {:induction false} RunKeepsInv(ss: seq<State>, acts: seq<Action>, i: nat)
    requires IsRun(ss, acts) && i < |ss|
    ensures Inv(ss[i])
  {
    if i > 0 {
      RunKeepsInv(ss, acts, i - 1);
      NextKeeps(ss[i - 1], acts[i - 1]);
    }
  }

  /** At no time are two child calls with the same operation, key and value under way. */
  lemma SingleFlight(ss: seq<State>, acts: seq<Action>, i: nat, t: nat, u: nat)
    requires IsRun(ss, acts) && i < |ss| && t < |ss[i].threads| && u < |ss[i].threads|
    requires ss[i].threads[t].phase.Calling? && ss[i].threads[u].phase.Calling?
    requires ss[i].threads[t].ks == ss[i].threads[u].ks
    ensures t == u
  {
    RunKeepsInv(ss, acts, i);
    assert ThreadOk(ss[i], t) && ThreadOk(ss[i], u);
  }

  /** The panic of syncDone, a second close, and a failing type assertion in Has never happen. */
  lemma NoPanic(ss: seq<State>, acts: seq<Action>, i: nat, t: nat)
    requires IsRun(ss, acts) && i < |ss| && t < |ss[i].threads|
    ensures !ss[i].threads[t].phase.Panicked?
  {
    RunKeepsInv(ss, acts, i);
    assert ThreadOk(ss[i], t);
  }

  /** Step `i` stores a child's answer in entry `v`. */
  ghost predicate StoresAt(ss: seq<State>, acts: seq<Action>, i: nat, v: nat) {
    && i < |acts| && i < |ss| && acts[i].ChildReturns?
    && acts[i].t < |ss[i].threads| && ss[i].threads[acts[i].t].phase == Calling(v)
  }

  /** Step `i` closes the channel of entry `v`. */
  ghost predicate ClosesAt(ss: seq<State>, acts: seq<Action>, i: nat, v: nat) {
    && i < |acts| && i < |ss| && acts[i].Close?
    && acts[i].t < |ss[i].threads|
    && ss[i].threads[acts[i].t].phase.Releasing? && ss[i].threads[acts[i].t].phase.found == v
  }

  predicate Stored(s: State, v: nat) {
    v < |s.vals| && s.vals[v].leader < |s.threads| && !s.threads[s.vals[v].leader].phase.Calling?
  }

  /** What a step may do to an entry: fill it while its leader is in the child's method, close it once. */
  lemma EntryStep(s: State, a: Action, v: nat)
    requires Inv(s) && Enabled(s, a) && v < |s.vals|
    ensures var n := Next(s, a);
            && v < |n.vals| && n.vals[v].ks == s.vals[v].ks && n.vals[v].leader == s.vals[v].leader
            && (s.vals[v].done ==> n.vals[v] == s.vals[v])
            && (Stored(s, v) ==> Stored(n, v) && n.vals[v].val == s.vals[v].val && n.vals[v].err == s.vals[v].err)
            && (Stored(n, v) && !Stored(s, v) ==>
                  && a.ChildReturns? && s.threads[a.t].phase == Calling(v)
                  && n.vals[v].val == a.val && n.vals[v].err == a.err)
  {
    assert ValOk(s, v);
    assert !a.Invoke? ==> ThreadOk(s, a.t);
  }

  /** A new entry is not a stored one. */
  lemma EntryIsOld(s: State, a: Action, v: nat)
    requires Inv(s) && Enabled(s, a) && Stored(Next(s, a), v)
    ensures v < |s.vals|
  {
    assert !a.Invoke? ==> ThreadOk(s, a.t);
  }

  /** Every stored entry holds the answer of one child call, made for that entry by its leader. */
  lemma {:induction false} StoredBy(ss: seq<State>, acts: seq<Action>, n: nat, v: nat) returns (i: nat)
    requires IsRun(ss, acts) && n < |ss| && Stored(ss[n], v)
    ensures i < n && StoresAt(ss, acts, i, v)
    ensures acts[i].t == ss[n].vals[v].leader
    ensures acts[i].val == ss[n].vals[v].val && acts[i].err == ss[n].vals[v].err
    decreases n
  {
    RunKeepsInv(ss, acts, n - 1);
    EntryIsOld(ss[n - 1], acts[n - 1], v);
    EntryStep(ss[n - 1], acts[n - 1], v);
    if Stored(ss[n - 1], v) {
      i := StoredBy(ss, acts, n - 1, v);
    } else {
      i := n - 1;
      assert ThreadOk(ss[i], acts[i].t);
    }
  }

  lemma {:induction false} EntryStays(ss: seq<State>, acts: seq<Action>, i: nat, j: nat, v: nat)
    requires IsRun(ss, acts) && i <= j < |ss| && v < |ss[i].vals|
    ensures v < |ss[j].vals|
    ensures ss[i].vals[v].done ==> ss[j].vals[v] == ss[i].vals[v]
    ensures Stored(ss[i], v) ==> Stored(ss[j], v)
    decreases j
  {
    if i < j {
      EntryStays(ss, acts, i, j - 1, v);
      RunKeepsInv(ss, acts, j - 1);
      EntryStep(ss[j - 1], acts[j - 1], v);
    }
  }

  /** One child call per entry. */
  lemma StoresOnce(ss: seq<State>, acts: seq<Action>, i: nat, j: nat, v: nat)
    requires IsRun(ss, acts) && StoresAt(ss, acts, i, v) && StoresAt(ss, acts, j, v)
    ensures i == j
  {
    StoresUntil(ss, acts, i, j, v);
    StoresUntil(ss, acts, j, i, v);
  }

  lemma StoresUntil(ss: seq<State>, acts: seq<Action>, i: nat, j: nat, v: nat)
    requires IsRun(ss, acts) && StoresAt(ss, acts, i, v) && StoresAt(ss, acts, j, v)
    ensures i >= j
  {
    RunKeepsInv(ss, acts, i);
    RunKeepsInv(ss, acts, j);
    assert ThreadOk(ss[i], acts[i].t) && ThreadOk(ss[j], acts[j].t);
    assert Stored(ss[i + 1], v);
    if i < j {
      EntryStays(ss, acts, i + 1, j, v);
    }
  }

  /** Each channel is closed at most once, and only after the one answer was stored. */
  lemma ClosesOnceAfterStore(ss: seq<State>, acts: seq<Action>, i: nat, v: nat) returns (k: nat)
    requires IsRun(ss, acts) && ClosesAt(ss, acts, i, v)
    ensures k < i && StoresAt(ss, acts, k, v)
    ensures forall j: nat | ClosesAt(ss, acts, j, v) :: j == i
  {
    RunKeepsInv(ss, acts, i);
    assert ThreadOk(ss[i], acts[i].t);
    assert ValOk(ss[i], v);
    k := StoredBy(ss, acts, i, v);
    forall j: nat | ClosesAt(ss, acts, j, v)
      ensures j == i
    {
      ClosesUntil(ss, acts, i, j, v);
      ClosesUntil(ss, acts, j, i, v);
    }
  }

  lemma ClosesUntil(ss: seq<State>, acts: seq<Action>, i: nat, j: nat, v: nat)
    requires IsRun(ss, acts) && ClosesAt(ss, acts, i, v) && ClosesAt(ss, acts, j, v)
    ensures i >= j
  {
    RunKeepsInv(ss, acts, i);
    RunKeepsInv(ss, acts, j);
    assert ThreadOk(ss[i], acts[i].t) && ThreadOk(ss[j], acts[j].t);
    assert ValOk(ss[i], v) && ValOk(ss[j], v);
    assert ss[i + 1].vals[v].done;
    if i < j {
      EntryStays(ss, acts, i + 1, j, v);
    }
  }

  /** Whoever got a reply, leader or follower, got the answer of one child call made for the same
      operation, key and value: Get and Has its value and error, Delete its error. Put replies without
      an error whatever the child answered, so it gives the child's error exactly when there is none. */
  lemma Answers(ss: seq<State>, acts: seq<Action>, n: nat, t: nat) returns (i: nat)
    requires IsRun(ss, acts) && n < |ss| && t < |ss[n].threads| && ss[n].threads[t].phase.Done?
    ensures var p, ks := ss[n].threads[t].phase, ss[n].threads[t].ks;
            && i < n && StoresAt(ss, acts, i, p.vs) && ss[i].threads[acts[i].t].ks == ks
            && (ks.op.Get? || ks.op.Has? ==> p.val == acts[i].val && p.err == acts[i].err)
            && (ks.op.Delete? ==> p.err == acts[i].err)
            && (ks.op.Put? ==> p.err == NoError && (p.err == acts[i].err <==> acts[i].err.NoError?))
  {
    RunKeepsInv(ss, acts, n);
    assert ThreadOk(ss[n], t);
    var v := ss[n].threads[t].phase.vs;
    assert ValOk(ss[n], v);
    i := StoredBy(ss, acts, n, v);
    RunKeepsInv(ss, acts, i);
    assert ThreadOk(ss[i], acts[i].t);
    EntryKey(ss, acts, i, n, v);
  }

  /** A Put that fails in the child and succeeds for the caller. */
  lemma PutErrorLost(key: string, value: Value, code: nat) returns (ss: seq<State>)
    ensures var acts := [Invoke(KeySync(Put, key, value)), Sync(0), ChildReturns(0, Nil, Failed(code)),
                         SyncDone(0), Close(0), Return(0)];
            IsRun(ss, acts) && ss[6].threads == [Thread(KeySync(Put, key, value), Done(0, Nil, NoError))]
  {
    var ks := KeySync(Put, key, value);
    var acts := [Invoke(ks), Sync(0), ChildReturns(0, Nil, Failed(code)), SyncDone(0), Close(0), Return(0)];
    var e0, e1 := ValSync(Nil, NoError, false, ks, 0), ValSync(Nil, Failed(code), false, ks, 0);
    var e2 := e1.(done := true);
    ss := [INIT, State(map[], [], [Thread(ks, Entered)]),
           State(map[ks := 0], [e0], [Thread(ks, Calling(0))]), State(map[ks := 0], [e1], [Thread(ks, Written(0))]),
           State(map[], [e1], [Thread(ks, Releasing(0, 0))]), State(map[], [e2], [Thread(ks, Leaving(0))]),
           State(map[], [e2], [Thread(ks, Done(0, Nil, NoError))])];
    assert map[ks := 0] - {ks} == map[];
    forall i: nat | i < |acts|
      ensures Enabled(ss[i], acts[i]) && ss[i + 1] == Next(ss[i], acts[i])
    {
      assert i == 0 || i == 1 || i == 2 || i == 3 || i == 4 || i == 5;
    }
  }

  lemma {:induction false} EntryKey(ss: seq<State>, acts: seq<Action>, i: nat, j: nat, v: nat)
    requires IsRun(ss, acts) && i <= j < |ss| && v < |ss[i].vals|
    ensures v < |ss[j].vals| && ss[j].vals[v].ks == ss[i].vals[v].ks
    decreases j
  {
    if i < j {
      EntryKey(ss, acts, i, j - 1, v);
      RunKeepsInv(ss, acts, j - 1);
      EntryStep(ss[j - 1], acts[j - 1], v);
    }
  }

  // ----- progress -----

  /** No request is left waiting: while one is unanswered, some request can take a step. */
  lemma SomeRequestMoves(ss: seq<State>, acts: seq<Action>, t: nat) returns (a: Action)
    requires IsRun(ss, acts) && t < |ss[|acts|].threads| && !ss[|acts|].threads[t].phase.Done?
    ensures !a.Invoke? && Enabled(ss[|acts|], a)
  {
    var s := ss[|acts|];
    RunKeepsInv(ss, acts, |acts|);
    assert ThreadOk(s, t);
    if s.threads[t].phase.Waiting? && !s.vals[s.threads[t].phase.vs].done {
      var v := s.threads[t].phase.vs;
      assert ValOk(s, v);
      a := OwnStep(s, s.vals[v].leader);
    } else {
      a := OwnStep(s, t);
    }
  }

  function OwnStep(s: State, t: nat): Action
    requires t < |s.threads|
  {
    match s.threads[t].phase
    case Entered => Sync(t)
    case Waiting(_) => Wake(t)
    case Calling(_) => ChildReturns(t, if s.threads[t].ks.op.Has? then Bool(true) else Nil, NoError)
    case Written(_) => SyncDone(t)
    case Releasing(_, _) => Close(t)
    case _ => Return(t)
  }

  function Rank(p: Phase): nat {
    match p
    case Entered => 5
    case Calling(_) => 4
    case Written(_) => 3
    case Releasing(_, _) => 2
    case Waiting(_) => 2
    case Leaving(_) => 1
    case Done(_, _, _) => 0
    case Panicked => 0
  }

  function Work(ts: seq<Thread>): nat {
    if |ts| == 0 then 0 else Work(ts[..|ts| - 1]) + Rank(ts[|ts| - 1].phase)
  }

  lemma {:induction false} WorkAt(ts: seq<Thread>, t: nat, th: Thread)
    requires t < |ts| && Rank(th.phase) < Rank(ts[t].phase)
    ensures Work(ts[t := th]) < Work(ts)
  {
    var us := ts[t := th];
    if t == |ts| - 1 {
      assert us[..t] == ts[..t];
    } else {
      assert us[..|ts| - 1] == ts[..|ts| - 1][t := th];
      WorkAt(ts[..|ts| - 1], t, th);
    }
  }

  /** Every step but a new request leaves less to do, so without new requests a run of `k` more steps
      needs `k` units of work at its start: all requests are answered when none can move. */
  lemma {:induction false} WorkBounds(ss: seq<State>, acts: seq<Action>, n: nat, k: nat)
    requires IsRun(ss, acts) && n + k < |ss|
    requires forall i: nat | n <= i < n + k :: !acts[i].Invoke?
    ensures k + Work(ss[n + k].threads) <= Work(ss[n].threads)
    decreases k
  {
    if k > 0 {
      WorkBounds(ss, acts, n, k - 1);
      var s, a := ss[n + k - 1], acts[n + k - 1];
      RunKeepsInv(ss, acts, n + k - 1);
      StepWorks(s, a);
    }
  }

  lemma StepWorks(s: State, a: Action)
    requires Inv(s) && Enabled(s, a) && !a.Invoke?
    ensures Work(Next(s, a).threads) < Work(s.threads)
  {
    hide Work;
    assert ThreadOk(s, a.t);
    var th := Next(s, a).threads[a.t];
    assert Next(s, a).threads == s.threads[a.t := th];
    WorkAt(s.threads, a.t, th);
  }
}
