/**
 The rate limiter: a token channel on top of the process machine.  A LimitedGo call takes a token,
 starts a child with Go, and a watcher puts the token back when the child is closed.
 */
module RateLimit {
  import opened Processes
  import opened ProcessSafety

  /** `taken` counts calls that hold a token and have not started their child yet, `watched` lists the
      children whose watcher still holds one, and `started` every child so far. */
  datatype Limiter = Limiter(ps: State, p: Pid, limit: nat, tokens: nat, taken: nat,
                             watched: seq<Pid>, started: seq<Pid>)

  datatype Move =
    | Process(a: Action)      // anything that happens to processes
    | Take                    // a LimitedGo call receives a token
    | Start                   // and starts its child
    | Release(i: nat)         // a watcher sends its token back

  /** A send on the token channel blocks while the channel is full. */
  predicate MayMove(r: Limiter, m: Move) {
    match m
    case Process(a) => Enabled(r.ps, a)
    case Take => r.tokens > 0
    case Start => r.taken > 0 && Enabled(r.ps, Go(r.p))
    case Release(i) => i < |r.watched| && Closed(r.ps, r.watched[i]) && r.tokens < r.limit
  }

  function After(r: Limiter, m: Move): Limiter
    requires MayMove(r, m)
  {
    match m
    case Process(a) => r.(ps := Next(r.ps, a))
    case Take => r.(tokens := r.tokens - 1, taken := r.taken + 1)
    case Start =>
      var c := |r.ps.procs|;
      r.(ps := Next(r.ps, Go(r.p)), taken := r.taken - 1, watched := r.watched + [c], started := r.started + [c])
    case Release(i) => r.(tokens := r.tokens + 1, watched := r.watched[..i] + r.watched[i + 1..])
  }

  ghost predicate IsHistory(r: Limiter, moves: seq<Move>, r': Limiter)
    decreases |moves|
  {
    if moves == [] then r == r'
    else MayMove(r, moves[0]) && IsHistory(After(r, moves[0]), moves[1..], r')
  }

  /** NewRateLimiter on a process of a reachable state, with the channel filled by LimitChan. */
  ghost predicate Fresh(r: Limiter) {
    Inv(r.ps) && r.tokens == r.limit && r.taken == 0 && r.watched == [] && r.started == []
  }

  /** LimitChan: send `limit` tokens into a channel of that capacity. */
  method LimitChan(limit: nat) returns (tokens: nat)
    ensures tokens == limit
  {
    tokens := 0;
    for i := 0 to limit
      invariant tokens == i
    {
      tokens := tokens + 1;
    }
  }

  ghost predicate LimiterOk(r: Limiter) {
    && Inv(r.ps)
    && r.tokens + r.taken + |r.watched| == r.limit
    && (forall i: nat | i < |r.watched| :: r.watched[i] < |r.ps.procs|)
    && (forall i: nat | i < |r.started| ::
          r.started[i] < |r.ps.procs| && (Closed(r.ps, r.started[i]) || r.started[i] in r.watched))
  }

  lemma ClosedStays(s: State, a: Action)
    requires Enabled(s, a)
    ensures |s.procs| <= |Next(s, a).procs|
    ensures forall p: nat :: Closed(s, p) ==> Closed(Next(s, a), p)
  {
  }

  lemma MoveKeeps(r: Limiter, m: Move)
    requires LimiterOk(r) && MayMove(r, m)
    ensures LimiterOk(After(r, m))
  {
    hide Inv, Next;
    var r' := After(r, m);
    match m
    case Process(a) =>
      NextKeeps(r.ps, a);
      ClosedStays(r.ps, a);
    case Take =>
    case Start =>
      NextKeeps(r.ps, Go(r.p));
      ClosedStays(r.ps, Go(r.p));
      ChildExists(r.ps, r.p);
    case Release(i) =>
      forall c | c in r.watched && c != r.watched[i] ensures c in r'.watched {}
  }

  lemma ChildExists(s: State, p: Pid)
    requires Enabled(s, Go(p))
    ensures |s.procs| < |Next(s, Go(p)).procs|
  {
  }

  lemma {:induction false} HistoryKeeps(r: Limiter, moves: seq<Move>, r': Limiter)
    requires LimiterOk(r) && IsHistory(r, moves, r')
    ensures LimiterOk(r') && r'.limit == r.limit
    decreases |moves|
  {
    hide LimiterOk;
    if moves != [] {
      MoveKeeps(r, moves[0]);
      HistoryKeeps(After(r, moves[0]), moves[1..], r');
    }
  }

  /** The children of LimitedGo calls whose function is running. */
  ghost function RunningNow(r: Limiter): set<Pid> {
    set c | c in r.started && c < |r.ps.procs| && r.ps.procs[c].function_.Running?
  }

  function Elements(xs: seq<Pid>): set<Pid> { set x | x in xs }

  lemma {:induction false} FewElements(xs: seq<Pid>)
    ensures |Elements(xs)| <= |xs|
  {
    if xs == [] {
      assert Elements(xs) == {};
    } else {
      FewElements(xs[1..]);
      assert Elements(xs) == {xs[0]} + Elements(xs[1..]);
    }
  }

  lemma SubsetSize<T>(a: set<T>, b: set<T>)
    requires a <= b
    ensures |a| <= |b|
    decreases a
  {
    if a != {} {
      var x :| x in a;
      SubsetSize(a - {x}, b - {x});
    }
  }

  /** In every interleaving: tokens are conserved, at most `limit` functions run at once, and a watcher
      whose child is closed finds room in the channel. */
  lemma Conservation(r: Limiter, moves: seq<Move>, r': Limiter)
    requires Fresh(r) && IsHistory(r, moves, r')
    ensures r'.tokens + r'.taken + |r'.watched| == r.limit
    ensures |RunningNow(r')| + r'.taken <= r.limit
    ensures forall i: nat | i < |r'.watched| && Closed(r'.ps, r'.watched[i]) :: MayMove(r', Release(i))
  {
    HistoryKeeps(r, moves, r');
    forall c | c in RunningNow(r')
      ensures c in r'.watched
    {
      RunningNotClosed(r'.ps, c);
    }
    assert RunningNow(r') <= Elements(r'.watched);
    SubsetSize(RunningNow(r'), Elements(r'.watched));
    FewElements(r'.watched);
  }
}
