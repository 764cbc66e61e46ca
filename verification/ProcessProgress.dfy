/**
 Progress.  When everyone a process waits for is or will be told to close, and the wait graph has no cycle,
 some thread can move until that process is closed; and no run of thread steps is longer than a measure of
 the state it starts from.
 */
module ProcessProgress {
  import opened Options
  import opened Processes
  import opened ProcessSafety

  // ----- some thread can move -----

  /** The child of a link will be told to close: AddChild and Go see to that, and after a client's WaitFor
      somebody has closed the child or is about to. */
  ghost predicate WillBeAsked(s: State, l: Lid)
    requires l < |s.links|
  {
    s.links[l].child < |s.procs| && (MustAsk(s, s.links[l]) || Asked(s, s.links[l].child))
  }

  /** Whoever `p` waits for, however far down, will be told to close. */
  ghost predicate AskedBelow(s: State, p: Pid) {
    forall q: Pid, path: seq<Lid>, l: nat | WaitPath(s, p, q, path) && l < |s.links| && Binds(s.links[l], q) ::
      WillBeAsked(s, l)
  }

  lemma BelowChild(s: State, p: Pid, l: Lid)
    requires AskedBelow(s, p) && l < |s.links| && Binds(s.links[l], p)
    ensures WillBeAsked(s, l) && AskedBelow(s, s.links[l].child)
  {
    hide WillBeAsked;
    assert WaitPath(s, p, p, []);
    forall q: Pid, path: seq<Lid>, k: nat
      | WaitPath(s, s.links[l].child, q, path) && k < |s.links| && Binds(s.links[k], q)
      ensures WillBeAsked(s, k)
    {
      assert ([l] + path)[1..] == path;
      assert WaitPath(s, p, q, [l] + path);
    }
  }

  /** `rank` falls along every link that makes a parent wait: the wait graph has no cycle. */
  ghost predicate Acyclic(s: State, rank: Pid -> nat) {
    forall l: nat | l < |s.links| && s.links[l].waits :: rank(s.links[l].child) < rank(s.links[l].parent)
  }

  lemma HolderMoves(s: State, p: Pid)
    requires Inv(s) && p < |s.procs| && s.procs[p].lock.Some?
    ensures StepEnabled(s, s.procs[p].lock.value)
  {
    assert ProcOk(s, p);
    assert ThreadOk(s, s.procs[p].lock.value);
  }

  /** A process that somebody wants closed is closed, or some thread can move. */
  lemma {:induction false} SomeThreadMoves(s: State, p: Pid, rank: Pid -> nat) returns (t: Tid)
    requires Inv(s) && AskedBelow(s, p) && Acyclic(s, rank) && p < |s.procs| && Asked(s, p) && !Closed(s, p)
    ensures StepEnabled(s, t)
    decreases rank(p)
  {
    if s.procs[p].lock.Some? {
      t := s.procs[p].lock.value;
      HolderMoves(s, p);
    } else if !s.procs[p].closing {
      t :| t < |s.threads| && WillClose(s.threads[t], p);
      assert ThreadOk(s, t);
    } else {
      assert ProcOk(s, p);
      t := s.procs[p].closer.value;
      assert ThreadOk(s, t);
      if s.threads[t].pc.Await? && !Closed(s, s.threads[t].pc.c) {
        BelowChild(s, p, s.threads[t].pc.wf[0]);
        t := SomeThreadMoves(s, s.threads[t].pc.c, rank);
      }
    }
  }

  // ----- every step is progress -----

  function Sum(xs: seq<nat>): nat {
    if xs == [] then 0 else xs[0] + Sum(xs[1..])
  }

  lemma {:induction false} SumConcat(xs: seq<nat>, ys: seq<nat>)
    ensures Sum(xs + ys) == Sum(xs) + Sum(ys)
  {
    if xs == [] {
      assert xs + ys == ys;
    } else {
      SumConcat(xs[1..], ys);
      assert (xs + ys)[1..] == xs[1..] + ys;
    }
  }

  lemma {:induction false} SumAtMost(xs: seq<nat>, ys: seq<nat>)
    requires |xs| == |ys| && forall i | 0 <= i < |xs| :: ys[i] <= xs[i]
    ensures Sum(ys) <= Sum(xs)
  {
    if xs != [] {
      SumAtMost(xs[1..], ys[1..]);
    }
  }

  lemma SumOne(x: nat)
    ensures Sum([x]) == x
  {
  }

  /** One entry falls to `ys[k]`, others do not grow, and new ones are added at the end. */
  lemma SumChange(xs: seq<nat>, ys: seq<nat>, k: nat)
    requires k < |xs| <= |ys| && forall i | 0 <= i < |xs| && i != k :: ys[i] <= xs[i]
    ensures Sum(ys) + xs[k] <= Sum(xs) + ys[k] + Sum(ys[|xs|..])
  {
    var n := |xs|;
    SumOne(xs[k]);
    SumOne(ys[k]);
    hide Sum;
    assert ys == ys[..k] + ([ys[k]] + ys[k + 1..n]) + ys[n..];
    assert xs == xs[..k] + ([xs[k]] + xs[k + 1..]);
    SumConcat(ys[..k] + ([ys[k]] + ys[k + 1..n]), ys[n..]);
    SumConcat(ys[..k], [ys[k]] + ys[k + 1..n]);
    SumConcat([ys[k]], ys[k + 1..n]);
    SumConcat(xs[..k], [xs[k]] + xs[k + 1..]);
    SumConcat([xs[k]], xs[k + 1..]);
    SumAtMost(xs[..k], ys[..k]);
    SumAtMost(xs[k + 1..], ys[k + 1..n]);
  }

  /** How many processes are not closed. */
  function Open(s: State): nat {
    Sum(seq(|s.procs|, p requires 0 <= p < |s.procs| => if s.procs[p].closed then 0 else 1))
  }

  /** How often a thread may still look for something to wait for. */
  function Scans(s: State, th: Thread): nat {
    match th
    case Close(_, _, Some(_)) => Open(s)
    case CacEnter(_) => Open(s)
    case CacLock(_) => Open(s)
    case CacScan(_, _) => Open(s)
    case CacAwait(_, c) => if c < |s.procs| && !s.procs[c].closed && Open(s) > 0 then Open(s) - 1 else Open(s)
    case Run(_, _) => Open(s)
    case _ => 0
  }

  function Waits(s: State, p: Pid): nat { if p < |s.procs| then |s.procs[p].waitfors| else 0 }

  function Sooner(i: nat, n: nat): nat { if i <= n then n - i else 0 }

  /** What a thread itself has left to do before it looks again. */
  function Work(s: State, th: Thread): nat {
    match th
    case Close(_, pc, andThen) =>
      (match pc case Enter => 3 case AwaitClosed => 1 case Unlock => 1 case _ => 2)
      + (match andThen case None => 0 case Some(c) => Waits(s, c) + 6)
    case CacEnter(p) => Waits(s, p) + 6
    case CacLock(p) => Waits(s, p) + 5
    case CacScan(p, i) => Sooner(i, Waits(s, p)) + 4
    case CacAwait(p, _) => Waits(s, p) + 6
    case AddToChild(_) => 5
    case Enlist(_) => 4
    case Clear(ls) => |ls| + 1
    case Run(c, _) => Waits(s, c) + 10
    case _ => 0
  }

  /** What doClose has left to do from `pc` on. */
  function Phase(pr: Process, pc: ClosePc): nat {
    var lists := 24 * (|pr.children| + |pr.waitfors|);
    match pc
    case LoopHead => lists + 3
    case SignalChild(i) => 4 * Sooner(i, |pr.children|) + 4 * |pr.waitfors| + 15
    case NextWait(wf) => lists + 4 * |wf| + 14
    case Fetch(wf) => lists + 4 * |wf| + 13
    case Await(wf, _) => lists + 4 * |wf| + 12
    case Relock(wf) => lists + 4 * |wf| + 11
    case Teardown => 2
    case Signal => 1
    case _ => 0
  }

  /** What is left to do on a process, whoever does it. */
  function Load(s: State, p: Pid): nat
    requires p < |s.procs|
  {
    var pr := s.procs[p];
    if pr.closed then 0 else |pr.waiters| + 3 + Phase(pr, CloserPc(s, pr))
  }

  /** Where doClose stands; before it starts, at its loop head. */
  function CloserPc(s: State, pr: Process): ClosePc {
    if pr.closer.Some? && pr.closer.value < |s.threads| && s.threads[pr.closer.value].Close?
    then s.threads[pr.closer.value].pc else LoopHead
  }

  function AllScans(s: State): seq<nat> { seq(|s.threads|, t requires 0 <= t < |s.threads| => Scans(s, s.threads[t])) }

  function AllWork(s: State): seq<nat> { seq(|s.threads|, t requires 0 <= t < |s.threads| => Work(s, s.threads[t])) }

  function AllLoads(s: State): seq<nat> { seq(|s.procs|, p requires 0 <= p < |s.procs| => Load(s, p)) }

  /** The measure, greater part first. */
  function Major(s: State): nat { Sum(AllScans(s)) }

  function Minor(s: State): nat { Sum(AllWork(s)) + Sum(AllLoads(s)) }

  predicate Falls(s: State, s': State) {
    Major(s') < Major(s) || (Major(s') == Major(s) && Minor(s') < Minor(s))
  }

  /** `s'` follows `s` by a step of thread `t` on process `q` that starts at most one thread. */
  ghost predicate Stepped(s: State, s': State, t: Tid, q: Pid) {
    && t < |s.threads| <= |s'.threads| <= |s.threads| + 1
    && (forall u: nat | u < |s.threads| && u != t :: s'.threads[u] == s.threads[u])
    && |s'.procs| == |s.procs| && q < |s.procs|
    && (forall p: nat | p < |s.procs| && p != q :: s'.procs[p] == s.procs[p])
    && |s'.procs[q].waitfors| <= |s.procs[q].waitfors|
  }

  lemma {:induction false} OpenKept(s: State, s': State, q: Pid)
    requires |s'.procs| == |s.procs| && q < |s.procs|
    requires forall p: nat | p < |s.procs| && p != q :: s'.procs[p] == s.procs[p]
    ensures s'.procs[q].closed == s.procs[q].closed ==> Open(s') == Open(s)
    ensures s'.procs[q].closed && !s.procs[q].closed ==> Open(s') < Open(s)
  {
    var xs := seq(|s.procs|, p requires 0 <= p < |s.procs| => if s.procs[p].closed then 0 else 1);
    var ys := seq(|s'.procs|, p requires 0 <= p < |s'.procs| => if s'.procs[p].closed then 0 else 1);
    if s'.procs[q].closed == s.procs[q].closed {
      assert xs == ys;
    } else {
      SumChange(xs, ys, q);
      assert ys[|xs|..] == [];
    }
  }

  lemma OpenPositive(s: State, c: Pid)
    requires c < |s.procs| && !s.procs[c].closed
    ensures Open(s) > 0
  {
    var s' := s.(procs := s.procs[c := s.procs[c].(closed := true)]);
    OpenKept(s, s', c);
  }

  /** Threads that do not move do not get more to do. */
  lemma OthersNoWorse(s: State, s': State, t: Tid, q: Pid, u: Tid)
    requires Stepped(s, s', t, q) && u < |s.threads| && u != t && (s.procs[q].closed ==> s'.procs[q].closed)
    ensures Scans(s', s'.threads[u]) <= Scans(s, s.threads[u])
    ensures Work(s', s'.threads[u]) <= Work(s, s.threads[u])
  {
    hide Open;
    OpenKept(s, s', q);
  }

  lemma OtherLoads(s: State, s': State, t: Tid, q: Pid, p: Pid)
    requires Inv(s) && Stepped(s, s', t, q) && WorksOn(s, t, q) && p < |s.procs| && p != q
    ensures Load(s', p) == Load(s, p)
  {
    Elsewhere(s, t, q, p);
    assert ProcOk(s, p);
  }

  function NewWork(s: State, s': State): nat {
    if |s'.threads| > |s.threads| then Work(s', s'.threads[|s.threads|]) else 0
  }

  function NewScans(s: State, s': State): nat {
    if |s'.threads| > |s.threads| then Scans(s', s'.threads[|s.threads|]) else 0
  }

  /** What is left to show of a step: its own thread and process. */
  lemma StepFalls(s: State, s': State, t: Tid, q: Pid)
    requires Inv(s) && Stepped(s, s', t, q) && WorksOn(s, t, q) && (s.procs[q].closed ==> s'.procs[q].closed)
    requires Scans(s', s'.threads[t]) + NewScans(s, s') <= Scans(s, s.threads[t])
    requires
      || Scans(s', s'.threads[t]) + NewScans(s, s') < Scans(s, s.threads[t])
      || Work(s', s'.threads[t]) + NewWork(s, s') + Load(s', q) < Work(s, s.threads[t]) + Load(s, q)
    ensures Falls(s, s')
  {
    hide Scans, Work, Load, Open, Inv, WorksOn;
    forall u: nat | u < |s.threads| && u != t
      ensures AllScans(s')[u] <= AllScans(s)[u] && AllWork(s')[u] <= AllWork(s)[u]
    {
      OthersNoWorse(s, s', t, q, u);
    }
    SumChange(AllScans(s), AllScans(s'), t);
    SumChange(AllWork(s), AllWork(s'), t);
    forall p: nat | p < |s.procs| && p != q
      ensures AllLoads(s')[p] <= AllLoads(s)[p]
    {
      OtherLoads(s, s', t, q, p);
    }
    SumChange(AllLoads(s), AllLoads(s'), q);
    assert AllLoads(s')[|s.procs|..] == [];
    NewSum(AllScans(s'), |s.threads|, NewScans(s, s'));
    NewSum(AllWork(s'), |s.threads|, NewWork(s, s'));
  }

  lemma NewSum(xs: seq<nat>, n: nat, x: nat)
    requires n <= |xs| <= n + 1 && x == if |xs| > n then xs[n] else 0
    ensures Sum(xs[n..]) == x
  {
    if |xs| > n {
      assert xs[n..] == [xs[n]];
    }
  }

  predicate InLoop(pc: ClosePc) { pc.SignalChild? || pc.NextWait? || pc.Fetch? || pc.Await? || pc.Relock? }

  lemma LoopStepFalls(s: State, t: Tid, err: Err)
    requires Inv(s) && StepEnabled(s, t) && s.threads[t].Close? && InLoop(s.threads[t].pc)
    ensures Falls(s, ThreadStep(s, t, err))
  {
    var pc := s.threads[t].pc;
    if pc.SignalChild? || pc.NextWait? {
      ScanStepFalls(s, t, err);
    } else {
      WaitStepFalls(s, t, err);
    }
  }

  lemma WaitStepFalls(s: State, t: Tid, err: Err)
    requires Inv(s) && StepEnabled(s, t) && s.threads[t].Close?
    requires s.threads[t].pc.Fetch? || s.threads[t].pc.Await? || s.threads[t].pc.Relock?
    ensures Falls(s, ThreadStep(s, t, err))
  {
    hide Open, Sum, Falls, ListsOk, EarlyClosed, WaitsOk, Logged, PrivateOk, Asked, LinkOk, LogOk;
    var s' := ThreadStep(s, t, err);
    var p := s.threads[t].p;
    assert ThreadOk(s, t) && ProcOk(s, p);
    hide Inv;
    OpenKept(s, s', p);
    StepFalls(s, s', t, p);
  }

  lemma ScanStepFalls(s: State, t: Tid, err: Err)
    requires Inv(s) && StepEnabled(s, t) && s.threads[t].Close?
    requires s.threads[t].pc.SignalChild? || s.threads[t].pc.NextWait?
    ensures Falls(s, ThreadStep(s, t, err))
  {
    hide Open, Sum, Falls, ListsOk, EarlyClosed, WaitsOk, Logged, PrivateOk, Asked, LinkOk, LogOk;
    var s' := ThreadStep(s, t, err);
    var p := s.threads[t].p;
    assert ThreadOk(s, t) && ProcOk(s, p);
    hide Inv;
    OpenKept(s, s', p);
    StepFalls(s, s', t, p);
  }

  lemma EntryStepFalls(s: State, t: Tid, err: Err)
    requires Inv(s) && StepEnabled(s, t) && s.threads[t].Close?
    requires s.threads[t].pc.Enter? || s.threads[t].pc.AwaitClosed? || s.threads[t].pc.LoopHead?
    ensures Falls(s, ThreadStep(s, t, err))
  {
    hide Open, Sum, Falls, ListsOk, EarlyClosed, WaitsOk, Logged, PrivateOk, Asked, LinkOk, LogOk;
    var s' := ThreadStep(s, t, err);
    var p := s.threads[t].p;
    assert ThreadOk(s, t) && ProcOk(s, p);
    hide Inv;
    OpenKept(s, s', p);
    StepFalls(s, s', t, p);
  }

  lemma ExitStepFalls(s: State, t: Tid, err: Err)
    requires Inv(s) && StepEnabled(s, t) && s.threads[t].Close?
    requires s.threads[t].pc.Teardown? || s.threads[t].pc.Signal? || s.threads[t].pc.Unlock?
    ensures Falls(s, ThreadStep(s, t, err))
  {
    hide Open, Sum, Falls, ListsOk, EarlyClosed, WaitsOk, Logged, PrivateOk, Asked, LinkOk, LogOk;
    var s' := ThreadStep(s, t, err);
    var p := s.threads[t].p;
    assert ThreadOk(s, t) && ProcOk(s, p);
    hide Inv;
    OpenKept(s, s', p);
    StepFalls(s, s', t, p);
  }

  lemma CacStepFalls(s: State, t: Tid, err: Err)
    requires Inv(s) && StepEnabled(s, t)
    requires s.threads[t].CacEnter? || s.threads[t].CacLock? || s.threads[t].CacScan? || s.threads[t].CacAwait?
    ensures Falls(s, ThreadStep(s, t, err))
  {
    hide Open, Sum, Falls, EarlyClosed, WaitsOk, Logged, PrivateOk, Asked, LogOk;
    var s' := ThreadStep(s, t, err);
    var p := s.threads[t].p;
    assert ThreadOk(s, t) && ProcOk(s, p);
    OpenKept(s, s', p);
    SameLoad(s, s', t, p);
    hide Load;
    if s.threads[t].CacScan? && s.threads[t].i < |s.procs[p].waitfors| {
      var c := s.links[s.procs[p].waitfors[s.threads[t].i]].child;
      assert c < |s.procs|;
      if !s.procs[c].closed {
        OpenPositive(s, c);
      }
    }
    StepFalls(s, s', t, p);
  }

  /** Locking, scanning and waiting leave the load of the process as it was. */
  lemma SameLoad(s: State, s': State, t: Tid, p: Pid)
    requires Inv(s) && Stepped(s, s', t, p) && WorksOn(s, t, p) && !s.threads[t].Close?
    requires s'.procs[p].(lock := s.procs[p].lock, function_ := s.procs[p].function_) == s.procs[p]
    ensures Load(s', p) == Load(s, p)
  {
    assert ProcOk(s, p);
  }

  lemma LinkStepFalls(s: State, t: Tid, err: Err)
    requires Inv(s) && StepEnabled(s, t)
    requires
      || s.threads[t].AddToChild? || s.threads[t].Enlist?
      || (s.threads[t].Clear? && s.threads[t].ls != []) || s.threads[t].Run?
    ensures Falls(s, ThreadStep(s, t, err))
  {
    hide Open, Sum, Falls, ListsOk, EarlyClosed, WaitsOk, Logged, Asked, LogOk;
    var s' := ThreadStep(s, t, err);
    assert ThreadOk(s, t);
    var p := match s.threads[t]
             case AddToChild(l) => s.links[l].child
             case Enlist(l) => s.links[l].child
             case Clear(ls) => s.links[ls[0]].child
             case Run(c, _) => c;
    if s.threads[t].AddToChild? {
      assert LinkOk(s, s.threads[t].l);
    }
    assert ProcOk(s, p);
    OpenKept(s, s', p);
    StepFalls(s, s', t, p);
  }

  lemma ClearedFalls(s: State, t: Tid, err: Err)
    requires Inv(s) && StepEnabled(s, t) && s.threads[t] == Clear([])
    ensures Falls(s, ThreadStep(s, t, err))
  {
    var s' := ThreadStep(s, t, err);
    SumChange(AllScans(s), AllScans(s'), t);
    SumChange(AllWork(s), AllWork(s'), t);
    assert AllScans(s')[|s.threads|..] == [] && AllWork(s')[|s.threads|..] == [];
    forall p: nat | p < |s.procs|
      ensures Load(s', p) == Load(s, p)
    {
      assert ProcOk(s, p);
    }
    assert AllLoads(s') == AllLoads(s);
  }

  /** Every step of every thread lowers the measure. */
  lemma ThreadStepFalls(s: State, t: Tid, err: Err)
    requires Inv(s) && StepEnabled(s, t)
    ensures Falls(s, ThreadStep(s, t, err))
  {
    hide Falls, Inv;
    match s.threads[t]
    case Close(_, pc, _) =>
      if InLoop(pc) {
        LoopStepFalls(s, t, err);
      } else if pc.Enter? || pc.AwaitClosed? || pc.LoopHead? {
        EntryStepFalls(s, t, err);
      } else {
        ExitStepFalls(s, t, err);
      }
    case CacEnter(_) => CacStepFalls(s, t, err);
    case CacLock(_) => CacStepFalls(s, t, err);
    case CacScan(_, _) => CacStepFalls(s, t, err);
    case CacAwait(_, _) => CacStepFalls(s, t, err);
    case Clear(ls) =>
      if ls == [] {
        ClearedFalls(s, t, err);
      } else {
        LinkStepFalls(s, t, err);
      }
    case _ => LinkStepFalls(s, t, err);
  }

  // ----- shutdown completes -----

  /** The state after `n` steps when `pick` says, from the number of the step and the state, which
      thread moves and what a teardown returns. */
  ghost function Scheduled(s: State, pick: (nat, State) -> (Tid, Err), k: nat, n: nat): State
    decreases n
  {
    if n == 0 || !StepEnabled(s, pick(k, s).0) then s
    else Scheduled(ThreadStep(s, pick(k, s).0, pick(k, s).1), pick, k + 1, n - 1)
  }

  /** A scheduler that never picks a thread that cannot move while another can. */
  ghost predicate NonIdling(pick: (nat, State) -> (Tid, Err)) {
    forall k: nat, s: State :: CanMove(s) ==> StepEnabled(s, pick(k, s).0)
  }

  ghost predicate CanMove(s: State) { exists t: nat :: StepEnabled(s, t) }

  ghost predicate Finishes(s: State, p: Pid, pick: (nat, State) -> (Tid, Err)) {
    exists n: nat :: Closed(Scheduled(s, pick, 0, n), p)
  }
}
