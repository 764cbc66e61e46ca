/**
 When closing finishes.  A trap is a set of open processes each of which either waits for another one of
 the set or is never told to close.  Left to themselves the threads close exactly the processes that are
 in no trap, whatever the scheduler.
 */
module ProcessShutdown {
  import opened Options
  import opened Processes
  import opened ProcessSafety
  import opened ProcessProgress

  // ----- what closing and scanning leave to do -----

  /** A scan has passed closed children only, and waits for a child of a link. */
  ghost predicate ScanOk(s: State, th: Thread) {
    match th
    case CacScan(p, i) =>
      && p < |s.procs| && i <= |s.procs[p].waitfors|
      && forall j: nat | j < i ::
           s.procs[p].waitfors[j] < |s.links| && Closed(s, s.links[s.procs[p].waitfors[j]].child)
    case CacAwait(p, c) => exists l: nat :: AwaitedBy(s, l, p, c)
    case _ => true
  }

  predicate AwaitedBy(s: State, l: Lid, p: Pid, c: Pid) {
    && l < |s.links| && s.links[l].parent == p && s.links[l].waits && s.links[l].child == c
    && (!Closed(s, p) ==> s.links[l].early)
  }

  /** Before the closer of `p` has told the children on the list. */
  predicate BeforeSignals(s: State, p: Pid)
    requires p < |s.procs|
  {
    s.procs[p].closing ==>
      && s.procs[p].closer.Some? && s.procs[p].closer.value < |s.threads|
      && var th := s.threads[s.procs[p].closer.value];
      th.Close? && th.p == p && (th.pc.LoopHead? || th.pc.SignalChild?)
  }

  /** A child that has not been told to close is still on the list of its parent. */
  ghost predicate ChildOk(s: State, l: Lid)
    requires l < |s.links|
  {
    s.links[l].closes ==>
      || Asked(s, s.links[l].child)
      || (s.links[l].parent < |s.procs| && l in s.procs[s.links[l].parent].children
          && BeforeSignals(s, s.links[l].parent))
  }

  ghost predicate Duties(s: State) {
    && (forall t: nat | t < |s.threads| :: ScanOk(s, s.threads[t]))
    && (forall l: nat | l < |s.links| :: ChildOk(s, l))
  }

  // ----- calls keep them -----

  /** A call adds processes, links and threads, and appends to lists. */
  ghost predicate Grows(s: State, s': State) {
    && |s.procs| <= |s'.procs| && s.links <= s'.links && s.threads <= s'.threads
    && forall p: nat | p < |s.procs| ::
         && s'.procs[p].closing == s.procs[p].closing && s'.procs[p].closed == s.procs[p].closed
         && s'.procs[p].closer == s.procs[p].closer
         && s.procs[p].children <= s'.procs[p].children && s.procs[p].waitfors <= s'.procs[p].waitfors
  }

  lemma GrowsAsked(s: State, s': State, c: Pid)
    requires Grows(s, s') && Asked(s, c)
    ensures Asked(s', c)
  {
    if !(c < |s.procs| && s.procs[c].closing) {
      var t: nat :| t < |s.threads| && WillClose(s.threads[t], c);
      assert s'.threads[t] == s.threads[t];
    }
  }

  lemma GrowsScan(s: State, s': State, th: Thread)
    requires Grows(s, s') && ScanOk(s, th)
    ensures ScanOk(s', th)
  {
    match th
    case CacScan(p, i) =>
      forall j: nat | j < i
        ensures s'.procs[p].waitfors[j] < |s'.links| && Closed(s', s'.links[s'.procs[p].waitfors[j]].child)
      {
        var l := s.procs[p].waitfors[j];
        assert s'.procs[p].waitfors[j] == l && s'.links[l] == s.links[l];
      }
    case CacAwait(p, c) =>
      var l: nat :| AwaitedBy(s, l, p, c);
      assert s'.links[l] == s.links[l] && AwaitedBy(s', l, p, c);
    case _ =>
  }

  lemma GrowsChild(s: State, s': State, l: Lid)
    requires Grows(s, s') && l < |s.links| && ChildOk(s, l)
    ensures ChildOk(s', l)
  {
    hide Asked;
    var k := s.links[l];
    assert s'.links[l] == k;
    if k.closes && Asked(s, k.child) {
      GrowsAsked(s, s', k.child);
    } else if k.closes {
      var pr := s.procs[k.parent];
      if pr.closing {
        assert s'.threads[pr.closer.value] == s.threads[pr.closer.value];
      }
      assert forall x | x in pr.children :: x in s'.procs[k.parent].children;
    }
  }

  lemma CallKeepsDuties(s: State, s': State)
    requires Duties(s) && Grows(s, s')
    requires forall t: nat | |s.threads| <= t < |s'.threads| ::
               !s'.threads[t].CacScan? && !s'.threads[t].CacAwait?
    requires forall l: nat | |s.links| <= l < |s'.links| :: ChildOk(s', l)
    ensures Duties(s')
  {
    hide Grows, ChildOk;
    forall t: nat | t < |s'.threads|
      ensures ScanOk(s', s'.threads[t])
    {
      if t < |s.threads| {
        assert s'.threads[t] == s.threads[t] by { SameThread(s, s', t); }
        GrowsScan(s, s', s.threads[t]);
      }
    }
    forall l: nat | l < |s'.links|
      ensures ChildOk(s', l)
    {
      if l < |s.links| {
        GrowsChild(s, s', l);
      }
    }
  }

  lemma SameThread(s: State, s': State, t: Tid)
    requires Grows(s, s') && t < |s.threads|
    ensures s'.threads[t] == s.threads[t]
  {
  }

  lemma NewLinkOk(s: State, p: Pid, q: Pid, waits: bool, closes: bool)
    requires p < |s.procs|
    ensures |Register(s, p, q, waits, closes).links| == |s.links| + 1
    ensures ChildOk(Register(s, p, q, waits, closes), |s.links|)
  {
    var s' := Register(s, p, q, waits, closes);
    if closes {
      if s.procs[p].closing {
        assert WillClose(s'.threads[|s.threads|], q);
      } else {
        assert s'.procs[p].children[|s.procs[p].children|] == |s.links|;
      }
    }
  }

  lemma RegisterDuties(s: State, p: Pid, q: Pid, waits: bool, closes: bool)
    requires Duties(s) && p < |s.procs|
    ensures Duties(Register(s, p, q, waits, closes))
  {
    NewLinkOk(s, p, q, waits, closes);
    hide Duties, ChildOk;
    CallKeepsDuties(s, Register(s, p, q, waits, closes));
  }

  lemma GoDuties(s: State, p: Pid)
    requires Duties(s) && p < |s.procs|
    ensures Duties(GoStep(s, p))
  {
    hide Duties;
    var c := |s.procs|;
    var w := c + 1;
    var s1 := Spawn(s.(procs := s.procs + [NewProcess(None)] + [NewProcess(Some(c))]), Run(c, w));
    CallKeepsDuties(s, s1);
    var s2 := Register(s1, c, w, true, false);
    RegisterDuties(s1, c, w, true, false);
    var s3 := PutProc(s2, c, s2.procs[c].(function_ := Running(|s.links|)));
    CallKeepsDuties(s2, s3);
    RegisterDuties(s3, p, c, true, true);
  }

  // ----- steps keep them -----

  /** Thread steps change neither the ends nor the kinds of links. */
  lemma SameLinks(s: State, t: Tid, err: Err)
    requires StepEnabled(s, t)
    ensures var s' := ThreadStep(s, t, err);
            && |s'.links| == |s.links|
            && forall l: nat | l < |s.links| ::
                 s'.links[l].(cleared := s.links[l].cleared, starting := s.links[l].starting) == s.links[l]
  {
  }

  /** Nor do they make processes, reopen them, or start closing two at once. */
  lemma SameProcs(s: State, t: Tid, err: Err)
    requires StepEnabled(s, t)
    ensures var s' := ThreadStep(s, t, err);
            && |s'.procs| == |s.procs|
            && forall p: nat | p < |s.procs| ::
                 && (s.procs[p].closed ==> s'.procs[p].closed) && (s.procs[p].closing ==> s'.procs[p].closing)
                 && (s'.procs[p].closed && !s.procs[p].closed ==>
                       s.threads[t].Close? && s.threads[t].p == p && s.threads[t].pc.Signal?)
                 && (s'.procs[p].closing && !s.procs[p].closing ==>
                       s.threads[t].Close? && s.threads[t].p == p && s.threads[t].pc.Enter?)
  {
  }

  /** Lists of children and waits are only taken by a closer at the end of its signals. */
  lemma SameLists(s: State, t: Tid, err: Err, p: Pid)
    requires StepEnabled(s, t) && p < |s.procs|
    requires !(s.threads[t].Close? && s.threads[t].p == p && s.threads[t].pc.SignalChild?)
    ensures p < |ThreadStep(s, t, err).procs|
    ensures ThreadStep(s, t, err).procs[p].children == s.procs[p].children
    ensures ThreadStep(s, t, err).procs[p].waitfors == s.procs[p].waitfors
  {
  }

  lemma OtherThread(s: State, t: Tid, err: Err, u: Tid)
    requires StepEnabled(s, t) && u < |s.threads| && u != t
    ensures u < |ThreadStep(s, t, err).threads| && ThreadStep(s, t, err).threads[u] == s.threads[u]
  {
  }

  lemma StepKeepsAsked(s: State, t: Tid, err: Err, c: Pid)
    requires Inv(s) && StepEnabled(s, t) && Asked(s, c)
    ensures Asked(ThreadStep(s, t, err), c)
  {
    hide Inv, ThreadStep, WillClose;
    var s' := ThreadStep(s, t, err);
    SameProcs(s, t, err);
    if !(c < |s.procs| && s.procs[c].closing) {
      var u: nat :| u < |s.threads| && WillClose(s.threads[u], c);
      if u == t {
        AskerMoves(s, t, err, c);
      } else {
        OtherThread(s, t, err, u);
        assert WillClose(s'.threads[u], c);
      }
    }
  }

  /** A thread that is about to close `c` starts to, or its function has returned and it is about to. */
  lemma AskerMoves(s: State, t: Tid, err: Err, c: Pid)
    requires StepEnabled(s, t) && WillClose(s.threads[t], c)
    ensures Asked(ThreadStep(s, t, err), c)
  {
    var s' := ThreadStep(s, t, err);
    assert s.threads[t].Run? ==> WillClose(s'.threads[t], c);
  }

  lemma ScanKept(s: State, t: Tid, err: Err, u: Tid)
    requires Inv(s) && StepEnabled(s, t) && u < |s.threads| && u != t && ScanOk(s, s.threads[u])
    ensures ScanOk(ThreadStep(s, t, err), s.threads[u])
  {
    hide Inv, ThreadStep;
    var s' := ThreadStep(s, t, err);
    SameLinks(s, t, err);
    SameProcs(s, t, err);
    match s.threads[u]
    case CacScan(p, i) =>
      ScanHolds(s, t, u);
      SameLists(s, t, err, p);
      assert forall l: nat | l < |s.links| :: s'.links[l].child == s.links[l].child;
    case CacAwait(p, c) =>
      var l: nat :| AwaitedBy(s, l, p, c);
      assert AwaitedBy(s', l, p, c);
    case _ =>
  }

  lemma ScanHolds(s: State, t: Tid, u: Tid)
    requires Inv(s) && StepEnabled(s, t) && u < |s.threads| && u != t && s.threads[u].CacScan?
    ensures s.threads[u].p < |s.procs|
    ensures !(s.threads[t].Close? && s.threads[t].p == s.threads[u].p && s.threads[t].pc.SignalChild?)
  {
    assert ThreadOk(s, u) && ThreadOk(s, t);
  }

  /** The thread that moved, and the one it may have started. */
  lemma ScanMoved(s: State, t: Tid, err: Err, u: Tid)
    requires Inv(s) && StepEnabled(s, t) && ScanOk(s, s.threads[t])
    requires u < |ThreadStep(s, t, err).threads| && (u == t || u >= |s.threads|)
    ensures ScanOk(ThreadStep(s, t, err), ThreadStep(s, t, err).threads[u])
  {
    if s.threads[t].CacScan? {
      ScanStep(s, t, err, u);
    } else {
      NoScanStep(s, t, err, u);
    }
  }

  lemma NoScanStep(s: State, t: Tid, err: Err, u: Tid)
    requires StepEnabled(s, t) && !s.threads[t].CacScan?
    requires u < |ThreadStep(s, t, err).threads| && (u == t || u >= |s.threads|)
    ensures ScanOk(ThreadStep(s, t, err), ThreadStep(s, t, err).threads[u])
  {
    hide AwaitedBy;
  }

  lemma ScanStep(s: State, t: Tid, err: Err, u: Tid)
    requires Inv(s) && StepEnabled(s, t) && ScanOk(s, s.threads[t]) && s.threads[t].CacScan?
    requires u < |ThreadStep(s, t, err).threads| && (u == t || u >= |s.threads|)
    ensures ScanOk(ThreadStep(s, t, err), ThreadStep(s, t, err).threads[u])
  {
    var s', p, i := ThreadStep(s, t, err), s.threads[t].p, s.threads[t].i;
    assert ProcOk(s, p);
    if i < |s.procs[p].waitfors| {
      var l := s.procs[p].waitfors[i];
      assert WaitforOk(s, p, l);
      assert LinkOk(s, l);
      hide Inv, ProcOk, LinkOk, Asked;
      assert AwaitedBy(s', l, p, s.links[l].child);
    }
  }

  lemma ChildKept(s: State, t: Tid, err: Err, l: Lid)
    requires Inv(s) && StepEnabled(s, t) && l < |s.links| && ChildOk(s, l)
    ensures l < |ThreadStep(s, t, err).links| && ChildOk(ThreadStep(s, t, err), l)
  {
    hide Inv, ThreadStep, Asked;
    var s', k := ThreadStep(s, t, err), s.links[l];
    SameLinks(s, t, err);
    assert s'.links[l].closes == k.closes && s'.links[l].child == k.child && s'.links[l].parent == k.parent;
    if k.closes && Asked(s, k.child) {
      StepKeepsAsked(s, t, err, k.child);
    } else if k.closes {
      ListedKept(s, t, err, l);
    }
  }

  /** A child on the list stays there, or is told to close. */
  lemma ListedKept(s: State, t: Tid, err: Err, l: Lid)
    requires Inv(s) && StepEnabled(s, t) && l < |s.links| && s.links[l].closes && ChildOk(s, l)
    requires !Asked(s, s.links[l].child)
    ensures var s', p := ThreadStep(s, t, err), s.links[l].parent;
            || Asked(s', s.links[l].child)
            || (p < |s'.procs| && l in s'.procs[p].children && BeforeSignals(s', p))
  {
    hide Inv, Asked;
    var p, th := s.links[l].parent, s.threads[t];
    assert p < |s.procs| && l in s.procs[p].children;
    if th.Close? && th.p == p && (th.pc.SignalChild? || th.pc.LoopHead? || th.pc.Enter?) {
      ListedBySelf(s, t, err, l);
    } else {
      ListedByOther(s, t, err, l);
    }
  }

  lemma ListedBySelf(s: State, t: Tid, err: Err, l: Lid)
    requires Inv(s) && StepEnabled(s, t) && l < |s.links| && !Asked(s, s.links[l].child)
    requires var p := s.links[l].parent; p < |s.procs| && l in s.procs[p].children && BeforeSignals(s, p)
    requires s.threads[t].Close? && s.threads[t].p == s.links[l].parent
    requires s.threads[t].pc.SignalChild? || s.threads[t].pc.LoopHead? || s.threads[t].pc.Enter?
    ensures var s', p := ThreadStep(s, t, err), s.links[l].parent;
            p < |s'.procs| && l in s'.procs[p].children && BeforeSignals(s', p)
  {
    var p, pc := s.links[l].parent, s.threads[t].pc;
    assert ThreadOk(s, t);
    hide Inv, Asked;
    if pc.SignalChild? {
      var j: nat :| j < |s.procs[p].children| && s.procs[p].children[j] == l;
      assert pc.i <= j;
    }
  }

  lemma ListedByOther(s: State, t: Tid, err: Err, l: Lid)
    requires Inv(s) && StepEnabled(s, t) && l < |s.links|
    requires var p := s.links[l].parent; p < |s.procs| && l in s.procs[p].children && BeforeSignals(s, p)
    requires var th := s.threads[t];
             !(th.Close? && th.p == s.links[l].parent && (th.pc.SignalChild? || th.pc.LoopHead? || th.pc.Enter?))
    ensures var s', p := ThreadStep(s, t, err), s.links[l].parent;
            p < |s'.procs| && l in s'.procs[p].children && BeforeSignals(s', p)
  {
    hide Inv;
    var p := s.links[l].parent;
    SameLists(s, t, err, p);
    SameCloser(s, t, err, p);
    hide ThreadStep;
    if s.procs[p].closing {
      OtherThread(s, t, err, s.procs[p].closer.value);
    }
  }

  lemma SameCloser(s: State, t: Tid, err: Err, p: Pid)
    requires StepEnabled(s, t) && p < |s.procs|
    requires !(s.threads[t].Close? && s.threads[t].p == p && s.threads[t].pc.Enter?)
    ensures p < |ThreadStep(s, t, err).procs|
    ensures ThreadStep(s, t, err).procs[p].closer == s.procs[p].closer
    ensures ThreadStep(s, t, err).procs[p].closing == s.procs[p].closing
  {
  }

  lemma StepDuties(s: State, t: Tid, err: Err)
    requires Inv(s) && Duties(s) && StepEnabled(s, t)
    ensures Duties(ThreadStep(s, t, err))
  {
    hide Inv, ThreadStep, ScanOk, ChildOk;
    var s' := ThreadStep(s, t, err);
    forall u: nat | u < |s'.threads|
      ensures ScanOk(s', s'.threads[u])
    {
      if u == t || u >= |s.threads| {
        ScanMoved(s, t, err, u);
      } else {
        OtherThread(s, t, err, u);
        ScanKept(s, t, err, u);
      }
    }
    SameLinks(s, t, err);
    forall l: nat | l < |s'.links|
      ensures ChildOk(s', l)
    {
      ChildKept(s, t, err, l);
    }
  }

  lemma NextDuties(s: State, a: Action)
    requires Inv(s) && Duties(s) && Enabled(s, a)
    ensures Duties(Next(s, a))
  {
    hide Inv, Duties, ThreadStep, GoStep, Register;
    match a
    case Step(t, err) => StepDuties(s, t, err);
    case New => CallKeepsDuties(s, Next(s, a));
    case CallClose(p) => CallKeepsDuties(s, Next(s, a));
    case CallCloseAfterChildren(p) => CallKeepsDuties(s, Next(s, a));
    case WaitFor(p, q) => RegisterDuties(s, p, q, true, false);
    case AddChildNoWait(p, q) => RegisterDuties(s, p, q, false, true);
    case AddChild(p, q) => RegisterDuties(s, p, q, true, true);
    case Go(p) => GoDuties(s, p);
  }

  lemma {:induction false} RunDuties(s: State, actions: seq<Action>, s': State)
    requires Inv(s) && Duties(s) && IsRun(s, actions, s')
    ensures Duties(s')
    decreases |actions|
  {
    hide Inv, Duties, Next, Enabled;
    if actions != [] {
      NextKeeps(s, actions[0]);
      NextDuties(s, actions[0]);
      RunDuties(Next(s, actions[0]), actions[1..], s');
    }
  }

  lemma ReachableDuties(s: State)
    requires Reachable(s)
    ensures Inv(s) && Duties(s)
  {
    ReachableInv(s);
    var actions: seq<Action> :| IsRun(START, actions, s);
    assert Inv(START) && Duties(START);
    hide Inv, Duties, IsRun;
    RunDuties(START, actions, s);
  }

  // ----- traps -----

  /** `p` waits for one of `open`. */
  ghost predicate WaitsOn(s: State, p: Pid, open: set<Pid>) {
    exists l: nat :: l < |s.links| && Binds(s.links[l], p) && s.links[l].child in open
  }

  /** The thread does not close `q`: it is not about it, or it first waits for one of `open`. */
  ghost predicate Leaves(s: State, th: Thread, q: Pid, open: set<Pid>) {
    match th
    case Close(p, _, andThen) => p != q && (andThen == Some(q) ==> p in open || WaitsOn(s, q, open))
    case CacEnter(p) => p == q ==> WaitsOn(s, q, open)
    case CacLock(p) => p == q ==> WaitsOn(s, q, open)
    case CacScan(p, _) => p == q ==> WaitsOn(s, q, open)
    case CacAwait(p, _) => p == q ==> WaitsOn(s, q, open)
    case Run(c, w) => w != q && (c == q ==> w in open || WaitsOn(s, q, open))
    case _ => true
  }

  /** Nobody tells `q` to close: no thread does, and its parents are not told to close either. */
  ghost predicate Untold(s: State, q: Pid, open: set<Pid>, idle: set<Pid>) {
    && q < |s.procs| && !s.procs[q].closing
    && (forall t: nat | t < |s.threads| :: Leaves(s, s.threads[t], q, open))
    && (forall l: nat | l < |s.links| && s.links[l].closes && s.links[l].child == q :: s.links[l].parent in idle)
  }

  /** Open processes, each of which is never told to close or waits for another one of them. */
  ghost predicate Trap(s: State, open: set<Pid>, idle: set<Pid>) {
    && (forall p | p in open :: p < |s.procs| && !s.procs[p].closed && (p in idle || WaitsOn(s, p, open)))
    && (forall q | q in idle :: Untold(s, q, open, idle))
  }

  ghost predicate Trapped(s: State, p: Pid) {
    exists open: set<Pid>, idle: set<Pid> :: Trap(s, open, idle) && p in open
  }

  lemma SameWaits(s: State, t: Tid, err: Err, p: Pid, open: set<Pid>)
    requires StepEnabled(s, t)
    ensures WaitsOn(ThreadStep(s, t, err), p, open) <==> WaitsOn(s, p, open)
  {
    hide ThreadStep;
    var s' := ThreadStep(s, t, err);
    SameLinks(s, t, err);
    assert forall l: nat | l < |s.links| ::
        s'.links[l].child == s.links[l].child && (Binds(s'.links[l], p) <==> Binds(s.links[l], p));
  }

  // ----- traps stay -----

  /** No process of a trap is closed by a step. */
  lemma StaysOpen(s: State, t: Tid, err: Err, open: set<Pid>, idle: set<Pid>, p: Pid)
    requires Inv(s) && StepEnabled(s, t) && Trap(s, open, idle) && p in open
    ensures p < |ThreadStep(s, t, err).procs| && !ThreadStep(s, t, err).procs[p].closed
  {
    SameProcs(s, t, err);
    assert p in idle ==> Untold(s, p, open, idle) && Leaves(s, s.threads[t], p, open);
    if p !in idle {
      var l: nat :| l < |s.links| && Binds(s.links[l], p) && s.links[l].child in open;
      assert !EarlyClosed(s, p);
    }
    assert ThreadOk(s, t);
    hide ThreadStep;
  }

  /** Nor does a thread start to close one that is not told to. */
  lemma StaysLeft(s: State, t: Tid, err: Err, open: set<Pid>, idle: set<Pid>, q: Pid, u: Tid)
    requires Inv(s) && Duties(s) && StepEnabled(s, t) && Trap(s, open, idle) && q in idle
    requires u < |ThreadStep(s, t, err).threads| && (u == t || u >= |s.threads|)
    ensures Leaves(s, ThreadStep(s, t, err).threads[u], q, open)
  {
    assert Untold(s, q, open, idle) && Leaves(s, s.threads[t], q, open);
    assert ThreadOk(s, t);
    if s.threads[t].Close? {
      CloseLeaves(s, t, err, open, idle, q, u);
    } else if s.threads[t].CacScan? && s.threads[t].p == q {
      ScanLeaves(s, t, err, open, idle, q);
    } else {
      assert ProcOk(s, q);
      hide Inv, Duties;
    }
  }

  lemma CloseLeaves(s: State, t: Tid, err: Err, open: set<Pid>, idle: set<Pid>, q: Pid, u: Tid)
    requires Inv(s) && StepEnabled(s, t) && Trap(s, open, idle) && q in idle && s.threads[t].Close?
    requires Untold(s, q, open, idle) && Leaves(s, s.threads[t], q, open)
    requires u < |ThreadStep(s, t, err).threads| && (u == t || u >= |s.threads|)
    ensures Leaves(s, ThreadStep(s, t, err).threads[u], q, open)
  {
    var p := s.threads[t].p;
    assert ThreadOk(s, t) && ProcOk(s, p);
    if u == t {
      assert p in open ==> !s.procs[p].closed;
      hide *;
      MovedLeaves(s, t, err, open, q);
    } else {
      hide Inv, Untold;
      NotIdle(s, t, open, idle);
      hide *;
      StartedLeaves(s, t, err, open, idle, q, u);
    }
  }

  lemma NotIdle(s: State, t: Tid, open: set<Pid>, idle: set<Pid>)
    requires Trap(s, open, idle) && t < |s.threads| && s.threads[t].Close?
    ensures s.threads[t].p !in idle
  {
    forall q | q in idle
      ensures s.threads[t].p != q
    {
      assert Untold(s, q, open, idle) && Leaves(s, s.threads[t], q, open);
    }
  }

  lemma MovedLeaves(s: State, t: Tid, err: Err, open: set<Pid>, q: Pid)
    requires StepEnabled(s, t) && s.threads[t].Close? && ThreadOk(s, t) && Leaves(s, s.threads[t], q, open)
    requires s.threads[t].p in open ==> !Closed(s, s.threads[t].p)
    ensures t < |ThreadStep(s, t, err).threads| && Leaves(s, ThreadStep(s, t, err).threads[t], q, open)
  {
    hide EarlyClosed, WaitsOk, WaitsOn;
  }

  /** A closer tells only its own children to close. */
  lemma StartedLeaves(s: State, t: Tid, err: Err, open: set<Pid>, idle: set<Pid>, q: Pid, u: Tid)
    requires StepEnabled(s, t) && s.threads[t].Close? && Untold(s, q, open, idle)
    requires var p := s.threads[t].p; p < |s.procs| && p !in idle && ListsOk(s, p)
    requires |s.threads| <= u < |ThreadStep(s, t, err).threads|
    ensures Leaves(s, ThreadStep(s, t, err).threads[u], q, open)
  {
    hide WaitforOk;
  }

  /** A scan does not pass an open child. */
  lemma ScanLeaves(s: State, t: Tid, err: Err, open: set<Pid>, idle: set<Pid>, q: Pid)
    requires Inv(s) && Duties(s) && StepEnabled(s, t) && Trap(s, open, idle) && q in idle
    requires s.threads[t].CacScan? && s.threads[t].p == q && WaitsOn(s, q, open) && !s.procs[q].closing
    ensures |ThreadStep(s, t, err).threads| == |s.threads|
    ensures Leaves(s, ThreadStep(s, t, err).threads[t], q, open)
  {
    var l: nat :| l < |s.links| && Binds(s.links[l], q) && s.links[l].child in open;
    assert LinkOk(s, l) && ProcOk(s, q) && ScanOk(s, s.threads[t]);
    assert l in s.procs[q].waitfors;
    var j: nat :| j < |s.procs[q].waitfors| && s.procs[q].waitfors[j] == l;
    assert j >= s.threads[t].i;
    hide Inv, Duties, Trap;
  }

  lemma TrapStays(s: State, t: Tid, err: Err, open: set<Pid>, idle: set<Pid>)
    requires Inv(s) && Duties(s) && StepEnabled(s, t) && Trap(s, open, idle)
    ensures Trap(ThreadStep(s, t, err), open, idle)
  {
    hide Inv, Duties, ThreadStep, Untold, WaitsOn;
    var s' := ThreadStep(s, t, err);
    forall p | p in open
      ensures p < |s'.procs| && !s'.procs[p].closed && (p in idle || WaitsOn(s', p, open))
    {
      StaysOpen(s, t, err, open, idle, p);
      SameWaits(s, t, err, p, open);
    }
    forall q | q in idle
      ensures Untold(s', q, open, idle)
    {
      UntoldStays(s, t, err, open, idle, q);
    }
  }

  lemma UntoldStays(s: State, t: Tid, err: Err, open: set<Pid>, idle: set<Pid>, q: Pid)
    requires Inv(s) && Duties(s) && StepEnabled(s, t) && Trap(s, open, idle) && q in idle
    ensures Untold(ThreadStep(s, t, err), q, open, idle)
  {
    hide Inv, Duties, ThreadStep, WaitsOn, Trap;
    var s' := ThreadStep(s, t, err);
    assert Untold(s, q, open, idle) by { TrapUntold(s, open, idle, q); }
    assert Leaves(s, s.threads[t], q, open);
    SameProcs(s, t, err);
    SameLinks(s, t, err);
    SameWaits(s, t, err, q, open);
    forall u: nat | u < |s'.threads|
      ensures Leaves(s', s'.threads[u], q, open)
    {
      if u == t || u >= |s.threads| {
        StaysLeft(s, t, err, open, idle, q, u);
      } else {
        OtherThread(s, t, err, u);
        assert Leaves(s, s.threads[u], q, open);
      }
    }
    assert forall l: nat | l < |s.links| ::
        && s'.links[l].closes == s.links[l].closes
        && s'.links[l].child == s.links[l].child && s'.links[l].parent == s.links[l].parent;
  }

  lemma TrapUntold(s: State, open: set<Pid>, idle: set<Pid>, q: Pid)
    requires Trap(s, open, idle) && q in idle
    ensures Untold(s, q, open, idle)
  {
  }

  // ----- traps were there before -----

  /** A thread that leaves `q` alone after a step did so before. */
  lemma WasLeft(s: State, t: Tid, err: Err, open: set<Pid>, q: Pid)
    requires Inv(s) && StepEnabled(s, t) && q < |s.procs|
    requires q < |ThreadStep(s, t, err).procs| && !ThreadStep(s, t, err).procs[q].closing
    requires t < |ThreadStep(s, t, err).threads| && Leaves(s, ThreadStep(s, t, err).threads[t], q, open)
    ensures Leaves(s, s.threads[t], q, open)
  {
    SameProcs(s, t, err);
    assert ThreadOk(s, t);
    assert ProcOk(s, q);
    assert !s.procs[q].closed && !s.procs[q].closing;
    hide Inv, ProcOk, EarlyClosed, WaitsOk, WaitsOn;
    if s.threads[t].Close? {
      CloseWasLeft(s, t, err, open, q);
    }
  }

  lemma CloseWasLeft(s: State, t: Tid, err: Err, open: set<Pid>, q: Pid)
    requires StepEnabled(s, t) && q < |s.procs| && !s.procs[q].closing && s.threads[t].Close? && ThreadOk(s, t)
    requires q < |ThreadStep(s, t, err).procs| && !ThreadStep(s, t, err).procs[q].closing
    requires t < |ThreadStep(s, t, err).threads| && Leaves(s, ThreadStep(s, t, err).threads[t], q, open)
    ensures Leaves(s, s.threads[t], q, open)
  {
    hide EarlyClosed, WaitsOk, WaitsOn;
  }

  lemma TrapWas(s: State, t: Tid, err: Err, open: set<Pid>, idle: set<Pid>)
    requires Inv(s) && StepEnabled(s, t) && Trap(ThreadStep(s, t, err), open, idle)
    ensures Trap(s, open, idle)
  {
    hide Inv, ThreadStep, Untold, WaitsOn;
    var s' := ThreadStep(s, t, err);
    SameProcs(s, t, err);
    forall p | p in open
      ensures p < |s.procs| && !s.procs[p].closed && (p in idle || WaitsOn(s, p, open))
    {
      SameWaits(s, t, err, p, open);
    }
    forall q | q in idle
      ensures Untold(s, q, open, idle)
    {
      UntoldWas(s, t, err, open, idle, q);
    }
  }

  lemma UntoldWas(s: State, t: Tid, err: Err, open: set<Pid>, idle: set<Pid>, q: Pid)
    requires Inv(s) && StepEnabled(s, t) && Untold(ThreadStep(s, t, err), q, open, idle)
    ensures Untold(s, q, open, idle)
  {
    hide Inv, ThreadStep, WaitsOn;
    var s' := ThreadStep(s, t, err);
    SameProcs(s, t, err);
    SameLinks(s, t, err);
    SameWaits(s, t, err, q, open);
    MovedThread(s, t, err);
    forall u: nat | u < |s.threads|
      ensures Leaves(s, s.threads[u], q, open)
    {
      if u == t {
        assert Leaves(s', s'.threads[t], q, open);
        WasLeft(s, t, err, open, q);
      } else {
        OtherThread(s, t, err, u);
        assert Leaves(s', s'.threads[u], q, open);
      }
    }
    assert forall l: nat | l < |s.links| ::
        && s'.links[l].closes == s.links[l].closes
        && s'.links[l].child == s.links[l].child && s'.links[l].parent == s.links[l].parent;
  }

  lemma MovedThread(s: State, t: Tid, err: Err)
    requires StepEnabled(s, t)
    ensures t < |ThreadStep(s, t, err).threads|
  {
  }

  // ----- when nothing moves, what is open is a trap -----

  ghost function OpenOnes(s: State): set<Pid> { set p: nat | p < |s.procs| && !s.procs[p].closed }

  ghost function IdleOnes(s: State): set<Pid> { set p: nat | p < |s.procs| && !s.procs[p].closing }

  lemma NoLockHeld(s: State, p: Pid)
    requires Inv(s) && !CanMove(s) && p < |s.procs|
    ensures s.procs[p].lock.None?
  {
    if s.procs[p].lock.Some? {
      HolderMoves(s, p);
    }
  }

  lemma QuietWaits(s: State, p: Pid)
    requires Inv(s) && !CanMove(s) && p < |s.procs| && s.procs[p].closing && !s.procs[p].closed
    ensures WaitsOn(s, p, OpenOnes(s))
  {
    NoLockHeld(s, p);
    assert ProcOk(s, p);
    var t := s.procs[p].closer.value;
    assert ThreadOk(s, t) && !StepEnabled(s, t);
    assert s.threads[t].pc.Await?;
    var l := s.threads[t].pc.wf[0];
    assert Binds(s.links[l], p) && s.links[l].child in OpenOnes(s);
  }

  lemma QuietLeaves(s: State, t: Tid, q: Pid)
    requires Inv(s) && Duties(s) && !CanMove(s) && t < |s.threads| && q in IdleOnes(s)
    ensures Leaves(s, s.threads[t], q, OpenOnes(s))
  {
    assert ThreadOk(s, t) && !StepEnabled(s, t) && ScanOk(s, s.threads[t]);
    NoLockHeld(s, q);
    match s.threads[t]
    case Close(p, pc, andThen) =>
      NoLockHeld(s, p);
      assert ProcOk(s, p);
      hide Inv, Duties, Asked, EarlyClosed, WaitforOk, PrivateOk, Logged;
    case CacAwait(p, c) =>
      if p == q {
        assert ProcOk(s, q);
        var l: nat :| AwaitedBy(s, l, p, c);
        assert Binds(s.links[l], p) && s.links[l].child in OpenOnes(s);
      }
    case CacScan(p, i) =>
      assert ProcOk(s, p);
    case _ =>
  }

  lemma QuietParents(s: State, l: Lid)
    requires Inv(s) && Duties(s) && !CanMove(s) && l < |s.links| && s.links[l].closes
    requires s.links[l].child in IdleOnes(s)
    ensures s.links[l].parent in IdleOnes(s)
  {
    var p, c := s.links[l].parent, s.links[l].child;
    assert LinkOk(s, l) && ChildOk(s, l) && ProcOk(s, p);
    NoLockHeld(s, c);
    forall t: nat | t < |s.threads|
      ensures !WillClose(s.threads[t], c)
    {
      assert ThreadOk(s, t) && !StepEnabled(s, t);
    }
    assert s.procs[p].closer.Some? ==> !StepEnabled(s, s.procs[p].closer.value);
    assert !Asked(s, c);
  }

  lemma QuietTrap(s: State)
    requires Inv(s) && Duties(s) && !CanMove(s)
    ensures Trap(s, OpenOnes(s), IdleOnes(s))
  {
    hide Inv, Duties, CanMove, WaitsOn, Leaves;
    forall p | p in OpenOnes(s) && p !in IdleOnes(s)
      ensures WaitsOn(s, p, OpenOnes(s))
    {
      QuietWaits(s, p);
    }
    forall t: nat, q | t < |s.threads| && q in IdleOnes(s)
      ensures Leaves(s, s.threads[t], q, OpenOnes(s))
    {
      QuietLeaves(s, t, q);
    }
    forall l: nat | l < |s.links| && s.links[l].closes && s.links[l].child in IdleOnes(s)
      ensures s.links[l].parent in IdleOnes(s)
    {
      QuietParents(s, l);
    }
  }

  // ----- the exact condition -----

  /** Every schedule comes to rest, and what is then open was a trap from the start. */
  lemma {:induction false} ComesToRest(s: State, pick: (nat, State) -> (Tid, Err), k: nat) returns (n: nat)
    requires Inv(s) && Duties(s) && NonIdling(pick)
    ensures var f := Scheduled(s, pick, k, n);
            |f.procs| == |s.procs| && Trap(s, OpenOnes(f), IdleOnes(f))
    decreases Major(s), Minor(s)
  {
    hide Inv, Duties, Major, Minor, Trap, ThreadStep;
    var (t, err) := pick(k, s);
    if !StepEnabled(s, t) {
      n := 0;
      assert !CanMove(s);
      QuietTrap(s);
    } else {
      var s' := ThreadStep(s, t, err);
      ThreadStepFalls(s, t, err);
      ThreadStepKeeps(s, t, err);
      StepDuties(s, t, err);
      SameProcs(s, t, err);
      var m := ComesToRest(s', pick, k + 1);
      n := m + 1;
      assert Scheduled(s, pick, k, n) == Scheduled(s', pick, k + 1, m);
      var f := Scheduled(s, pick, k, n);
      TrapWas(s, t, err, OpenOnes(f), IdleOnes(f));
    }
  }

  /** A process in a trap is never closed. */
  lemma {:induction false} NeverCompletes(s: State, p: Pid, open: set<Pid>, idle: set<Pid>,
                                          pick: (nat, State) -> (Tid, Err), k: nat, n: nat)
    requires Inv(s) && Duties(s) && Trap(s, open, idle) && p in open
    ensures !Closed(Scheduled(s, pick, k, n), p)
    decreases n
  {
    assert !Closed(s, p);
    hide Inv, Duties, ThreadStep, Trap;
    var (t, err) := pick(k, s);
    if n > 0 && StepEnabled(s, t) {
      ThreadStepKeeps(s, t, err);
      StepDuties(s, t, err);
      TrapStays(s, t, err, open, idle);
      NeverCompletes(ThreadStep(s, t, err), p, open, idle, pick, k + 1, n - 1);
    }
  }

  /** Without further calls the threads close `p`, whatever the scheduler, exactly when it is in no trap. */
  lemma ShutdownIff(s: State, p: Pid, pick: (nat, State) -> (Tid, Err))
    requires Reachable(s) && p < |s.procs| && NonIdling(pick)
    ensures Finishes(s, p, pick) <==> !Trapped(s, p)
  {
    ReachableDuties(s);
    hide Inv, Duties, Trap, Reachable, NonIdling, Scheduled;
    if Trapped(s, p) {
      var open: set<Pid>, idle: set<Pid> :| Trap(s, open, idle) && p in open;
      forall n: nat
        ensures !Closed(Scheduled(s, pick, 0, n), p)
      {
        NeverCompletes(s, p, open, idle, pick, 0, n);
      }
    } else {
      var n := ComesToRest(s, pick, 0);
      var f := Scheduled(s, pick, 0, n);
      assert p !in OpenOnes(f);
      assert Closed(f, p);
    }
  }

  // ----- a condition on the graph that is enough -----

  lemma UntoldNotAsked(s: State, q: Pid, open: set<Pid>, idle: set<Pid>)
    requires Untold(s, q, open, idle)
    ensures !Asked(s, q)
  {
    forall t: nat | t < |s.threads|
      ensures !WillClose(s.threads[t], q)
    {
      assert Leaves(s, s.threads[t], q, open);
    }
  }

  /** Whoever a process waits for and will be told to close has been told, or is told by that process. */
  lemma ToldOrChild(s: State, l: Lid)
    requires Inv(s) && l < |s.links| && WillBeAsked(s, l) && Binds(s.links[l], s.links[l].parent)
    requires !Closed(s, s.links[l].child)
    ensures s.links[l].closes || Asked(s, s.links[l].child)
  {
    var p, c := s.links[l].parent, s.links[l].child;
    assert LinkOk(s, l) && ProcOk(s, p);
    if !s.links[l].closes {
      if l in s.procs[p].waitfors {
        assert WaitforOk(s, p, l);
      } else if !Asked(s, c) {
        PendingAsked(s, p, l);
      }
    }
  }

  lemma ChildNotIdle(s: State, l: Lid, open: set<Pid>, idle: set<Pid>)
    requires Inv(s) && Trap(s, open, idle) && l < |s.links| && WillBeAsked(s, l)
    requires Binds(s.links[l], s.links[l].parent) && s.links[l].parent !in idle && s.links[l].child in open
    ensures s.links[l].child !in idle
  {
    var c := s.links[l].child;
    ToldOrChild(s, l);
    hide Inv, Asked;
    if c in idle {
      UntoldNotAsked(s, c, open, idle);
    }
  }

  lemma PendingAsked(s: State, p: Pid, l: Lid)
    requires Inv(s) && p < |s.procs| && s.procs[p].closer.Some? && s.procs[p].closer.value < |s.threads|
    requires l in Pending(s.threads[s.procs[p].closer.value]) && l < |s.links| && s.links[l].parent == p
    requires s.links[l].child < |s.procs| && MustAsk(s, s.links[l])
    ensures Asked(s, s.links[l].child)
  {
    var t := s.procs[p].closer.value;
    assert ThreadOk(s, t);
    var wf := Pending(s.threads[t]);
    var i: nat :| i < |wf| && wf[i] == l;
    assert s.threads[t].p < |s.procs| && WaitsOk(s, s.threads[t].p, wf);
  }

  lemma {:induction false} NotInTrap(s: State, p: Pid, rank: Pid -> nat, open: set<Pid>, idle: set<Pid>)
    requires Inv(s) && AskedBelow(s, p) && Acyclic(s, rank) && Trap(s, open, idle) && p !in idle
    ensures p !in open
    decreases rank(p)
  {
    if p in open {
      var l: nat :| l < |s.links| && Binds(s.links[l], p) && s.links[l].child in open;
      BelowChild(s, p, l);
      ChildNotIdle(s, l, open, idle);
      NotInTrap(s, s.links[l].child, rank, open, idle);
    }
  }

  /** Once somebody has asked for `p` to be closed, and everyone it waits for is or will be asked too, with no
      cycle of waits, then whatever the scheduler, `p` is closed after finitely many steps. */
  lemma ShutdownCompletes(s: State, p: Pid, rank: Pid -> nat, pick: (nat, State) -> (Tid, Err))
    requires Reachable(s) && AskedBelow(s, p) && Acyclic(s, rank) && p < |s.procs| && Asked(s, p) && NonIdling(pick)
    ensures Finishes(s, p, pick)
  {
    ReachableInv(s);
    ShutdownIff(s, p, pick);
    hide Inv, AskedBelow, Acyclic, Asked, Reachable, NonIdling, Finishes, Trap;
    if Trapped(s, p) {
      var open: set<Pid>, idle: set<Pid> :| Trap(s, open, idle) && p in open;
      if p in idle {
        TrapUntold(s, open, idle, p);
        UntoldNotAsked(s, p, open, idle);
      }
      NotInTrap(s, p, rank, open, idle);
    }
  }

  /** In particular after a call of Close. */
  lemma CloseCompletes(s: State, p: Pid, rank: Pid -> nat, pick: (nat, State) -> (Tid, Err))
    requires Reachable(s) && AskedBelow(s, p) && Acyclic(s, rank) && NonIdling(pick) && p < |s.procs|
    requires
      || (exists t: nat :: t < |s.threads| && s.threads[t].Close? && s.threads[t].p == p && s.threads[t].pc.Enter?)
      || s.procs[p].closing
    ensures Finishes(s, p, pick)
  {
    assert Asked(s, p) by {
      if !s.procs[p].closing {
        var t: nat :| t < |s.threads| && s.threads[t].Close? && s.threads[t].p == p && s.threads[t].pc.Enter?;
        assert WillClose(s.threads[t], p);
      }
    }
    ShutdownCompletes(s, p, rank, pick);
  }

  // ----- a process that is never closed -----

  /** The state after WaitFor on a process that nobody closes, and a call of Close. */
  function Waiting(): State {
    State([NewProcess(None).(waitfors := [0]), NewProcess(None)], [Link(0, 1, true, false, true, false, true, 0)],
          [AddToChild(0), Close(0, Enter, None)], [])
  }

  lemma WaitingRun()
    ensures IsRun(START, [New, New, WaitFor(0, 1), CallClose(0)], Waiting())
  {
    var p, s := NewProcess(None), Waiting();
    var s1, s2 := State([p], [], [], []), State([p, p], [], [], []);
    var s3 := s.(threads := [AddToChild(0)]);
    var acts := [New, New, WaitFor(0, 1), CallClose(0)];
    assert Next(START, New) == s1 && Next(s1, New) == s2;
    assert Register(s2, 0, 1, true, false) == s3 by {
      assert [] + [0] == [0];
      assert s2.procs[0 := p.(waitfors := [0])] == s3.procs;
    }
    assert Next(s3, CallClose(0)) == s;
    hide Next, Register;
    assert Enabled(s2, acts[2]) && Next(s2, acts[2]) == s3 by { WaitForIsRegister(s2); }
    assert acts[3..] == [CallClose(0)] && acts[3..][1..] == [];
    assert acts[2..][1..] == acts[3..] && acts[1..][1..] == acts[2..];
    assert IsRun(s3, acts[3..], s);
    assert IsRun(s2, acts[2..], s);
  }

  lemma WaitForIsRegister(s: State)
    requires Public(s, 0) && Public(s, 1) && Free(s, 0) && !s.procs[0].closed
    ensures Enabled(s, WaitFor(0, 1)) && Next(s, WaitFor(0, 1)) == Register(s, 0, 1, true, false)
  {
  }

  /** Then the process is to close and never does, whatever the scheduler. */
  lemma WaitForever(pick: (nat, State) -> (Tid, Err))
    requires NonIdling(pick)
    ensures Reachable(Waiting()) && Asked(Waiting(), 0) && !Finishes(Waiting(), 0, pick)
  {
    var s := Waiting();
    WaitingRun();
    assert Reachable(s);
    WaitingTrap();
    hide Trap, Reachable, IsRun, NonIdling, Waiting;
    ShutdownIff(s, 0, pick);
  }

  lemma WaitingTrap()
    ensures Asked(Waiting(), 0) && Trapped(Waiting(), 0)
  {
    var s, open := Waiting(), {0, 1};
    assert WillClose(s.threads[1], 0);
    assert Binds(s.links[0], 0) && s.links[0].child in open;
    assert WaitsOn(s, 0, open) && Untold(s, 1, open, {1});
    hide WaitsOn, Untold;
    assert Trap(s, open, {1}) && 0 in open;
  }
}
