/**
 What every reachable state of the process machine keeps, and what follows for whole runs:
 teardown order, exactly one teardown, one error for all callers, and functions that return first.
 */
module ProcessSafety {
  import opened Options
  import opened Processes

  // ----- the invariant -----

  predicate InDoClose(pc: ClosePc) { !pc.Enter? && !pc.AwaitClosed? }

  predicate HoldsLock(pc: ClosePc) {
    pc.LoopHead? || pc.SignalChild? || pc.NextWait? || pc.Teardown? || pc.Signal? || pc.Unlock?
  }

  /** Thread `th` is inside a lock region of `p`. */
  predicate Holds(th: Thread, p: Pid) {
    || (th.Close? && th.p == p && HoldsLock(th.pc))
    || (th.CacScan? && th.p == p)
  }

  /** What is left to wait for of a taken waitfors list. */
  function Pending(th: Thread): seq<Lid> {
    if th.Close? then
      match th.pc
      case NextWait(wf) => wf
      case Fetch(wf) => wf
      case Await(wf, _) => wf
      case Relock(wf) => wf
      case _ => []
    else []
  }

  /** Thread `th` is about to close `c`, or will when its function returns. */
  predicate WillClose(th: Thread, c: Pid) {
    || (th.Close? && th.p == c && th.pc.Enter?)
    || (th.Run? && th.waitFor == c)
  }

  /** `c` is closing, or some thread will close it. */
  ghost predicate Asked(s: State, c: Pid) {
    || (c < |s.procs| && s.procs[c].closing)
    || exists t: nat :: t < |s.threads| && WillClose(s.threads[t], c)
  }

  /** A parent waits for the child of `k` only after someone was told to close it. */
  predicate MustAsk(s: State, k: Link)
    requires k.child < |s.procs|
  {
    k.closes || s.procs[k.child].owner.Some?
  }

  ghost predicate Logged(s: State, p: Pid) {
    exists i: nat :: i < |s.log| && s.log[i].p == p
  }

  /** A link that makes its parent wait. */
  predicate Binds(k: Link, p: Pid) { k.parent == p && k.waits && k.early }

  ghost predicate EarlyClosed(s: State, p: Pid) {
    forall l: nat | l < |s.links| :: Binds(s.links[l], p) ==> Closed(s, s.links[l].child)
  }

  ghost predicate WaitsOk(s: State, p: Pid, wf: seq<Lid>) {
    forall i: nat | i < |wf| ::
      && wf[i] < |s.links| && Binds(s.links[wf[i]], p) && s.links[wf[i]].child < |s.procs|
      && (MustAsk(s, s.links[wf[i]]) ==> Asked(s, s.links[wf[i]].child))
  }

  /** What holds at each point of doClose. */
  ghost predicate DoCloseOk(s: State, t: Tid, p: Pid, pc: ClosePc)
    requires p < |s.procs|
  {
    var pr := s.procs[p];
    && pr.closer == Some(t) && pr.closing
    && (HoldsLock(pc) ==> pr.lock == Some(t))
    && (!pc.Unlock? ==> !pr.closed)
    && (!pc.Signal? && !pc.Unlock? ==> !Logged(s, p))
    && match pc
       case SignalChild(i) =>
         && i <= |pr.children|
         && forall j: nat | j < i :: pr.children[j] < |s.links| && Asked(s, s.links[pr.children[j]].child)
       case NextWait(wf) => WaitsOk(s, p, wf)
       case Fetch(wf) => wf != [] && WaitsOk(s, p, wf)
       case Await(wf, c) => wf != [] && WaitsOk(s, p, wf) && s.links[wf[0]].child == c
       case Relock(wf) => wf != [] && WaitsOk(s, p, wf) && Closed(s, s.links[wf[0]].child)
       case Teardown => EarlyClosed(s, p)
       case Signal => EarlyClosed(s, p) && Entry(p, pr.closeErr) in s.log
       case Unlock => pr.closed
       case _ => true
  }

  ghost predicate ThreadOk(s: State, t: Tid)
    requires t < |s.threads|
  {
    match s.threads[t]
    case Close(p, pc, andThen) =>
      && p < |s.procs|
      && (andThen.Some? ==> Public(s, andThen.value))
      && (s.procs[p].owner.Some? ==> HasReturned(s, s.procs[p].owner.value))
      && (pc.AwaitClosed? ==> s.procs[p].closing)
      && (InDoClose(pc) ==> DoCloseOk(s, t, p, pc))
    case CacEnter(p) => Public(s, p)
    case CacLock(p) => Public(s, p)
    case CacScan(p, i) => Public(s, p) && s.procs[p].lock == Some(t) && i <= |s.procs[p].waitfors|
    case CacAwait(p, c) => Public(s, p) && c < |s.procs|
    case AddToChild(l) => l < |s.links| && s.links[l].registrar == t && s.links[l].starting
    case Enlist(l) => l < |s.links| && !s.links[l].starting
    case Clear(ls) =>
      forall i: nat | i < |ls| ::
        ls[i] < |s.links| && !s.links[ls[i]].starting && Closed(s, s.links[ls[i]].child)
    case Run(c, w) => Public(s, c) && w < |s.procs| && s.procs[w].owner == Some(c)
    case Return(p, err) => Closed(s, p) && err == s.procs[p].closeErr
    case Finished => true
    case Panicked => false
  }

  predicate HasReturned(s: State, p: Pid) { p < |s.procs| && s.procs[p].function_.Returned? }

  ghost predicate WaitforOk(s: State, p: Pid, l: Lid)
    requires p < |s.procs|
  {
    && l < |s.links|
    && s.links[l].parent == p && s.links[l].waits && s.links[l].child < |s.procs|
    && (!s.procs[p].closed ==> s.links[l].early)
    && (MustAsk(s, s.links[l]) && l !in s.procs[p].children ==> Asked(s, s.links[l].child))
  }

  ghost predicate ListsOk(s: State, p: Pid)
    requires p < |s.procs|
  {
    var pr := s.procs[p];
    && (forall i: nat | i < |pr.children| ::
          pr.children[i] < |s.links| && s.links[pr.children[i]].parent == p && s.links[pr.children[i]].closes)
    && (forall i: nat | i < |pr.waitfors| :: WaitforOk(s, p, pr.waitfors[i]))
    && (forall i: nat | i < |pr.waiters| ::
          pr.waiters[i] < |s.links| && s.links[pr.waiters[i]].child == p && !s.links[pr.waiters[i]].starting)
  }

  ghost predicate PhaseOk(s: State, p: Pid)
    requires p < |s.procs|
  {
    var pr := s.procs[p];
    && (pr.closing <==> pr.closer.Some?)
    && (pr.closed ==> pr.closing && EarlyClosed(s, p) && Entry(p, pr.closeErr) in s.log)
    && (pr.lock.Some? ==> pr.lock.value < |s.threads| && Holds(s.threads[pr.lock.value], p))
    && (pr.closing && !pr.closed ==>
          && pr.closer.value < |s.threads|
          && var th := s.threads[pr.closer.value]; th.Close? && th.p == p && InDoClose(th.pc) && !th.pc.Unlock?)
  }

  ghost predicate PrivateOk(s: State, p: Pid)
    requires p < |s.procs|
  {
    var pr := s.procs[p];
    && (pr.owner.Some? ==> Public(s, pr.owner.value) && (pr.closing ==> HasReturned(s, pr.owner.value)))
    && (pr.function_.Running? ==>
          && pr.function_.gate < |s.links|
          && var k := s.links[pr.function_.gate];
          Binds(k, p) && k.child < |s.procs| && s.procs[k.child].owner == Some(p))
  }

  ghost predicate ProcOk(s: State, p: Pid)
    requires p < |s.procs|
  {
    ListsOk(s, p) && PhaseOk(s, p) && PrivateOk(s, p)
  }

  /** A binding link whose child is open is still on a list of its parent. */
  ghost predicate StillWaited(s: State, l: Lid) {
    && l < |s.links| && s.links[l].parent < |s.procs|
    && var pr := s.procs[s.links[l].parent];
    || l in pr.waitfors
    || (pr.closer.Some? && pr.closer.value < |s.threads| && l in Pending(s.threads[pr.closer.value]))
  }

  ghost predicate LinkOk(s: State, l: Lid)
    requires l < |s.links|
  {
    var k := s.links[l];
    && k.parent < |s.procs| && k.child < |s.procs|
    && (k.cleared ==> Closed(s, k.child) && !k.starting)
    && (k.closes ==> Public(s, k.child))
    && (k.waits && k.early ==> Closed(s, k.child) || StillWaited(s, l))
  }

  ghost predicate Ordered(s: State, l: Lid, i: nat)
    requires l < |s.links| && i < |s.log|
  {
    Binds(s.links[l], s.log[i].p) ==> exists j: nat :: j < i && s.log[j].p == s.links[l].child
  }

  ghost predicate LogOk(s: State) {
    && (forall i: nat | i < |s.log| :: s.log[i].p < |s.procs| && s.procs[s.log[i].p].closing)
    && (forall i: nat, j: nat | i < j < |s.log| :: s.log[i].p != s.log[j].p)
    && (forall i: nat, l: nat | i < |s.log| && l < |s.links| :: Ordered(s, l, i))
  }

  ghost predicate Inv(s: State) {
    && (forall p: nat | p < |s.procs| :: ProcOk(s, p))
    && (forall l: nat | l < |s.links| :: LinkOk(s, l))
    && (forall t: nat | t < |s.threads| :: ThreadOk(s, t))
    && LogOk(s)
  }

  // ----- what a step by one thread leaves alone -----

  predicate SameLink(k: Link, k': Link, t: Tid) {
    && k'.(cleared := k.cleared, starting := k.starting) == k
    && (k.cleared ==> k'.cleared) && (k'.starting ==> k.starting)
    && (k.starting && k.registrar != t ==> k'.starting)
  }

  /** From `pr` to `pr'` while thread `t` moves. */
  predicate SameProc(pr: Process, pr': Process, t: Tid) {
    && pr'.owner == pr.owner
    && (pr.function_.Returned? ==> pr'.function_.Returned?)
    && (pr.closing ==> pr'.closing) && (pr.closed ==> pr'.closed && pr'.closeErr == pr.closeErr)
    && (pr.closer.Some? ==> pr'.closer == pr.closer)
    && (pr.closer.Some? && pr.closer != Some(t) ==> pr'.closed == pr.closed && pr'.closeErr == pr.closeErr)
    && (pr.lock.Some? && pr.lock != Some(t) ==>
          pr'.lock == pr.lock && pr'.children == pr.children && pr'.waitfors == pr.waitfors)
  }

  /** `s'` follows `s` by a move of thread `t`. */
  ghost predicate Moves(s: State, s': State, t: Tid) {
    && |s.procs| <= |s'.procs| && |s.links| <= |s'.links| && |s.threads| <= |s'.threads| && s.log <= s'.log
    && (forall u: nat | u < |s.threads| && u != t :: s'.threads[u] == s.threads[u])
    && (forall p: nat | p < |s.procs| :: SameProc(s.procs[p], s'.procs[p], t))
    && (forall l: nat | l < |s.links| :: SameLink(s.links[l], s'.links[l], t))
    && (forall l: nat | |s.links| <= l < |s'.links| && s'.links[l].early ::
          s'.links[l].parent < |s.procs| ==>
            var pr := s.procs[s'.links[l].parent]; !pr.closed && (pr.lock.None? || pr.lock == Some(t)))
    && (forall i: nat | |s.log| <= i < |s'.log| ::
          s'.log[i].p < |s.procs| && s.procs[s'.log[i].p].closer == Some(t))
    && (forall c: nat | Asked(s, c) :: Asked(s', c))
  }

  lemma ThreadKept(s: State, s': State, t: Tid, u: Tid)
    requires u < |s.threads| && u != t && ThreadOk(s, u) && Moves(s, s', t)
    ensures ThreadOk(s', u)
  {
    match s.threads[u]
    case Close(p, pc, andThen) =>
      if InDoClose(pc) {
        DoCloseKept(s, s', t, u, p, pc);
      }
    case _ =>
  }

  lemma DoCloseKept(s: State, s': State, t: Tid, u: Tid, p: Pid, pc: ClosePc)
    requires p < |s.procs| && u != t && DoCloseOk(s, u, p, pc) && Moves(s, s', t)
    ensures DoCloseOk(s', u, p, pc)
  {
    hide Asked;
  }

  /** A process that thread `t` does not work on. */
  ghost predicate Bystander(s: State, s': State, t: Tid, p: Pid) {
    && p < |s.procs| && p < |s'.procs|
    && s'.procs[p].(function_ := s.procs[p].function_) == s.procs[p]
    && (s'.procs[p].function_.Running? ==> s'.procs[p].function_ == s.procs[p].function_)
    && s.procs[p].lock != Some(t)
    && (s.procs[p].closer == Some(t) ==> s.procs[p].closed)
  }

  lemma ProcKept(s: State, s': State, t: Tid, p: Pid)
    requires Bystander(s, s', t, p) && ProcOk(s, p) && Moves(s, s', t)
    requires forall l: nat | |s.links| <= l < |s'.links| && s'.links[l].early :: s'.links[l].parent != p
    ensures ProcOk(s', p)
  {
    hide Asked;
  }

  lemma LinkKept(s: State, s': State, t: Tid, l: Lid)
    requires l < |s.links| && LinkOk(s, l) && Moves(s, s', t)
    requires s'.links[l].cleared ==> Closed(s', s'.links[l].child) && !s'.links[l].starting
    requires Binds(s.links[l], s.links[l].parent) && StillWaited(s, l) ==>
               Closed(s', s.links[l].child) || StillWaited(s', l)
    ensures LinkOk(s', l)
  {
  }

  lemma AskedKept(s: State, s': State, t: Tid)
    requires |s.threads| <= |s'.threads| && |s.procs| <= |s'.procs|
    requires forall u: nat | u < |s.threads| && u != t :: s'.threads[u] == s.threads[u]
    requires forall p: nat | p < |s.procs| && s.procs[p].closing :: s'.procs[p].closing
    requires t < |s.threads| ==> forall c: nat | WillClose(s.threads[t], c) ::
               WillClose(s'.threads[t], c) || (c < |s'.procs| && s'.procs[c].closing)
    ensures forall c: nat | Asked(s, c) :: Asked(s', c)
  {
    forall c: nat | Asked(s, c)
      ensures Asked(s', c)
    {
      if !(c < |s.procs| && s.procs[c].closing) {
        var u: nat :| u < |s.threads| && WillClose(s.threads[u], c);
        assert WillClose(s'.threads[u], c) || (c < |s'.procs| && s'.procs[c].closing);
      }
    }
  }

  /** Thread `t` works on no process but `q`. */
  ghost predicate WorksOn(s: State, t: Tid, q: Pid) {
    && t < |s.threads|
    && (s.threads[t].Close? ==> s.threads[t].p == q)
    && (s.threads[t].CacScan? ==> s.threads[t].p == q)
  }

  lemma Elsewhere(s: State, t: Tid, q: Pid, p: Pid)
    requires Inv(s) && WorksOn(s, t, q) && p < |s.procs| && p != q
    ensures s.procs[p].lock != Some(t) && (s.procs[p].closer == Some(t) ==> s.procs[p].closed)
  {
    assert ProcOk(s, p);
  }

  /** Processes, links and log as they were, but for process `q`. */
  ghost predicate Local(s: State, s': State, q: Pid) {
    && |s'.procs| == |s.procs| && |s'.links| == |s.links| && |s'.threads| >= |s.threads|
    && forall p: nat | p < |s.procs| && p != q :: s'.procs[p] == s.procs[p]
  }

  lemma WaitedKept(s: State, s': State, t: Tid, q: Pid, l: Lid)
    requires Inv(s) && WorksOn(s, t, q) && Local(s, s', q) && Moves(s, s', t)
    requires l < |s.links| && Binds(s.links[l], s.links[l].parent) && s.links[l].parent != q && StillWaited(s, l)
    ensures Closed(s', s.links[l].child) || StillWaited(s', l)
  {
    var p := s.links[l].parent;
    assert SameLink(s.links[l], s'.links[l], t);
    Elsewhere(s, t, q, p);
    assert ProcOk(s, p);
  }

  /** A step by thread `t` on process `q`, with nothing registered: what is left to show. */
  lemma StepKeeps(s: State, s': State, t: Tid, q: Pid)
    requires Inv(s) && WorksOn(s, t, q) && Local(s, s', q) && Moves(s, s', t)
    requires (q < |s.procs| ==> ProcOk(s', q)) && ThreadOk(s', t)
    requires forall u: nat | |s.threads| <= u < |s'.threads| :: ThreadOk(s', u)
    requires forall l: nat | l < |s.links| && s'.links[l].cleared && !s.links[l].cleared ::
               Closed(s', s'.links[l].child) && !s'.links[l].starting
    requires forall l: nat | l < |s.links| && Binds(s.links[l], q) && StillWaited(s, l) ::
               Closed(s', s.links[l].child) || StillWaited(s', l)
    requires LogOk(s')
    ensures Inv(s')
  {
    hide ProcOk, ThreadOk, Moves, LogOk, StillWaited, Closed;
    forall p: nat | p < |s.procs| && p != q
      ensures ProcOk(s', p)
    {
      Elsewhere(s, t, q, p);
      ProcKept(s, s', t, p);
    }
    forall u: nat | u < |s.threads| && u != t
      ensures ThreadOk(s', u)
    {
      ThreadKept(s, s', t, u);
    }
    forall l: nat | l < |s.links|
      ensures LinkOk(s', l)
    {
      ClearedKept(s, s', t, l);
      if Binds(s.links[l], s.links[l].parent) && s.links[l].parent != q && StillWaited(s, l) {
        WaitedKept(s, s', t, q, l);
      }
      LinkKept(s, s', t, l);
    }
  }

  lemma LogKept(s: State, s': State, t: Tid)
    requires Inv(s) && Moves(s, s', t) && s'.log == s.log && |s'.links| == |s.links|
    ensures LogOk(s')
  {
    forall i: nat, l: nat | i < |s'.log| && l < |s'.links|
      ensures Ordered(s', l, i)
    {
      assert Ordered(s, l, i);
      assert SameLink(s.links[l], s'.links[l], t);
    }
  }

  lemma ClearedKept(s: State, s': State, t: Tid, l: Lid)
    requires l < |s.links| && LinkOk(s, l) && Moves(s, s', t)
    requires s'.links[l].cleared && !s.links[l].cleared ==> Closed(s', s'.links[l].child) && !s'.links[l].starting
    ensures s'.links[l].cleared ==> Closed(s', s'.links[l].child) && !s'.links[l].starting
  {
  }

  // ----- the steps of doClose -----

  ghost predicate At(s: State, t: Tid) {
    Inv(s) && t < |s.threads| && s.threads[t].Close? && CloseEnabled(s, s.threads[t].p, s.threads[t].pc)
  }

  lemma EarlyKept(s: State, s': State, t: Tid, p: Pid)
    requires Moves(s, s', t) && |s'.links| == |s.links| && p < |s.procs|
    ensures EarlyClosed(s, p) ==> EarlyClosed(s', p)
  {
  }

  lemma ListsKept(s: State, s': State, t: Tid, p: Pid)
    requires Moves(s, s', t) && p < |s.procs| && ListsOk(s, p)
    requires s'.procs[p].children == s.procs[p].children && s'.procs[p].waitfors == s.procs[p].waitfors
    requires s'.procs[p].waiters == s.procs[p].waiters
    ensures ListsOk(s', p)
  {
    hide Asked;
  }

  /** What a step keeps when it leaves the log and the lists of `p` alone. */
  lemma Routine(s: State, s': State, t: Tid, p: Pid)
    requires Inv(s) && Moves(s, s', t) && s'.log == s.log && |s'.links| == |s.links| && p < |s.procs|
    requires s'.procs[p].children == s.procs[p].children && s'.procs[p].waitfors == s.procs[p].waitfors
    requires s'.procs[p].waiters == s.procs[p].waiters
    ensures LogOk(s') && ListsOk(s', p) && (EarlyClosed(s, p) ==> EarlyClosed(s', p))
  {
    assert ProcOk(s, p);
    hide ProcOk, LogOk, ListsOk, EarlyClosed;
    LogKept(s, s', t);
    ListsKept(s, s', t, p);
    EarlyKept(s, s', t, p);
  }

  lemma EnterKeeps(s: State, t: Tid, err: Err)
    requires At(s, t) && s.threads[t].pc.Enter?
    ensures Inv(CloseStep(s, t, err))
  {
    hide Asked, EarlyClosed, ListsOk;
    var s' := CloseStep(s, t, err);
    var p := s.threads[t].p;
    assert ThreadOk(s, t) && ProcOk(s, p);
    AskedKept(s, s', t);
    assert Moves(s, s', t);
    Routine(s, s', t, p);
    StepKeeps(s, s', t, p);
  }

  lemma AwaitClosedKeeps(s: State, t: Tid, err: Err)
    requires At(s, t) && s.threads[t].pc.AwaitClosed?
    ensures Inv(CloseStep(s, t, err))
  {
    hide Asked, EarlyClosed, ListsOk;
    var s' := CloseStep(s, t, err);
    var p := s.threads[t].p;
    assert ThreadOk(s, t) && ProcOk(s, p);
    AskedKept(s, s', t);
    assert Moves(s, s', t);
    Routine(s, s', t, p);
    StepKeeps(s, s', t, p);
  }

  lemma LoopHeadKeeps(s: State, t: Tid, err: Err)
    requires At(s, t) && s.threads[t].pc.LoopHead?
    ensures Inv(CloseStep(s, t, err))
  {
    hide Asked, EarlyClosed, ListsOk;
    var s' := CloseStep(s, t, err);
    var p := s.threads[t].p;
    assert ThreadOk(s, t) && ProcOk(s, p);
    AskedKept(s, s', t);
    assert Moves(s, s', t);
    Routine(s, s', t, p);
    if s.procs[p].waitfors == [] {
      NothingPending(s, p);
      EarlyKept(s, s', t, p);
    }
    StepKeeps(s, s', t, p);
  }

  /** With no list left to wait for, every binding link of a closing process has a closed child. */
  lemma NothingPending(s: State, p: Pid)
    requires Inv(s) && p < |s.procs| && s.procs[p].closer.Some? && s.procs[p].closer.value < |s.threads|
    requires s.procs[p].waitfors == [] && Pending(s.threads[s.procs[p].closer.value]) == []
    ensures EarlyClosed(s, p)
  {
    forall l: nat | l < |s.links| && Binds(s.links[l], p)
      ensures Closed(s, s.links[l].child)
    {
      assert LinkOk(s, l);
    }
  }

  lemma SignalChildKeeps(s: State, t: Tid, err: Err)
    requires At(s, t) && s.threads[t].pc.SignalChild? && s.threads[t].pc.i < |s.procs[s.threads[t].p].children|
    ensures Inv(CloseStep(s, t, err))
  {
    hide Asked, EarlyClosed, ListsOk;
    var s' := CloseStep(s, t, err);
    var p := s.threads[t].p;
    assert ThreadOk(s, t) && ProcOk(s, p);
    AskedKept(s, s', t);
    assert Moves(s, s', t);
    Routine(s, s', t, p);
    ChildAsked(s, t, err);
    StepKeeps(s, s', t, p);
  }

  lemma ChildAsked(s: State, t: Tid, err: Err)
    requires At(s, t) && s.threads[t].pc.SignalChild? && s.threads[t].pc.i < |s.procs[s.threads[t].p].children|
    ensures var l := s.procs[s.threads[t].p].children[s.threads[t].pc.i];
            l < |s.links| && Asked(CloseStep(s, t, err), s.links[l].child) && Public(s, s.links[l].child)
  {
    var s' := CloseStep(s, t, err);
    var p := s.threads[t].p;
    assert ProcOk(s, p);
    var l := s.procs[p].children[s.threads[t].pc.i];
    var c := s.links[l].child;
    assert LinkOk(s, l);
    if s.links[l].cleared {
      assert ProcOk(s, c);
    } else {
      assert WillClose(s'.threads[|s.threads|], c);
    }
  }

  lemma TakeWaitforsKeeps(s: State, t: Tid, err: Err)
    requires At(s, t) && s.threads[t].pc.SignalChild? && s.threads[t].pc.i >= |s.procs[s.threads[t].p].children|
    ensures Inv(CloseStep(s, t, err))
  {
    hide Asked, EarlyClosed;
    var s' := CloseStep(s, t, err);
    var p := s.threads[t].p;
    assert ThreadOk(s, t) && ProcOk(s, p);
    AskedKept(s, s', t);
    assert Moves(s, s', t);
    LogKept(s, s', t);
    EarlyKept(s, s', t, p);
    StepKeeps(s, s', t, p);
  }

  lemma NextWaitKeeps(s: State, t: Tid, err: Err)
    requires At(s, t) && s.threads[t].pc.NextWait?
    ensures Inv(CloseStep(s, t, err))
  {
    hide Asked, EarlyClosed, ListsOk, WaitsOk;
    var s' := CloseStep(s, t, err);
    var p := s.threads[t].p;
    assert ThreadOk(s, t) && ProcOk(s, p);
    AskedKept(s, s', t);
    assert Moves(s, s', t);
    Routine(s, s', t, p);
    WaitsKept(s, s', t, p, s.threads[t].pc.wf);
    StepKeeps(s, s', t, p);
  }

  lemma WaitsKept(s: State, s': State, t: Tid, p: Pid, wf: seq<Lid>)
    requires Moves(s, s', t) && WaitsOk(s, p, wf)
    ensures WaitsOk(s', p, wf)
  {
    hide Asked;
  }

  lemma AwaitKeeps(s: State, t: Tid, err: Err)
    requires At(s, t) && (s.threads[t].pc.Fetch? || s.threads[t].pc.Await?)
    ensures Inv(CloseStep(s, t, err))
  {
    hide Asked, EarlyClosed, ListsOk;
    var s' := CloseStep(s, t, err);
    var p := s.threads[t].p;
    assert ThreadOk(s, t) && ProcOk(s, p);
    assert LinkOk(s, s.threads[t].pc.wf[0]);
    AwaitMoves(s, t, err);
    Routine(s, s', t, p);
    StepKeeps(s, s', t, p);
  }

  lemma AwaitMoves(s: State, t: Tid, err: Err)
    requires At(s, t) && (s.threads[t].pc.Fetch? || s.threads[t].pc.Await?)
    ensures Moves(s, CloseStep(s, t, err), t)
  {
    hide Asked;
    assert ThreadOk(s, t);
    AskedKept(s, CloseStep(s, t, err), t);
  }

  lemma RelockKeeps(s: State, t: Tid, err: Err)
    requires At(s, t) && s.threads[t].pc.Relock?
    ensures Inv(CloseStep(s, t, err))
  {
    hide Asked, EarlyClosed, ListsOk;
    var s' := CloseStep(s, t, err);
    var p := s.threads[t].p;
    assert ThreadOk(s, t) && ProcOk(s, p);
    AskedKept(s, s', t);
    assert Moves(s, s', t);
    Routine(s, s', t, p);
    StepKeeps(s, s', t, p);
  }

  lemma TeardownKeeps(s: State, t: Tid, err: Err)
    requires At(s, t) && s.threads[t].pc.Teardown?
    ensures Inv(CloseStep(s, t, err))
  {
    hide Asked, EarlyClosed, ListsOk;
    var s' := CloseStep(s, t, err);
    var p := s.threads[t].p;
    assert ThreadOk(s, t) && ProcOk(s, p);
    AskedKept(s, s', t);
    assert Moves(s, s', t);
    EarlyKept(s, s', t, p);
    ListsKept(s, s', t, p);
    LogAppended(s, s', t, p, err);
    StepKeeps(s, s', t, p);
  }

  lemma LogAppended(s: State, s': State, t: Tid, p: Pid, err: Err)
    requires Inv(s) && Moves(s, s', t) && |s'.links| == |s.links| && s'.log == s.log + [Entry(p, err)]
    requires p < |s.procs| && s.procs[p].closing && EarlyClosed(s, p) && !Logged(s, p)
    ensures LogOk(s')
  {
    hide ListsOk, Asked, PrivateOk, ThreadOk;
    forall i: nat, l: nat | i < |s'.log| && l < |s'.links|
      ensures Ordered(s', l, i)
    {
      assert SameLink(s.links[l], s'.links[l], t);
      if i < |s.log| {
        assert Ordered(s, l, i);
      } else if Binds(s.links[l], p) {
        var c := s.links[l].child;
        assert Closed(s, c) && ProcOk(s, c);
        var j: nat :| j < |s.log| && s.log[j] == Entry(c, s.procs[c].closeErr);
        assert s'.log[j].p == c;
      }
    }
  }

  lemma SignalKeeps(s: State, t: Tid, err: Err)
    requires At(s, t) && s.threads[t].pc.Signal?
    ensures Inv(CloseStep(s, t, err))
  {
    hide Asked, EarlyClosed;
    var s' := CloseStep(s, t, err);
    var p := s.threads[t].p;
    assert ThreadOk(s, t) && ProcOk(s, p);
    AskedKept(s, s', t);
    assert Moves(s, s', t);
    Routine(s, s', t, p);
    StepKeeps(s, s', t, p);
  }

  lemma UnlockKeeps(s: State, t: Tid, err: Err)
    requires At(s, t) && s.threads[t].pc.Unlock?
    ensures Inv(CloseStep(s, t, err))
  {
    hide Asked, EarlyClosed, ListsOk;
    var s' := CloseStep(s, t, err);
    var p := s.threads[t].p;
    assert ThreadOk(s, t) && ProcOk(s, p);
    AskedKept(s, s', t);
    assert Moves(s, s', t);
    Routine(s, s', t, p);
    StepKeeps(s, s', t, p);
  }

  // ----- the steps of the other threads -----

  lemma CacEnterKeeps(s: State, t: Tid)
    requires Inv(s) && StepEnabled(s, t) && (s.threads[t].CacEnter? || s.threads[t].CacAwait?)
    ensures Inv(ThreadStep(s, t, 0))
  {
    hide Asked, EarlyClosed, ListsOk;
    var s' := ThreadStep(s, t, 0);
    assert ThreadOk(s, t);
    var p := s.threads[t].p;
    assert ProcOk(s, p);
    AskedKept(s, s', t);
    assert Moves(s, s', t);
    Routine(s, s', t, p);
    StepKeeps(s, s', t, p);
  }

  lemma CacLockKeeps(s: State, t: Tid)
    requires Inv(s) && StepEnabled(s, t) && s.threads[t].CacLock?
    ensures Inv(ThreadStep(s, t, 0))
  {
    hide Asked, EarlyClosed, ListsOk;
    var s' := ThreadStep(s, t, 0);
    assert ThreadOk(s, t);
    var p := s.threads[t].p;
    assert ProcOk(s, p);
    AskedKept(s, s', t);
    assert Moves(s, s', t);
    Routine(s, s', t, p);
    StepKeeps(s, s', t, p);
  }

  lemma CacScanKeeps(s: State, t: Tid)
    requires Inv(s) && StepEnabled(s, t) && s.threads[t].CacScan?
    ensures Inv(ThreadStep(s, t, 0))
  {
    hide Asked, EarlyClosed, ListsOk;
    var s' := ThreadStep(s, t, 0);
    assert ThreadOk(s, t);
    var p := s.threads[t].p;
    assert ProcOk(s, p);
    if s.threads[t].i < |s.procs[p].waitfors| {
      assert LinkOk(s, s.procs[p].waitfors[s.threads[t].i]);
    }
    CacScanMoves(s, t);
    Routine(s, s', t, p);
    StepKeeps(s, s', t, p);
  }

  lemma CacScanMoves(s: State, t: Tid)
    requires Inv(s) && StepEnabled(s, t) && s.threads[t].CacScan?
    ensures Moves(s, ThreadStep(s, t, 0), t)
  {
    hide Asked;
    assert ThreadOk(s, t);
    AskedKept(s, ThreadStep(s, t, 0), t);
  }

  lemma AddToChildKeeps(s: State, t: Tid)
    requires Inv(s) && StepEnabled(s, t) && s.threads[t].AddToChild?
    ensures Inv(ThreadStep(s, t, 0))
  {
    hide Asked, EarlyClosed, ListsOk;
    var s' := ThreadStep(s, t, 0);
    assert ThreadOk(s, t);
    var p := s.links[s.threads[t].l].child;
    assert LinkOk(s, s.threads[t].l);
    assert ProcOk(s, p);
    AskedKept(s, s', t);
    assert Moves(s, s', t);
    Routine(s, s', t, p);
    StepKeeps(s, s', t, p);
  }

  lemma EnlistKeeps(s: State, t: Tid)
    requires Inv(s) && StepEnabled(s, t) && s.threads[t].Enlist?
    ensures Inv(ThreadStep(s, t, 0))
  {
    hide Asked, EarlyClosed;
    var s' := ThreadStep(s, t, 0);
    assert ThreadOk(s, t);
    var p := s.links[s.threads[t].l].child;
    assert LinkOk(s, s.threads[t].l);
    assert ProcOk(s, p);
    AskedKept(s, s', t);
    assert Moves(s, s', t);
    LogKept(s, s', t);
    EarlyKept(s, s', t, p);
    StepKeeps(s, s', t, p);
  }

  lemma ClearKeeps(s: State, t: Tid)
    requires Inv(s) && StepEnabled(s, t) && s.threads[t].Clear? && s.threads[t].ls != []
    ensures Inv(ThreadStep(s, t, 0))
  {
    hide Asked, EarlyClosed, ListsOk;
    var s' := ThreadStep(s, t, 0);
    assert ThreadOk(s, t);
    var p := s.links[s.threads[t].ls[0]].child;
    assert ProcOk(s, p);
    AskedKept(s, s', t);
    assert Moves(s, s', t);
    Routine(s, s', t, p);
    StepKeeps(s, s', t, p);
  }

  lemma RunKeeps(s: State, t: Tid)
    requires Inv(s) && StepEnabled(s, t) && s.threads[t].Run?
    ensures Inv(ThreadStep(s, t, 0))
  {
    hide Asked, EarlyClosed, ListsOk;
    var s' := ThreadStep(s, t, 0);
    assert ThreadOk(s, t);
    var p := s.threads[t].child;
    assert ProcOk(s, p);
    AskedKept(s, s', t);
    assert Moves(s, s', t);
    Routine(s, s', t, p);
    StepKeeps(s, s', t, p);
  }

  lemma ClearedKeeps(s: State, t: Tid)
    requires Inv(s) && StepEnabled(s, t) && s.threads[t] == Clear([])
    ensures Inv(ThreadStep(s, t, 0))
  {
    hide Asked, EarlyClosed, ListsOk;
    var s' := ThreadStep(s, t, 0);
    AskedKept(s, s', t);
    assert Moves(s, s', t);
    LogKept(s, s', t);
    StepKeeps(s, s', t, |s.procs|);
  }

  lemma ThreadStepKeeps(s: State, t: Tid, err: Err)
    requires Inv(s) && StepEnabled(s, t)
    ensures Inv(ThreadStep(s, t, err))
  {
    hide Inv;
    match s.threads[t]
    case Close(p, pc, _) =>
      match pc {
        case Enter => EnterKeeps(s, t, err);
        case AwaitClosed => AwaitClosedKeeps(s, t, err);
        case LoopHead => LoopHeadKeeps(s, t, err);
        case SignalChild(i) =>
          if i < |s.procs[p].children| {
            SignalChildKeeps(s, t, err);
          } else {
            TakeWaitforsKeeps(s, t, err);
          }
        case NextWait(_) => NextWaitKeeps(s, t, err);
        case Fetch(_) => AwaitKeeps(s, t, err);
        case Await(_, _) => AwaitKeeps(s, t, err);
        case Relock(_) => RelockKeeps(s, t, err);
        case Teardown => TeardownKeeps(s, t, err);
        case Signal => SignalKeeps(s, t, err);
        case Unlock => UnlockKeeps(s, t, err);
      }
    case CacEnter(_) => CacEnterKeeps(s, t);
    case CacLock(_) => CacLockKeeps(s, t);
    case CacScan(_, _) => CacScanKeeps(s, t);
    case CacAwait(_, _) => CacEnterKeeps(s, t);
    case AddToChild(_) => AddToChildKeeps(s, t);
    case Enlist(_) => EnlistKeeps(s, t);
    case Clear(ls) =>
      if ls == [] {
        ClearedKeeps(s, t);
      } else {
        ClearKeeps(s, t);
      }
    case Run(_, _) => RunKeeps(s, t);
  }

  // ----- calls -----

  /** A call that works on process `q` and may add processes, links and threads: what is left to show. */
  lemma CallKeeps(s: State, s': State, q: Pid)
    requires Inv(s) && Moves(s, s', |s.threads|) && s'.log == s.log
    requires forall p: nat | p < |s.procs| && p != q :: s'.procs[p] == s.procs[p]
    requires forall l: nat | l < |s.links| :: s'.links[l] == s.links[l]
    requires forall l: nat | |s.links| <= l < |s'.links| ::
               && LinkOk(s', l)
               && (s'.links[l].early && s'.links[l].parent < |s.procs| ==> s'.links[l].parent == q && !Logged(s, q))
               && (s'.links[l].early && s'.links[l].parent >= |s.procs| ==> !Logged(s, s'.links[l].parent))
    requires forall p: nat | p < |s'.procs| && (p == q || |s.procs| <= p) :: ProcOk(s', p)
    requires q < |s.procs| ==> s'.procs[q].closer == s.procs[q].closer && s.procs[q].waitfors <= s'.procs[q].waitfors
    requires forall u: nat | |s.threads| <= u < |s'.threads| :: ThreadOk(s', u)
    ensures Inv(s')
  {
    hide Asked, EarlyClosed, ListsOk, PrivateOk, Logged;
    var t := |s.threads|;
    forall p: nat | p < |s.procs| && p != q
      ensures ProcOk(s', p)
    {
      assert ProcOk(s, p);
      ProcKept(s, s', t, p);
    }
    hide ThreadOk;
    forall u: nat | u < |s.threads|
      ensures ThreadOk(s', u)
    {
      ThreadKept(s, s', t, u);
    }
    forall l: nat | l < |s.links|
      ensures LinkOk(s', l)
    {
      assert LinkOk(s, l);
      WaitedOnCall(s, s', q, l);
      LinkKept(s, s', t, l);
    }
    CallLogKept(s, s', q);
  }

  lemma WaitedOnCall(s: State, s': State, q: Pid, l: Lid)
    requires l < |s.links| && |s.links| <= |s'.links| && s'.links[l] == s.links[l]
    requires s.links[l].parent < |s.procs| <= |s'.procs|
    requires |s.threads| <= |s'.threads| && forall u: nat | u < |s.threads| :: s'.threads[u] == s.threads[u]
    requires forall p: nat | p < |s.procs| && p != q :: s'.procs[p] == s.procs[p]
    requires q < |s.procs| ==> s'.procs[q].closer == s.procs[q].closer && s.procs[q].waitfors <= s'.procs[q].waitfors
    ensures StillWaited(s, l) ==> StillWaited(s', l)
  {
    var p := s.links[l].parent;
    assert s.procs[p].waitfors <= s'.procs[p].waitfors;
  }

  lemma CallLogKept(s: State, s': State, q: Pid)
    requires Inv(s) && Moves(s, s', |s.threads|) && s'.log == s.log
    requires forall l: nat | l < |s.links| :: s'.links[l] == s.links[l]
    requires forall l: nat | |s.links| <= l < |s'.links| ::
               && (s'.links[l].early && s'.links[l].parent < |s.procs| ==> s'.links[l].parent == q && !Logged(s, q))
               && (s'.links[l].early && s'.links[l].parent >= |s.procs| ==> !Logged(s, s'.links[l].parent))
    ensures LogOk(s')
  {
    hide ThreadOk, ProcOk, LinkOk;
    forall i: nat, l: nat | i < |s'.log| && l < |s'.links|
      ensures Ordered(s', l, i)
    {
      if l < |s.links| {
        assert Ordered(s, l, i);
      } else if s'.links[l].early {
        assert !Logged(s, s'.links[l].parent);
      }
    }
  }

  /** A process that is not closed and not locked has not been torn down. */
  lemma FreeNotLogged(s: State, p: Pid)
    requires Inv(s) && Free(s, p) && !s.procs[p].closed
    ensures !Logged(s, p)
  {
    assert ProcOk(s, p);
    if s.procs[p].closing {
      assert ThreadOk(s, s.procs[p].closer.value);
    }
  }

  lemma SpawnKeeps(s: State, th: Thread)
    requires Inv(s) && ThreadOk(Spawn(s, th), |s.threads|)
    ensures Inv(Spawn(s, th))
  {
    hide Asked, EarlyClosed, ListsOk, PrivateOk, ThreadOk;
    var s' := Spawn(s, th);
    AskedKept(s, s', |s.threads|);
    assert Moves(s, s', |s.threads|);
    CallKeeps(s, s', |s.procs|);
  }

  lemma NewKeeps(s: State, owner: Option<Pid>)
    requires Inv(s) && (owner.Some? ==> Public(s, owner.value))
    ensures Inv(s.(procs := s.procs + [NewProcess(owner)]))
  {
    hide Asked;
    var s' := s.(procs := s.procs + [NewProcess(owner)]);
    AskedKept(s, s', |s.threads|);
    assert Moves(s, s', |s.threads|);
    FreshProcOk(s, s');
    CallKeeps(s, s', |s.procs|);
  }

  lemma FreshProcOk(s: State, s': State)
    requires Inv(s) && |s'.procs| == |s.procs| + 1 && s'.links == s.links && s'.log == s.log && s'.threads == s.threads
    requires var pr := s'.procs[|s.procs|];
             pr == NewProcess(pr.owner) && (pr.owner.Some? ==> Public(s', pr.owner.value))
    ensures ProcOk(s', |s.procs|)
  {
  }

  lemma AddLinkKeeps(s: State, p: Pid, q: Pid, waits: bool, closes: bool)
    requires Inv(s) && Free(s, p) && q < |s.procs| && (closes ==> Public(s, q)) && (Public(s, q) || Asked(s, q))
    ensures Inv(AddLink(s, p, q, waits, closes))
  {
    hide Asked, EarlyClosed, ListsOk, Logged;
    var s' := AddLink(s, p, q, waits, closes);
    assert ProcOk(s, p);
    AddLinkMoves(s, p, q, waits, closes);
    if !s.procs[p].closed {
      FreeNotLogged(s, p);
    } else {
      AddLinkEarly(s, p, q, waits, closes);
    }
    AddLinkLists(s, p, q, waits, closes);
    CallKeeps(s, s', p);
  }

  lemma AddLinkMoves(s: State, p: Pid, q: Pid, waits: bool, closes: bool)
    requires Inv(s) && Free(s, p)
    ensures Moves(s, AddLink(s, p, q, waits, closes), |s.threads|)
  {
    hide Asked, Inv;
    AskedKept(s, AddLink(s, p, q, waits, closes), |s.threads|);
  }

  lemma AddLinkLists(s: State, p: Pid, q: Pid, waits: bool, closes: bool)
    requires p < |s.procs| && ListsOk(s, p) && q < |s.procs| && (Public(s, q) || Asked(s, q))
    requires forall c: nat | Asked(s, c) :: Asked(AddLink(s, p, q, waits, closes), c)
    ensures ListsOk(AddLink(s, p, q, waits, closes), p)
  {
    hide WaitforOk;
    var s' := AddLink(s, p, q, waits, closes);
    forall i: nat | i < |s'.procs[p].waitfors|
      ensures WaitforOk(s', p, s'.procs[p].waitfors[i])
    {
      if i < |s.procs[p].waitfors| {
        WaitforKept(s, p, q, waits, closes, s.procs[p].waitfors[i]);
      } else {
        WaitforNew(s, p, q, waits, closes);
      }
    }
  }

  lemma WaitforKept(s: State, p: Pid, q: Pid, waits: bool, closes: bool, l: Lid)
    requires p < |s.procs| && WaitforOk(s, p, l)
    requires forall c: nat | Asked(s, c) :: Asked(AddLink(s, p, q, waits, closes), c)
    ensures WaitforOk(AddLink(s, p, q, waits, closes), p, l)
  {
    hide Asked;
    var s' := AddLink(s, p, q, waits, closes);
    assert s'.links[l] == s.links[l] && s'.procs[s.links[l].child].owner == s.procs[s.links[l].child].owner;
  }

  lemma WaitforNew(s: State, p: Pid, q: Pid, waits: bool, closes: bool)
    requires p < |s.procs| && q < |s.procs| && waits && (Public(s, q) || Asked(s, q))
    requires forall c: nat | Asked(s, c) :: Asked(AddLink(s, p, q, waits, closes), c)
    ensures WaitforOk(AddLink(s, p, q, waits, closes), p, |s.links|)
  {
    hide Asked;
    var s', l := AddLink(s, p, q, waits, closes), |s.links|;
    assert s'.links[l].child == q && s'.procs[q].owner == s.procs[q].owner;
    assert closes ==> s'.procs[p].children[|s.procs[p].children|] == l;
  }

  lemma AddLinkEarly(s: State, p: Pid, q: Pid, waits: bool, closes: bool)
    requires p < |s.procs| && s.procs[p].closed && EarlyClosed(s, p)
    ensures EarlyClosed(AddLink(s, p, q, waits, closes), p)
  {
  }

  lemma RegisterKeeps(s: State, p: Pid, q: Pid, waits: bool, closes: bool)
    requires Inv(s) && Free(s, p) && q < |s.procs| && (closes ==> Public(s, q)) && (Public(s, q) || Asked(s, q))
    ensures Inv(Register(s, p, q, waits, closes))
  {
    hide Inv;
    if closes && s.procs[p].closing {
      SpawnKeeps(s, Close(q, Enter, None));
      AddLinkKeeps(Spawn(s, Close(q, Enter, None)), p, q, waits, closes);
    } else {
      AddLinkKeeps(s, p, q, waits, closes);
    }
  }

  lemma GoKeeps(s: State, p: Pid)
    requires Inv(s) && Public(s, p) && Free(s, p)
    ensures Inv(GoStep(s, p))
  {
    var c := |s.procs|;
    var w := c + 1;
    var s0 := s.(procs := s.procs + [NewProcess(None)]);
    var s1 := Spawn(s0.(procs := s0.procs + [NewProcess(Some(c))]), Run(c, w));
    NewKeeps(s, None);
    NewKeeps(s0, Some(c));
    SpawnKeeps(s0.(procs := s0.procs + [NewProcess(Some(c))]), Run(c, w));
    assert WillClose(s1.threads[|s.threads|], w);
    var s2 := Register(s1, c, w, true, false);
    RegisterKeeps(s1, c, w, true, false);
    var s3 := PutProc(s2, c, s2.procs[c].(function_ := Running(|s.links|)));
    StartKeeps(s2, c, |s.links|);
    hide Inv;
    RegisterKeeps(s3, p, c, true, true);
  }

  lemma StartKeeps(s: State, c: Pid, gate: Lid)
    requires Inv(s) && c < |s.procs| && s.procs[c].function_.Absent? && gate < |s.links| && Binds(s.links[gate], c)
    requires s.links[gate].child < |s.procs| && s.procs[s.links[gate].child].owner == Some(c)
    ensures Inv(PutProc(s, c, s.procs[c].(function_ := Running(gate))))
  {
    hide Asked, EarlyClosed, ListsOk;
    var s' := PutProc(s, c, s.procs[c].(function_ := Running(gate)));
    assert ProcOk(s, c);
    AskedKept(s, s', |s.threads|);
    assert Moves(s, s', |s.threads|);
    Routine(s, s', |s.threads|, c);
    CallKeeps(s, s', c);
  }

  /** Every action keeps the invariant. */
  lemma NextKeeps(s: State, a: Action)
    requires Inv(s) && Enabled(s, a)
    ensures Inv(Next(s, a))
  {
    hide Inv;
    match a
    case Step(t, err) => ThreadStepKeeps(s, t, err);
    case New => NewKeeps(s, None);
    case CallClose(p) => SpawnKeeps(s, Close(p, Enter, None));
    case CallCloseAfterChildren(p) => SpawnKeeps(s, CacEnter(p));
    case WaitFor(p, q) => RegisterKeeps(s, p, q, true, false);
    case AddChildNoWait(p, q) => RegisterKeeps(s, p, q, false, true);
    case AddChild(p, q) => RegisterKeeps(s, p, q, true, true);
    case Go(p) => GoKeeps(s, p);
  }

  lemma {:induction false} RunKeepsInv(s: State, actions: seq<Action>, s': State)
    requires Inv(s) && IsRun(s, actions, s')
    ensures Inv(s')
    decreases |actions|
  {
    hide Inv, Next, Enabled;
    if actions != [] {
      NextKeeps(s, actions[0]);
      RunKeepsInv(Next(s, actions[0]), actions[1..], s');
    }
  }

  // ----- whole runs -----

  ghost predicate Reachable(s: State) { exists actions: seq<Action> :: IsRun(START, actions, s) }

  lemma ReachableInv(s: State)
    requires Reachable(s)
    ensures Inv(s)
  {
    var actions: seq<Action> :| IsRun(START, actions, s);
    RunKeepsInv(START, actions, s);
  }

  /** The teardown of `a` ran before the teardown of `b`. */
  ghost predicate TornDownBefore(s: State, a: Pid, b: Pid) {
    exists i: nat, j: nat :: i < j < |s.log| && s.log[i].p == a && s.log[j].p == b
  }

  /** `p` waits for `q` through `path`: links made by WaitFor or AddChild, each before its parent closed. */
  ghost predicate WaitPath(s: State, p: Pid, q: Pid, path: seq<Lid>)
    decreases |path|
  {
    if path == [] then p == q
    else path[0] < |s.links| && Binds(s.links[path[0]], p) && WaitPath(s, s.links[path[0]].child, q, path[1..])
  }

  /** When a process is closed, everything it waits for, however far down and however late it was
      registered, is closed, and was torn down first. */
  lemma {:induction false} TeardownOrder(s: State, p: Pid, q: Pid, path: seq<Lid>)
    requires Reachable(s) && Closed(s, p) && WaitPath(s, p, q, path)
    ensures Closed(s, q)
    ensures path != [] ==> TornDownBefore(s, q, p)
    decreases |path|
  {
    if path != [] {
      ReachableInv(s);
      var c := s.links[path[0]].child;
      assert ProcOk(s, p);
      TeardownOrder(s, c, q, path[1..]);
      var i: nat :| i < |s.log| && s.log[i] == Entry(p, s.procs[p].closeErr);
      assert Ordered(s, path[0], i);
      var j: nat :| j < i && s.log[j].p == c;
      if path[1..] != [] {
        var a: nat, b: nat :| a < b < |s.log| && s.log[a].p == q && s.log[b].p == c;
        assert b == j;
      }
    }
  }

  /** A teardown runs between the closing and the closed signal of its process. */
  lemma TeardownBetweenSignals(s: State, a: Action)
    requires Reachable(s) && Enabled(s, a) && Next(s, a).log != s.log
    ensures a.Step? && s.threads[a.t].Close? && s.threads[a.t].pc.Teardown?
    ensures var p := s.threads[a.t].p;
            && Next(s, a).log == s.log + [Entry(p, a.err)]
            && s.procs[p].closing && !s.procs[p].closed && !Next(s, a).procs[p].closed
  {
    ReachableInv(s);
    assert ThreadOk(s, a.t);
  }

  /** A process is torn down at most once; a closed one exactly once, and every Close call on it
      that has returned did so after it was closed and gave the error of that teardown. */
  lemma OneTeardown(s: State, p: Pid)
    requires Reachable(s)
    ensures forall i: nat, j: nat | i < |s.log| && j < |s.log| && s.log[i].p == p == s.log[j].p :: i == j
    ensures Closed(s, p) ==> exists i: nat :: i < |s.log| && s.log[i] == Entry(p, s.procs[p].closeErr)
    ensures forall t: nat | t < |s.threads| && s.threads[t].Return? && s.threads[t].p == p ::
              Closed(s, p) && exists i: nat :: i < |s.log| && s.log[i] == Entry(p, s.threads[t].err)
  {
    ReachableInv(s);
    if p < |s.procs| {
      assert ProcOk(s, p);
    }
    forall t: nat | t < |s.threads| && s.threads[t].Return? && s.threads[t].p == p
      ensures Closed(s, p) && exists i: nat :: i < |s.log| && s.log[i] == Entry(p, s.threads[t].err)
    {
      assert ThreadOk(s, t);
    }
  }

  /** A process made by Go is closed only after its function has returned. */
  lemma FunctionReturnsFirst(s: State, p: Pid)
    requires Reachable(s) && Closed(s, p)
    ensures !s.procs[p].function_.Running?
  {
    ReachableInv(s);
    if s.procs[p].function_.Running? {
      RunningNotClosed(s, p);
    }
  }

  lemma RunningNotClosed(s: State, p: Pid)
    requires Inv(s) && p < |s.procs| && s.procs[p].function_.Running?
    ensures !Closed(s, p)
  {
    assert ProcOk(s, p);
    forall w: nat | Closed(s, w) && s.procs[w].owner == Some(p)
      ensures HasReturned(s, p)
    {
      assert ProcOk(s, w);
    }
  }

  /** AddToChild never finds the child of its link cleared, so it does not panic. */
  lemma NoPanic(s: State, t: Tid)
    requires Reachable(s) && t < |s.threads|
    ensures !s.threads[t].Panicked?
  {
    ReachableInv(s);
    assert ThreadOk(s, t);
  }
}
