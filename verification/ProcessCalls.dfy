/**
 What each call of the interface means for every run that follows it: who waits for whom, who is told
 to close, and which processes then finish closing.
 */
module ProcessCalls {
  import opened Options
  import opened Processes
  import opened ProcessSafety
  import opened ProcessProgress
  import opened ProcessShutdown

  // ----- who waits for whom -----

  /** `s'` has every link of `s`, with the same ends and of the same kind. */
  ghost predicate KeepsLinks(s: State, s': State) {
    && |s.links| <= |s'.links|
    && forall l: nat | l < |s.links| ::
         s'.links[l].(cleared := s.links[l].cleared, starting := s.links[l].starting) == s.links[l]
  }

  lemma NextKeepsLinks(s: State, a: Action)
    requires Enabled(s, a)
    ensures KeepsLinks(s, Next(s, a))
  {
    hide ThreadStep;
    match a
    case Step(t, err) => SameLinks(s, t, err);
    case _ =>
  }

  lemma {:induction false} RunKeepsLinks(s: State, actions: seq<Action>, s': State)
    requires IsRun(s, actions, s')
    ensures KeepsLinks(s, s')
    decreases |actions|
  {
    hide Next, Enabled;
    if actions != [] {
      NextKeepsLinks(s, actions[0]);
      RunKeepsLinks(Next(s, actions[0]), actions[1..], s');
    }
  }

  /** `a` was taken in state `s0` of a run that later reached `s`. */
  ghost predicate Since(s0: State, a: Action, s: State) {
    Reachable(s0) && Enabled(s0, a) && exists later: seq<Action> :: IsRun(Next(s0, a), later, s)
  }

  lemma {:induction false} RunJoins(s: State, first: seq<Action>, s1: State, second: seq<Action>, s2: State)
    requires IsRun(s, first, s1) && IsRun(s1, second, s2)
    ensures IsRun(s, first + second, s2)
    decreases |first|
  {
    hide Next, Enabled;
    if first == [] {
      assert first + second == second;
    } else {
      RunJoins(Next(s, first[0]), first[1..], s1, second, s2);
      assert (first + second)[0] == first[0] && (first + second)[1..] == first[1..] + second;
    }
  }

  lemma SinceReachable(s0: State, a: Action, s: State)
    requires Since(s0, a, s)
    ensures Reachable(Next(s0, a)) && Reachable(s) && KeepsLinks(Next(s0, a), s)
  {
    hide Next, Enabled, KeepsLinks;
    var first: seq<Action> :| IsRun(START, first, s0);
    var later: seq<Action> :| IsRun(Next(s0, a), later, s);
    assert IsRun(s0, [a], Next(s0, a)) by {
      assert [a][0] == a && [a][1..] == [];
    }
    RunJoins(START, first, s0, [a], Next(s0, a));
    RunJoins(START, first + [a], Next(s0, a), later, s);
    RunKeepsLinks(Next(s0, a), later, s);
  }

  lemma BoundOrder(s: State, l: Lid)
    requires Reachable(s) && l < |s.links| && Binds(s.links[l], s.links[l].parent) && Closed(s, s.links[l].parent)
    ensures Closed(s, s.links[l].child) && TornDownBefore(s, s.links[l].child, s.links[l].parent)
  {
    hide Reachable;
    assert [l][0] == l && [l][1..] == [];
    TeardownOrder(s, s.links[l].parent, s.links[l].child, [l]);
  }

  /** A process that AddChild or WaitFor made an open `p` wait for is closed and torn down before `p`. */
  lemma WaitedForIsTornDownFirst(s0: State, a: Action, s: State, p: Pid, q: Pid)
    requires Since(s0, a, s) && (a == AddChild(p, q) || a == WaitFor(p, q)) && !Closed(s0, p) && Closed(s, p)
    ensures Closed(s, q) && TornDownBefore(s, q, p)
  {
    SinceReachable(s0, a, s);
    var l := |s0.links|;
    assert l < |Next(s0, a).links| && Next(s0, a).links[l].child == q && Binds(Next(s0, a).links[l], p);
    hide Next, Since, Reachable, TornDownBefore;
    BoundOrder(s, l);
  }

  /** The process that Go returns has a running function, and closes only after the function has returned;
      a `p` that was open waits for it. */
  lemma ChildOfGo(s0: State, s: State, p: Pid)
    requires Since(s0, Go(p), s)
    ensures var c := |s0.procs|;
            && Public(Next(s0, Go(p)), c) && !Closed(Next(s0, Go(p)), c)
            && Next(s0, Go(p)).procs[c].function_.Running?
            && (Closed(s, c) ==> HasReturned(s, c))
            && (!Closed(s0, p) && Closed(s, p) ==> Closed(s, c) && TornDownBefore(s, c, p) && HasReturned(s, c))
  {
    SinceReachable(s0, Go(p), s);
    var c, l, s1 := |s0.procs|, |s0.links| + 1, Next(s0, Go(p));
    GoMakes(s0, p);
    hide Next, Reachable, TornDownBefore, Closed, IsRun;
    var later: seq<Action> :| IsRun(s1, later, s);
    StartedStays(s1, later, s, c);
    hide Since;
    if Closed(s, c) {
      FunctionReturnsFirst(s, c);
    }
    if !Closed(s0, p) && Closed(s, p) {
      BoundOrder(s, l);
      FunctionReturnsFirst(s, c);
    }
  }

  lemma GoMakes(s: State, p: Pid)
    requires Enabled(s, Go(p))
    ensures var s', c, l := Next(s, Go(p)), |s.procs|, |s.links| + 1;
            && Public(s', c) && !Closed(s', c) && s'.procs[c].function_.Running?
            && l < |s'.links| && s'.links[l].child == c && s'.links[l].parent == p && s'.links[l].waits
            && s'.links[l].early == !Closed(s, p)
  {
  }

  predicate Started(s: State, c: Pid) { c < |s.procs| && !s.procs[c].function_.Absent? }

  lemma NextStarted(s: State, a: Action, c: Pid)
    requires Enabled(s, a) && Started(s, c)
    ensures Started(Next(s, a), c)
  {
    if a.Step? {
      StepStarted(s, a.t, a.err, c);
    }
    hide ThreadStep;
  }

  lemma StepStarted(s: State, t: Tid, err: Err, c: Pid)
    requires StepEnabled(s, t) && Started(s, c)
    ensures Started(ThreadStep(s, t, err), c)
  {
  }

  lemma {:induction false} StartedStays(s: State, actions: seq<Action>, s': State, c: Pid)
    requires IsRun(s, actions, s') && Started(s, c)
    ensures Started(s', c)
    decreases |actions|
  {
    hide Next, Enabled;
    if actions != [] {
      NextStarted(s, actions[0], c);
      StartedStays(Next(s, actions[0]), actions[1..], s', c);
    }
  }

  /** WaitFor and AddChild make an open process wait for one more, Go for its child and the child for its
      function; no other call makes anyone wait. */
  lemma WhoWaits(s: State, a: Action, r: Pid, open: set<Pid>)
    requires Enabled(s, a) && !a.Step?
    ensures WaitsOn(Next(s, a), r, open) <==>
      || WaitsOn(s, r, open)
      || match a
         case WaitFor(p, q) => r == p && !Closed(s, p) && q in open
         case AddChild(p, q) => r == p && !Closed(s, p) && q in open
         case Go(p) =>
           || (r == p && !Closed(s, p) && |s.procs| in open)
           || (r == |s.procs| && |s.procs| + 1 in open)
         case _ => false
  {
    var s' := Next(s, a);
    match a
    case WaitFor(p, q) => OneMore(s, s', r, open);
    case AddChild(p, q) => OneMore(s, s', r, open);
    case AddChildNoWait(p, q) => OneMore(s, s', r, open);
    case Go(p) => TwoMore(s, s', r, open);
    case _ =>
  }

  lemma OneMore(s: State, s': State, r: Pid, open: set<Pid>)
    requires |s'.links| == |s.links| + 1 && s.links <= s'.links
    ensures WaitsOn(s', r, open) <==>
      WaitsOn(s, r, open) || (Binds(s'.links[|s.links|], r) && s'.links[|s.links|].child in open)
  {
    if WaitsOn(s, r, open) {
      var l: nat :| l < |s.links| && Binds(s.links[l], r) && s.links[l].child in open;
      assert s'.links[l] == s.links[l];
    }
  }

  lemma TwoMore(s: State, s': State, r: Pid, open: set<Pid>)
    requires |s'.links| == |s.links| + 2 && s.links <= s'.links
    ensures WaitsOn(s', r, open) <==>
      || WaitsOn(s, r, open)
      || (Binds(s'.links[|s.links|], r) && s'.links[|s.links|].child in open)
      || (Binds(s'.links[|s.links| + 1], r) && s'.links[|s.links| + 1].child in open)
  {
    if WaitsOn(s, r, open) {
      var l: nat :| l < |s.links| && Binds(s.links[l], r) && s.links[l].child in open;
      assert s'.links[l] == s.links[l];
    }
  }

  // ----- who is told to close -----

  /** The child of a link that closes. */
  predicate MakesChild(s0: State, a: Action, p: Pid, q: Pid) {
    a == AddChild(p, q) || a == AddChildNoWait(p, q) || (a == Go(p) && q == |s0.procs|)
  }

  /** Close tells its process to close, AddChild and AddChildNoWait tell the child of a closing process, and Go
      does too, besides starting the function whose return closes what its child waits for.  No other call
      tells anyone. */
  lemma WhoIsTold(s: State, a: Action, r: Pid)
    requires Enabled(s, a) && !a.Step?
    ensures Asked(Next(s, a), r) <==>
      || Asked(s, r)
      || match a
         case CallClose(p) => r == p
         case AddChild(p, q) => r == q && s.procs[p].closing
         case AddChildNoWait(p, q) => r == q && s.procs[p].closing
         case Go(p) => (r == |s.procs| && s.procs[p].closing) || r == |s.procs| + 1
         case _ => false
  {
    hide Asked, Register;
    match a
    case New => SameTold(s, Next(s, a), r);
    case CallClose(p) => SpawnTells(s, Close(p, Enter, None), r);
    case CallCloseAfterChildren(p) => SpawnTells(s, CacEnter(p), r);
    case WaitFor(p, q) => RegisterTells(s, p, q, true, false, r);
    case AddChildNoWait(p, q) => RegisterTells(s, p, q, false, true, r);
    case AddChild(p, q) => RegisterTells(s, p, q, true, true, r);
    case Go(p) => GoTells(s, p, r);
  }

  lemma SpawnTells(s: State, th: Thread, r: Pid)
    ensures Asked(Spawn(s, th), r) <==> Asked(s, r) || WillClose(th, r)
  {
    var s' := Spawn(s, th);
    forall t: nat | t < |s.threads|
      ensures s'.threads[t] == s.threads[t]
    {
    }
    assert s'.threads[|s.threads|] == th;
    if t: nat :| t < |s.threads| && WillClose(s.threads[t], r) {
      assert WillClose(s'.threads[t], r);
    }
  }

  lemma SameTold(s: State, s': State, r: Pid)
    requires s'.threads == s.threads && |s.procs| <= |s'.procs|
    requires forall p: nat | p < |s'.procs| :: s'.procs[p].closing <==> p < |s.procs| && s.procs[p].closing
    ensures Asked(s', r) <==> Asked(s, r)
  {
  }

  lemma RegisterTells(s: State, p: Pid, q: Pid, waits: bool, closes: bool, r: Pid)
    requires p < |s.procs|
    ensures Asked(Register(s, p, q, waits, closes), r) <==>
      Asked(s, r) || (closes && s.procs[p].closing && r == q)
  {
    hide Asked;
    var s1 := if closes && s.procs[p].closing then Spawn(s, Close(q, Enter, None)) else s;
    SpawnTells(s, Close(q, Enter, None), r);
    var l := |s1.links|;
    var s' := Register(s, p, q, waits, closes);
    var s2 := s'.(threads := s1.threads);
    SameTold(s1, s2, r);
    SpawnTells(s2, AddToChild(l), r);
    assert Spawn(s2, AddToChild(l)) == s';
  }

  lemma GoTells(s: State, p: Pid, r: Pid)
    requires p < |s.procs|
    ensures Asked(GoStep(s, p), r) <==>
      Asked(s, r) || (r == |s.procs| && s.procs[p].closing) || r == |s.procs| + 1
  {
    hide Asked;
    var c := |s.procs|;
    var w := c + 1;
    var s0 := s.(procs := s.procs + [NewProcess(None)] + [NewProcess(Some(c))]);
    SameTold(s, s0, r);
    var s1 := Spawn(s0, Run(c, w));
    SpawnTells(s0, Run(c, w), r);
    var s2 := Register(s1, c, w, true, false);
    RegisterTells(s1, c, w, true, false, r);
    var s3 := PutProc(s2, c, s2.procs[c].(function_ := Running(|s.links|)));
    SameTold(s2, s3, r);
    RegisterTells(s3, p, c, true, true, r);
  }

  /** A child is told to close by the time its parent is closed, whether the parent waits for it or not. */
  lemma ChildrenAreTold(s0: State, a: Action, s: State, p: Pid, q: Pid)
    requires Since(s0, a, s) && MakesChild(s0, a, p, q) && Closed(s, p)
    ensures Asked(s, q)
  {
    SinceReachable(s0, a, s);
    var l := |Next(s0, a).links| - 1;
    var k := Next(s0, a).links[l];
    assert k.parent == p && k.child == q && k.closes;
    hide Next, Since, Reachable;
    assert KeepsLinks(Next(s0, a), s);
    ReachableDuties(s);
    ClosedHasTold(s, l);
  }

  lemma ClosedHasTold(s: State, l: Lid)
    requires Inv(s) && Duties(s) && l < |s.links| && s.links[l].closes && Closed(s, s.links[l].parent)
    ensures Asked(s, s.links[l].child)
  {
    hide Asked;
    assert ChildOk(s, l);
    var p := s.links[l].parent;
    assert ProcOk(s, p);
    if s.procs[p].closer.value < |s.threads| {
      assert ThreadOk(s, s.procs[p].closer.value);
    }
  }

  // ----- which processes finish -----

  /** A Close or CloseAfterChildren call of `p` is under way, or `p` is closing. */
  predicate ToClose(th: Thread, p: Pid) {
    || WillClose(th, p)
    || (th.CacEnter? && th.p == p) || (th.CacLock? && th.p == p)
    || (th.CacScan? && th.p == p) || (th.CacAwait? && th.p == p)
  }

  lemma NotIdleToClose(s: State, t: Tid, p: Pid, open: set<Pid>, idle: set<Pid>)
    requires Trap(s, open, idle) && p in open && t < |s.threads| && ToClose(s.threads[t], p)
    ensures WaitsOn(s, p, open)
  {
    hide WaitsOn;
    if p in idle {
      assert Untold(s, p, open, idle);
      assert Leaves(s, s.threads[t], p, open);
    }
  }

  /** A process that waits for one in a trap is in a trap. */
  lemma TrapAbove(s: State, l: Lid, open: set<Pid>, idle: set<Pid>)
    requires Inv(s) && Trap(s, open, idle) && l < |s.links| && Binds(s.links[l], s.links[l].parent)
    requires s.links[l].child in open && !Closed(s, s.links[l].parent)
    ensures Trapped(s, s.links[l].parent)
  {
    var p := s.links[l].parent;
    var more := open + {p};
    assert LinkOk(s, l);
    assert WaitsOn(s, p, more);
    forall r: Pid | WaitsOn(s, r, open)
      ensures WaitsOn(s, r, more)
    {
      MoreWaits(s, r, open, more);
    }
    forall q | q in idle
      ensures Untold(s, q, more, idle)
    {
      MoreUntold(s, q, open, more, idle);
    }
    assert Trap(s, more, idle) && p in more;
  }

  lemma MoreWaits(s: State, r: Pid, open: set<Pid>, more: set<Pid>)
    requires WaitsOn(s, r, open) && open <= more
    ensures WaitsOn(s, r, more)
  {
  }

  lemma MoreUntold(s: State, q: Pid, open: set<Pid>, more: set<Pid>, idle: set<Pid>)
    requires Untold(s, q, open, idle) && open <= more
    ensures Untold(s, q, more, idle)
  {
    hide WaitsOn;
    if WaitsOn(s, q, open) {
      MoreWaits(s, q, open, more);
    }
    forall t: nat | t < |s.threads|
      ensures Leaves(s, s.threads[t], q, more)
    {
      assert Leaves(s, s.threads[t], q, open);
    }
  }

  /** After a Close or a CloseAfterChildren call a process finishes exactly if everyone it waits for does. */
  lemma ToCloseIff(s: State, t: Tid, p: Pid, pick: (nat, State) -> (Tid, Err))
    requires Reachable(s) && NonIdling(pick) && p < |s.procs| && t < |s.threads| && ToClose(s.threads[t], p)
    ensures Finishes(s, p, pick) <==>
      forall l: nat | l < |s.links| && Binds(s.links[l], p) :: Finishes(s, s.links[l].child, pick)
  {
    ReachableInv(s);
    hide Inv, Reachable, NonIdling, Finishes, Trap;
    ShutdownIff(s, p, pick);
    forall l: nat | l < |s.links| && Binds(s.links[l], p)
      ensures Finishes(s, s.links[l].child, pick) <==> !Trapped(s, s.links[l].child)
    {
      LinkEnds(s, l);
      ShutdownIff(s, s.links[l].child, pick);
    }
    if Trapped(s, p) {
      var open: set<Pid>, idle: set<Pid> :| Trap(s, open, idle) && p in open;
      NotIdleToClose(s, t, p, open, idle);
      OpenInTrap(s, p, open, idle);
    } else {
      forall l: nat | l < |s.links| && Binds(s.links[l], p)
        ensures !Trapped(s, s.links[l].child)
      {
        if Trapped(s, s.links[l].child) {
          var open: set<Pid>, idle: set<Pid> :| Trap(s, open, idle) && s.links[l].child in open;
          OpenInTrap(s, s.links[l].child, open, idle);
          BoundOpen(s, l);
          TrapAbove(s, l, open, idle);
        }
      }
    }
  }

  lemma LinkEnds(s: State, l: Lid)
    requires Inv(s) && l < |s.links|
    ensures s.links[l].parent < |s.procs| && s.links[l].child < |s.procs|
  {
    assert LinkOk(s, l);
  }

  lemma BoundOpen(s: State, l: Lid)
    requires Inv(s) && l < |s.links| && Binds(s.links[l], s.links[l].parent) && !Closed(s, s.links[l].child)
    ensures !Closed(s, s.links[l].parent)
  {
    assert LinkOk(s, l) && ProcOk(s, s.links[l].parent);
  }

  lemma OpenInTrap(s: State, p: Pid, open: set<Pid>, idle: set<Pid>)
    requires Trap(s, open, idle) && p in open
    ensures !Closed(s, p)
  {
  }

  /** In particular right after the call. */
  lemma CallFinishesIff(s: State, a: Action, p: Pid, pick: (nat, State) -> (Tid, Err))
    requires Reachable(s) && Enabled(s, a) && NonIdling(pick)
    requires a == CallClose(p) || a == CallCloseAfterChildren(p)
    ensures var s' := Next(s, a);
            Finishes(s', p, pick) <==>
              forall l: nat | l < |s'.links| && Binds(s'.links[l], p) :: Finishes(s', s'.links[l].child, pick)
  {
    var s' := Next(s, a);
    assert IsRun(s', [], s');
    assert Since(s, a, s');
    SinceReachable(s, a, s');
    var t := |s.threads|;
    assert p < |s'.procs| && t < |s'.threads| && ToClose(s'.threads[t], p);
    hide Next, Reachable, NonIdling, Finishes, ToClose;
    ToCloseIff(s', t, p, pick);
  }

  /** CloseAfterChildren goes on to close a process that is not closing only when everyone it waits for is
      closed. */
  lemma CloseAfterChildrenWaits(s: State, t: Tid, err: Err)
    requires Reachable(s) && StepEnabled(s, t) && s.threads[t].CacScan?
    requires ThreadStep(s, t, err).threads[t].Close? && !s.procs[s.threads[t].p].closing
    ensures EarlyClosed(s, s.threads[t].p)
  {
    ReachableDuties(s);
    var CacScan(p, i) := s.threads[t];
    assert ProcOk(s, p) && ScanOk(s, s.threads[t]);
    forall l: nat | l < |s.links| && Binds(s.links[l], p)
      ensures Closed(s, s.links[l].child)
    {
      assert LinkOk(s, l);
    }
  }
}
