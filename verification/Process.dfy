/**
 The process life cycle as a state machine: one step per lock region, link access or channel wait.
 Channels that are only ever closed are booleans.  Every call of the interface is a thread of its own.
 */
module Processes {
  import opened Options

  type Pid = nat   // index of a process
  type Lid = nat   // index of a link
  type Tid = nat   // index of a thread
  type Err = int   // what a teardown returns

  /** A process link.  Its child is nil once it is cleared; `parent`, `child`, `waits` (on the waitfors
      list), `closes` (on the children list) and `early` (made before the parent closed) never change.
      `starting` says that its AddToChild thread, `registrar`, has not read the child yet. */
  datatype Link = Link(parent: Pid, child: Pid, waits: bool, closes: bool, early: bool,
                       cleared: bool, starting: bool, registrar: Tid)

  /** The function of Go; `gate` is the link from the child to the process that its return closes. */
  datatype Function = Absent | Running(gate: Lid) | Returned

  /** `closer` is the thread that runs doClose, `owner` the process that a private waitFor belongs to. */
  datatype Process = Process(children: seq<Lid>, waitfors: seq<Lid>, waiters: seq<Lid>,
                             closing: bool, closed: bool, closeErr: Err, lock: Option<Tid>,
                             closer: Option<Tid>, function_: Function, owner: Option<Pid>)

  /** Where a Close call stands.  `wf` is what is left of the waitfors list that doClose took. */
  datatype ClosePc =
    | Enter                             // before Lock and the test of Closing
    | AwaitClosed                       // a later caller, waiting for Closed
    | LoopHead                          // doClose from here on; lock held
    | SignalChild(i: nat)               // lock held, at child i
    | NextWait(wf: seq<Lid>)            // lock held
    | Fetch(wf: seq<Lid>)               // unlocked, before ChildClosed
    | Await(wf: seq<Lid>, c: Pid)       // unlocked, waiting for the child
    | Relock(wf: seq<Lid>)              // unlocked, before Lock
    | Teardown                          // lock held
    | Signal                            // lock held, teardown has run
    | Unlock                            // lock held, closed

  datatype Thread =
    | Close(p: Pid, pc: ClosePc, andThen: Option<Pid>)   // then CloseAfterChildren of `andThen`, if any
    | CacEnter(p: Pid)
    | CacLock(p: Pid)
    | CacScan(p: Pid, i: nat)                            // lock held, at waitfor i
    | CacAwait(p: Pid, c: Pid)
    | AddToChild(l: Lid)
    | Enlist(l: Lid)
    | Clear(ls: seq<Lid>)
    | Run(child: Pid, waitFor: Pid)                      // the function of Go
    | Return(p: Pid, err: Err)                           // a Close call that has returned
    | Finished
    | Panicked

  datatype Entry = Entry(p: Pid, err: Err)

  /** `log` lists the teardowns that have run. */
  datatype State = State(procs: seq<Process>, links: seq<Link>, threads: seq<Thread>, log: seq<Entry>)

  datatype Action =
    | Step(t: Tid, err: Err)            // thread t moves; err is what a teardown returns
    | New
    | CallClose(p: Pid)
    | CallCloseAfterChildren(p: Pid)
    | WaitFor(p: Pid, q: Pid)
    | AddChildNoWait(p: Pid, q: Pid)
    | AddChild(p: Pid, q: Pid)
    | Go(p: Pid)

  const START := State([], [], [], [])

  function NewProcess(owner: Option<Pid>): Process {
    Process([], [], [], false, false, 0, None, None, Absent, owner)
  }

  // ----- steps of a thread -----

  predicate Free(s: State, p: Pid) { p < |s.procs| && s.procs[p].lock.None? }

  predicate Closed(s: State, p: Pid) { p < |s.procs| && s.procs[p].closed }

  function PutThread(s: State, t: Tid, th: Thread): State
    requires t < |s.threads|
  {
    s.(threads := s.threads[t := th])
  }

  function PutProc(s: State, p: Pid, pr: Process): State
    requires p < |s.procs|
  {
    s.(procs := s.procs[p := pr])
  }

  function PutLink(s: State, l: Lid, k: Link): State
    requires l < |s.links|
  {
    s.(links := s.links[l := k])
  }

  function Spawn(s: State, th: Thread): State {
    s.(threads := s.threads + [th])
  }

  predicate CloseEnabled(s: State, p: Pid, pc: ClosePc) {
    && p < |s.procs|
    && match pc
       case Enter => Free(s, p)
       case AwaitClosed => Closed(s, p)
       case SignalChild(i) => i < |s.procs[p].children| ==> s.procs[p].children[i] < |s.links|
       case Fetch(wf) => wf != [] && wf[0] < |s.links|
       case Await(wf, c) => Closed(s, c)
       case Relock(wf) => wf != [] && Free(s, p)
       case _ => true
  }

  predicate StepEnabled(s: State, t: Tid) {
    && t < |s.threads|
    && match s.threads[t]
       case Close(p, pc, _) => CloseEnabled(s, p, pc)
       case CacEnter(p) => Free(s, p)
       case CacLock(p) => Free(s, p)
       case CacScan(p, i) =>
         p < |s.procs| && (i < |s.procs[p].waitfors| ==> s.procs[p].waitfors[i] < |s.links|)
       case CacAwait(p, c) => Closed(s, c)
       case AddToChild(l) => l < |s.links|
       case Enlist(l) => l < |s.links| && Free(s, s.links[l].child)
       case Clear(ls) => ls != [] ==> ls[0] < |s.links|
       case Run(c, w) => c < |s.procs|
       case _ => false
  }

  /** What a Close call goes on to when it has returned. */
  function AfterClose(s: State, p: Pid, andThen: Option<Pid>): Thread
    requires p < |s.procs|
  {
    match andThen
    case None => Return(p, s.procs[p].closeErr)
    case Some(c) => CacEnter(c)
  }

  /** One step of Close or doClose by thread `t`. */
  function CloseStep(s: State, t: Tid, err: Err): State
    requires t < |s.threads| && s.threads[t].Close? && CloseEnabled(s, s.threads[t].p, s.threads[t].pc)
  {
    var Close(p, pc, andThen) := s.threads[t];
    var pr := s.procs[p];
    match pc
    case Enter =>
      if pr.closing then
        PutThread(s, t, Close(p, AwaitClosed, andThen))
      else
        PutProc(PutThread(s, t, Close(p, LoopHead, andThen)), p,
                pr.(closing := true, closer := Some(t), lock := Some(t)))
    case AwaitClosed =>
      PutThread(s, t, AfterClose(s, p, andThen))
    case LoopHead =>
      PutThread(s, t, Close(p, if pr.children == [] && pr.waitfors == [] then Teardown else SignalChild(0), andThen))
    case SignalChild(i) =>
      if i < |pr.children| then
        var k := s.links[pr.children[i]];
        var s' := PutThread(s, t, Close(p, SignalChild(i + 1), andThen));
        if k.cleared then s' else Spawn(s', Close(k.child, Enter, None))
      else
        PutProc(PutThread(s, t, Close(p, NextWait(pr.waitfors), andThen)), p, pr.(children := [], waitfors := []))
    case NextWait(wf) =>
      if wf == [] then
        PutThread(s, t, Close(p, LoopHead, andThen))
      else
        PutProc(PutThread(s, t, Close(p, Fetch(wf), andThen)), p, pr.(lock := None))
    case Fetch(wf) =>
      PutThread(s, t, Close(p, if s.links[wf[0]].cleared then Relock(wf) else Await(wf, s.links[wf[0]].child), andThen))
    case Await(wf, c) =>
      PutThread(s, t, Close(p, Relock(wf), andThen))
    case Relock(wf) =>
      PutProc(PutThread(s, t, Close(p, NextWait(wf[1..]), andThen)), p, pr.(lock := Some(t)))
    case Teardown =>
      PutProc(PutThread(s, t, Close(p, Signal, andThen)), p, pr.(closeErr := err)).(log := s.log + [Entry(p, err)])
    case Signal =>
      Spawn(PutProc(PutThread(s, t, Close(p, Unlock, andThen)), p, pr.(closed := true)), Clear(pr.waiters))
    case Unlock =>
      PutProc(PutThread(s, t, AfterClose(s, p, andThen)), p, pr.(lock := None))
  }

  function ThreadStep(s: State, t: Tid, err: Err): State
    requires StepEnabled(s, t)
  {
    match s.threads[t]
    case Close(_, _, _) => CloseStep(s, t, err)
    case CacEnter(p) =>
      PutThread(s, t, if s.procs[p].closed then Close(p, Enter, None) else CacLock(p))
    case CacLock(p) =>
      PutProc(PutThread(s, t, CacScan(p, 0)), p, s.procs[p].(lock := Some(t)))
    case CacScan(p, i) =>
      var pr := s.procs[p];
      if i < |pr.waitfors| then
        var k := s.links[pr.waitfors[i]];
        if k.cleared || Closed(s, k.child) then
          PutThread(s, t, CacScan(p, i + 1))
        else
          PutProc(PutThread(s, t, CacAwait(p, k.child)), p, pr.(lock := None))
      else
        PutProc(PutThread(s, t, Close(p, Enter, None)), p, pr.(lock := None))
    case CacAwait(p, c) =>
      PutThread(s, t, CacLock(p))
    case AddToChild(l) =>
      if s.links[l].cleared then PutThread(s, t, Panicked)
      else PutLink(PutThread(s, t, Enlist(l)), l, s.links[l].(starting := false))
    case Enlist(l) =>
      var c := s.links[l].child;
      if s.procs[c].closed then
        PutThread(s, t, Clear([l]))
      else
        PutProc(PutThread(s, t, Finished), c, s.procs[c].(waiters := s.procs[c].waiters + [l]))
    case Clear(ls) =>
      if ls == [] then PutThread(s, t, Finished)
      else PutLink(PutThread(s, t, Clear(ls[1..])), ls[0], s.links[ls[0]].(cleared := true))
    case Run(c, w) =>
      PutProc(PutThread(s, t, Close(w, Enter, Some(c))), c, s.procs[c].(function_ := Returned))
  }

  // ----- calls -----

  /** A process that clients can get hold of. */
  predicate Public(s: State, p: Pid) { p < |s.procs| && s.procs[p].owner.None? }

  /** A new link on the lists of `p`, and the AddToChild thread it starts. */
  function AddLink(s: State, p: Pid, q: Pid, waits: bool, closes: bool): State
    requires p < |s.procs|
  {
    var pr := s.procs[p];
    var l := |s.links|;
    var k := Link(p, q, waits, closes, !pr.closed, false, true, |s.threads|);
    var pr' := pr.(waitfors := if waits then pr.waitfors + [l] else pr.waitfors,
                   children := if closes then pr.children + [l] else pr.children);
    Spawn(PutProc(s, p, pr').(links := s.links + [k]), AddToChild(l))
  }

  /** The lock region of WaitFor, AddChildNoWait or AddChild. */
  function Register(s: State, p: Pid, q: Pid, waits: bool, closes: bool): State
    requires p < |s.procs|
  {
    AddLink(if closes && s.procs[p].closing then Spawn(s, Close(q, Enter, None)) else s, p, q, waits, closes)
  }

  /** Go: a child, a private process the child waits for, and the thread that runs the function.
      The two new processes are not visible before AddChild, so this is one step. */
  function GoStep(s: State, p: Pid): State
    requires p < |s.procs|
  {
    var c := |s.procs|;
    var w := c + 1;
    var s1 := Spawn(s.(procs := s.procs + [NewProcess(None)] + [NewProcess(Some(c))]), Run(c, w));
    var s2 := Register(s1, c, w, true, false);
    var s3 := PutProc(s2, c, s2.procs[c].(function_ := Running(|s.links|)));
    Register(s3, p, c, true, true)
  }

  predicate Enabled(s: State, a: Action) {
    match a
    case Step(t, _) => StepEnabled(s, t)
    case New => true
    case CallClose(p) => Public(s, p)
    case CallCloseAfterChildren(p) => Public(s, p)
    case WaitFor(p, q) => Public(s, p) && Public(s, q) && Free(s, p) && !s.procs[p].closed
    case AddChildNoWait(p, q) => Public(s, p) && Public(s, q) && Free(s, p)
    case AddChild(p, q) => Public(s, p) && Public(s, q) && Free(s, p)
    case Go(p) => Public(s, p) && Free(s, p)
  }

  function Next(s: State, a: Action): State
    requires Enabled(s, a)
  {
    match a
    case Step(t, err) => ThreadStep(s, t, err)
    case New => s.(procs := s.procs + [NewProcess(None)])
    case CallClose(p) => Spawn(s, Close(p, Enter, None))
    case CallCloseAfterChildren(p) => Spawn(s, CacEnter(p))
    case WaitFor(p, q) => Register(s, p, q, true, false)
    case AddChildNoWait(p, q) => Register(s, p, q, false, true)
    case AddChild(p, q) => Register(s, p, q, true, true)
    case Go(p) => GoStep(s, p)
  }

  /** A run takes enabled actions only. */
  ghost predicate IsRun(s: State, actions: seq<Action>, s': State)
    decreases |actions|
  {
    if actions == [] then s == s'
    else Enabled(s, actions[0]) && IsRun(Next(s, actions[0]), actions[1..], s')
  }
}
