/**
 The context tree.  Contexts are numbered in the order they are made, so a parent has a smaller
 number than the contexts derived from it.
 */
module ContextSpec {
  import opened Options

  datatype Error = Canceled | DeadlineExceeded

  datatype Kind = Empty | Cancel | Timer(deadline: int) | Value(key: int, val: int)

  /** `err` and `children` are those of a cancelCtx (or the one inside a timerCtx); `timer` says that a
      timer is set.  Other kinds leave them as they are made. */
  datatype Node = Node(kind: Kind, parent: nat, err: Option<Error>, children: set<nat>, timer: bool)

  predicate Canceler(n: Node) { n.kind.Cancel? || n.kind.Timer? }

  /** Parents come before the contexts derived from them. */
  ghost predicate Tree(ns: seq<Node>) {
    forall i: nat | i < |ns| && !ns[i].kind.Empty? :: ns[i].parent < i
  }

  /** The canceler that a context stands under: itself, or the first one above it. */
  ghost function Nearest(ns: seq<Node>, i: nat): (r: Option<nat>)
    requires Tree(ns) && i < |ns|
    ensures r.Some? ==> r.value <= i && Canceler(ns[r.value])
  {
    if Canceler(ns[i]) then Some(i)
    else if ns[i].kind.Value? then Nearest(ns, ns[i].parent)
    else None
  }

  /** The canceler strictly above a context. */
  ghost function Up(ns: seq<Node>, i: nat): (r: Option<nat>)
    requires Tree(ns) && i < |ns|
    ensures r.Some? ==> r.value < i && Canceler(ns[r.value])
  {
    if ns[i].kind.Empty? then None else Nearest(ns, ns[i].parent)
  }

  /** Canceler `i` is `c` or below it. */
  ghost predicate Under(ns: seq<Node>, i: nat, c: nat)
    requires Tree(ns) && i < |ns|
    decreases i
  {
    i == c || (Up(ns, i).Some? && Under(ns, Up(ns, i).value, c))
  }

  ghost function Err(ns: seq<Node>, i: nat): Option<Error>
    requires Tree(ns) && i < |ns|
  {
    match Nearest(ns, i)
    case None => None
    case Some(c) => ns[c].err
  }

  ghost function Deadline(ns: seq<Node>, i: nat): Option<int>
    requires Tree(ns) && i < |ns|
  {
    match ns[i].kind
    case Empty => None
    case Timer(d) => Some(d)
    case _ => Deadline(ns, ns[i].parent)
  }

  // ----- what a quiescent tree keeps -----

  /** The uncancelled cancelers directly under `c`. */
  ghost function Registered(ns: seq<Node>, c: nat): set<nat>
    requires Tree(ns)
  {
    set e: nat | e < |ns| && Canceler(ns[e]) && Up(ns, e) == Some(c) && ns[e].err.None?
  }

  ghost predicate NodeOk(ns: seq<Node>, c: nat)
    requires Tree(ns) && c < |ns|
  {
    Canceler(ns[c]) ==>
      && (ns[c].timer ==> ns[c].kind.Timer?)
      && (ns[c].err.None? ==> ns[c].children == Registered(ns, c))
      && (ns[c].err.Some? ==> ns[c].children == {} && !ns[c].timer && Registered(ns, c) == {})
  }

  ghost predicate DeadlineOk(ns: seq<Node>, i: nat)
    requires Tree(ns) && i < |ns|
  {
    ns[i].kind.Timer? ==>
      var above := Deadline(ns, ns[i].parent); above.Some? ==> ns[i].kind.deadline <= above.value
  }

  ghost predicate Valid(ns: seq<Node>) {
    Tree(ns) && forall i: nat | i < |ns| :: NodeOk(ns, i) && DeadlineOk(ns, i)
  }

  // ----- the operations -----

  /** Everything uncancelled under one of `cs` is cancelled with `err`. */
  ghost function CancelAll(ns: seq<Node>, cs: set<nat>, err: Error): (r: seq<Node>)
    requires Tree(ns)
    ensures |r| == |ns|
  {
    seq(|ns|, i requires 0 <= i < |ns| =>
      if Canceler(ns[i]) && ns[i].err.None? && (exists c :: c in cs && Under(ns, i, c))
      then ns[i].(err := Some(err), children := {}, timer := false) else ns[i])
  }

  ghost function RemoveChild(ns: seq<Node>, c: nat): (r: seq<Node>)
    requires Tree(ns) && c < |ns|
    ensures |r| == |ns|
  {
    match Up(ns, c)
    case None => ns
    case Some(p) => ns[p := ns[p].(children := ns[p].children - {c})]
  }

  /** A new context of the given kind under `parent`, told to its nearest canceler. */
  ghost function Derive(ns: seq<Node>, kind: Kind, parent: nat): (r: seq<Node>)
    requires Tree(ns) && parent < |ns| && !kind.Empty?
    ensures |r| == |ns| + 1
  {
    var node := Node(kind, parent, None, {}, false);
    if kind.Value? then ns + [node]
    else
      match Nearest(ns, parent)
      case None => ns + [node]
      case Some(p) =>
        if ns[p].err.Some? then ns + [node.(err := ns[p].err)]
        else ns[p := ns[p].(children := ns[p].children + {|ns|})] + [node]
  }

  lemma SameTree(ns: seq<Node>, ns': seq<Node>, i: nat, c: nat)
    requires Tree(ns) && |ns| <= |ns'| && i < |ns|
    requires forall j: nat | j < |ns| :: ns'[j].kind == ns[j].kind && ns'[j].parent == ns[j].parent
    requires Tree(ns')
    ensures Nearest(ns', i) == Nearest(ns, i) && Up(ns', i) == Up(ns, i)
    ensures Under(ns', i, c) == Under(ns, i, c)
    ensures Deadline(ns', i) == Deadline(ns, i)
  {
    NearestSame(ns, ns', i);
    if !ns[i].kind.Empty? {
      NearestSame(ns, ns', ns[i].parent);
      if Up(ns, i).Some? {
        SameTree(ns, ns', Up(ns, i).value, c);
      }
      SameTree(ns, ns', ns[i].parent, c);
    }
  }

  lemma NearestSame(ns: seq<Node>, ns': seq<Node>, i: nat)
    requires Tree(ns) && |ns| <= |ns'| && i < |ns| && Tree(ns')
    requires forall j: nat | j < |ns| :: ns'[j].kind == ns[j].kind && ns'[j].parent == ns[j].parent
    ensures Nearest(ns', i) == Nearest(ns, i)
  {
    if ns[i].kind.Value? {
      NearestSame(ns, ns', ns[i].parent);
    }
  }

  // ----- cancelling -----

  ghost predicate UnderAny(ns: seq<Node>, i: nat, cs: set<nat>)
    requires Tree(ns) && i < |ns|
  {
    exists c :: c in cs && Under(ns, i, c)
  }

  lemma CancelAllTree(ns: seq<Node>, cs: set<nat>, err: Error)
    requires Tree(ns)
    ensures Tree(CancelAll(ns, cs, err))
    ensures forall j: nat | j < |ns| ::
              CancelAll(ns, cs, err)[j].kind == ns[j].kind && CancelAll(ns, cs, err)[j].parent == ns[j].parent
  {
  }

  /** Cancelling everything under `cs` keeps a node in order, unless it is right above one of `cs`. */
  lemma CancelKeepsNode(ns: seq<Node>, cs: set<nat>, err: Error, d: nat)
    requires Tree(ns) && d < |ns| && NodeOk(ns, d) && (forall c | c in cs :: c < |ns|)
    requires UnderAny(ns, d, cs) || forall c | c in cs :: Up(ns, c) != Some(d)
    ensures Tree(CancelAll(ns, cs, err)) && NodeOk(CancelAll(ns, cs, err), d)
  {
    CancelAllTree(ns, cs, err);
    var ns' := CancelAll(ns, cs, err);
    if Canceler(ns[d]) {
      forall e: nat | e < |ns| && Canceler(ns[e]) && Up(ns, e) == Some(d)
        ensures UnderAny(ns, d, cs) ==> UnderAny(ns, e, cs)
        ensures !UnderAny(ns, d, cs) ==> !UnderAny(ns, e, cs)
      {
        assert forall c :: Under(ns, e, c) <==> e == c || Under(ns, d, c);
        if UnderAny(ns, d, cs) {
          var c :| c in cs && Under(ns, d, c);
          assert Under(ns, e, c);
        }
      }
      forall e: nat | e < |ns|
        ensures e in Registered(ns', d) <==> e in Registered(ns, d) && !UnderAny(ns, e, cs)
      {
        SameTree(ns, ns', e, d);
      }
    }
  }

  /** An uncancelled canceler below `c` is under one of the children registered with `c`. */
  lemma {:induction false} UnderChild(ns: seq<Node>, i: nat, c: nat)
    requires Tree(ns) && c < i < |ns| && Canceler(ns[i]) && ns[i].err.None? && Under(ns, i, c)
    requires Canceler(ns[c]) && ns[c].err.None? && forall d: nat | c <= d < |ns| :: NodeOk(ns, d)
    ensures UnderAny(ns, i, ns[c].children)
    decreases i
  {
    var u := Up(ns, i).value;
    UnderAbove(ns, u, c);
    assert i in Registered(ns, u);
    assert NodeOk(ns, u);
    if u == c {
      assert Under(ns, i, i);
    } else {
      UnderChild(ns, u, c);
      var k :| k in ns[c].children && Under(ns, u, k);
      assert Under(ns, i, k);
    }
  }

  lemma {:induction false} UnderAbove(ns: seq<Node>, i: nat, c: nat)
    requires Tree(ns) && i < |ns| && Under(ns, i, c)
    ensures c <= i && (Canceler(ns[i]) ==> Canceler(ns[c]))
    decreases i
  {
    if i != c {
      UnderAbove(ns, Up(ns, i).value, c);
    }
  }

  /** Cancelling one more of the children. */
  lemma CancelOneMore(ns: seq<Node>, done: set<nat>, k: nat, err: Error)
    requires Tree(ns)
    ensures Tree(CancelAll(ns, done, err))
    ensures CancelAll(CancelAll(ns, done, err), {k}, err) == CancelAll(ns, done + {k}, err)
  {
    CancelAllTree(ns, done, err);
    var ns' := CancelAll(ns, done, err);
    forall i: nat | i < |ns|
      ensures CancelAll(ns', {k}, err)[i] == CancelAll(ns, done + {k}, err)[i]
    {
      SameTree(ns, ns', i, k);
      assert UnderAny(ns, i, done + {k}) <==> UnderAny(ns, i, done) || Under(ns, i, k);
      assert UnderAny(ns', i, {k}) <==> Under(ns, i, k);
    }
  }

  /** Marking `c`, cancelling its children and forgetting them cancels everything under `c`. */
  lemma CancelUnfolds(ns: seq<Node>, c: nat, err: Error)
    requires Tree(ns) && c < |ns| && Canceler(ns[c]) && ns[c].err.None?
    requires forall d: nat | c <= d < |ns| :: NodeOk(ns, d)
    ensures var marked := ns[c := ns[c].(err := Some(err))];
            && Tree(marked)
            && var ns' := CancelAll(marked, ns[c].children, err);
               ns'[c := ns'[c].(children := {}, timer := false)] == CancelAll(ns, {c}, err)
  {
    var marked := ns[c := ns[c].(err := Some(err))];
    var ns' := CancelAll(marked, ns[c].children, err);
    assert NodeOk(ns, c);
    forall i: nat | i < |ns| && i != c
      ensures ns'[i] == CancelAll(ns, {c}, err)[i]
    {
      assert forall k :: Under(marked, i, k) == Under(ns, i, k) by {
        forall k: nat ensures Under(marked, i, k) == Under(ns, i, k) {
          SameTree(ns, marked, i, k);
        }
      }
      assert UnderAny(ns, i, {c}) <==> Under(ns, i, c);
      assert UnderAny(marked, i, ns[c].children) <==> UnderAny(ns, i, ns[c].children);
      if Canceler(ns[i]) && ns[i].err.None? {
        if Under(ns, i, c) {
          UnderAbove(ns, i, c);
          UnderChild(ns, i, c);
        } else if UnderAny(ns, i, ns[c].children) {
          var k :| k in ns[c].children && Under(ns, i, k);
          UnderVia(ns, i, k, c);
        }
      }
    }
    assert Under(ns, c, c);
  }

  lemma {:induction false} UnderVia(ns: seq<Node>, i: nat, k: nat, c: nat)
    requires Tree(ns) && i < |ns| && k < |ns| && Under(ns, i, k) && Up(ns, k) == Some(c)
    ensures Under(ns, i, c)
    decreases i
  {
    if i != k {
      UnderVia(ns, Up(ns, i).value, k, c);
    }
  }

  lemma CancelNone(ns: seq<Node>, err: Error)
    requires Tree(ns)
    ensures CancelAll(ns, {}, err) == ns
  {
  }

  lemma AlreadyCancelled(ns: seq<Node>, c: nat, err: Error)
    requires Tree(ns) && c < |ns| && Canceler(ns[c]) && ns[c].err.Some?
    requires forall d: nat | c <= d < |ns| :: NodeOk(ns, d)
    ensures CancelAll(ns, {c}, err) == ns
  {
    forall i: nat | i < |ns| && Canceler(ns[i]) && Under(ns, i, c)
      ensures ns[i].err.Some?
    {
      UnderCancelled(ns, i, c);
    }
  }

  /** While the children of `c` are cancelled one by one, everything beyond `c` stays in order. */
  lemma TailKept(ns: seq<Node>, c: nat, done: set<nat>, err: Error, d: nat)
    requires Tree(ns) && c < d < |ns| && NodeOk(ns, d)
    requires forall k | k in done :: k < |ns| && Up(ns, k) == Some(c)
    ensures var marked := ns[c := ns[c].(err := Some(err))];
            && Tree(marked) && Tree(CancelAll(marked, done, err)) && NodeOk(CancelAll(marked, done, err), d)
  {
    var marked := ns[c := ns[c].(err := Some(err))];
    forall e: nat | e < |ns|
      ensures e in Registered(marked, d) <==> e in Registered(ns, d)
    {
      SameTree(ns, marked, e, d);
    }
    assert Registered(marked, d) == Registered(ns, d);
    forall k | k in done
      ensures k < |marked| && Up(marked, k) != Some(d)
    {
      SameTree(ns, marked, k, d);
    }
    CancelKeepsNode(marked, done, err, d);
  }

  /** A CancelFunc call or a timer: cancel, then leave the parent's children. */
  ghost function CancelCall(ns: seq<Node>, c: nat, err: Error): (r: seq<Node>)
    requires Tree(ns) && c < |ns|
    ensures |r| == |ns|
  {
    CancelAllTree(ns, {c}, err);
    RemoveChild(CancelAll(ns, {c}, err), c)
  }

  lemma CancelCallValid(ns: seq<Node>, c: nat, err: Error)
    requires Valid(ns) && c < |ns| && Canceler(ns[c])
    ensures Valid(CancelCall(ns, c, err))
  {
    var ns1 := CancelAll(ns, {c}, err);
    var ns' := CancelCall(ns, c, err);
    CancelAllTree(ns, {c}, err);
    assert Tree(ns');
    SameTree(ns, ns1, c, c);
    forall d: nat | d < |ns|
      ensures NodeOk(ns', d) && DeadlineOk(ns', d)
    {
      SameTree(ns, ns', d, d);
      if !ns[d].kind.Empty? {
        SameTree(ns, ns', ns[d].parent, d);
      }
      assert NodeOk(ns, d) && DeadlineOk(ns, d);
      SameRegistered(ns1, ns', d);
      if Up(ns, c) != Some(d) {
        CancelKeepsNode(ns, {c}, err, d);
      } else {
        ParentRegistered(ns, c, err, d);
      }
    }
  }

  lemma SameRegistered(ns: seq<Node>, ns': seq<Node>, d: nat)
    requires Tree(ns) && Tree(ns') && |ns| == |ns'|
    requires forall j: nat | j < |ns| ::
               ns'[j].kind == ns[j].kind && ns'[j].parent == ns[j].parent && ns'[j].err == ns[j].err
    ensures Registered(ns', d) == Registered(ns, d)
  {
    forall e: nat | e < |ns|
      ensures e in Registered(ns', d) <==> e in Registered(ns, d)
    {
      SameTree(ns, ns', e, d);
    }
  }

  /** Right above `c`, exactly `c` leaves the uncancelled ones. */
  lemma ParentRegistered(ns: seq<Node>, c: nat, err: Error, p: nat)
    requires Tree(ns) && c < |ns| && Canceler(ns[c]) && Up(ns, c) == Some(p)
    ensures Tree(CancelAll(ns, {c}, err))
    ensures Registered(CancelAll(ns, {c}, err), p) == Registered(ns, p) - {c}
    ensures CancelAll(ns, {c}, err)[p] == ns[p]
  {
    CancelAllTree(ns, {c}, err);
    var ns' := CancelAll(ns, {c}, err);
    forall e: nat | e < |ns|
      ensures e in Registered(ns', p) <==> e in Registered(ns, p) && e != c
    {
      SameTree(ns, ns', e, p);
      assert Under(ns, c, c);
      if Up(ns, e) == Some(p) && e != c && Under(ns, e, c) {
        UnderAbove(ns, p, c);
      }
    }
    if Under(ns, p, c) {
      UnderAbove(ns, p, c);
    }
  }

  // ----- deriving -----

  lemma DeriveTree(ns: seq<Node>, kind: Kind, parent: nat)
    requires Tree(ns) && parent < |ns| && !kind.Empty?
    ensures Tree(Derive(ns, kind, parent))
    ensures forall j: nat | j < |ns| ::
              && Derive(ns, kind, parent)[j].kind == ns[j].kind && Derive(ns, kind, parent)[j].parent == ns[j].parent
              && Derive(ns, kind, parent)[j].err == ns[j].err && Derive(ns, kind, parent)[j].timer == ns[j].timer
  {
  }

  lemma DeriveRegistered(ns: seq<Node>, kind: Kind, parent: nat, d: nat)
    requires Tree(ns) && parent < |ns| && !kind.Empty? && d < |ns|
    ensures Tree(Derive(ns, kind, parent))
    ensures Registered(Derive(ns, kind, parent), d)
         == Registered(ns, d)
            + (if !kind.Value? && Nearest(ns, parent) == Some(d) && ns[d].err.None? then {|ns|} else {})
  {
    DeriveTree(ns, kind, parent);
    var ns' := Derive(ns, kind, parent);
    forall e: nat | e < |ns|
      ensures e in Registered(ns', d) <==> e in Registered(ns, d)
    {
      hide Derive, Nearest, Up;
      SameTree(ns, ns', e, d);
    }
    NewRegistered(ns, kind, parent, d);
    assert forall e | e in Registered(ns', d) :: e < |ns| || e == |ns|;
  }

  lemma NewRegistered(ns: seq<Node>, kind: Kind, parent: nat, d: nat)
    requires Tree(ns) && parent < |ns| && !kind.Empty? && d < |ns|
    ensures Tree(Derive(ns, kind, parent))
    ensures |ns| in Registered(Derive(ns, kind, parent), d)
       <==> !kind.Value? && Nearest(ns, parent) == Some(d) && ns[d].err.None?
  {
    DeriveTree(ns, kind, parent);
    SameTree(ns, Derive(ns, kind, parent), parent, parent);
  }

  lemma DeriveLeaf(ns: seq<Node>, kind: Kind, parent: nat)
    requires Tree(ns) && parent < |ns| && !kind.Empty?
    ensures Tree(Derive(ns, kind, parent)) && NodeOk(Derive(ns, kind, parent), |ns|)
  {
    DeriveTree(ns, kind, parent);
    assert Registered(Derive(ns, kind, parent), |ns|) == {};
  }

  lemma DeriveValid(ns: seq<Node>, kind: Kind, parent: nat)
    requires Valid(ns) && parent < |ns| && !kind.Empty?
    requires kind.Timer? && Deadline(ns, parent).Some? ==> kind.deadline <= Deadline(ns, parent).value
    ensures Valid(Derive(ns, kind, parent))
  {
    var ns' := Derive(ns, kind, parent);
    DeriveTree(ns, kind, parent);
    DeriveLeaf(ns, kind, parent);
    DeriveLeafDeadline(ns, kind, parent);
    hide NodeOk, DeadlineOk;
    forall d: nat | d < |ns|
      ensures NodeOk(ns', d) && DeadlineOk(ns', d)
    {
      DeriveNode(ns, kind, parent, d);
    }
  }

  lemma DeriveLeafDeadline(ns: seq<Node>, kind: Kind, parent: nat)
    requires Tree(ns) && parent < |ns| && !kind.Empty?
    requires kind.Timer? && Deadline(ns, parent).Some? ==> kind.deadline <= Deadline(ns, parent).value
    ensures Tree(Derive(ns, kind, parent)) && DeadlineOk(Derive(ns, kind, parent), |ns|)
  {
    DeriveTree(ns, kind, parent);
    SameTree(ns, Derive(ns, kind, parent), parent, parent);
  }

  lemma DeriveNode(ns: seq<Node>, kind: Kind, parent: nat, d: nat)
    requires Valid(ns) && parent < |ns| && !kind.Empty? && d < |ns|
    ensures var ns' := Derive(ns, kind, parent);
            Tree(ns') && NodeOk(ns', d) && DeadlineOk(ns', d)
  {
    var ns' := Derive(ns, kind, parent);
    DeriveTree(ns, kind, parent);
    SameTree(ns, ns', parent, parent);
    hide Registered;
    assert NodeOk(ns, d) && DeadlineOk(ns, d);
    DeriveRegistered(ns, kind, parent, d);
    if !ns[d].kind.Empty? {
      SameTree(ns, ns', ns[d].parent, d);
    }
  }

  /** What WithDeadline makes: a WithCancel context when the parent's deadline is sooner, otherwise a
      timer, which is cancelled at once when the deadline has passed and set when nothing cancelled it. */
  ghost function WithDeadline(ns: seq<Node>, parent: nat, deadline: int, now: int): (r: seq<Node>)
    requires Tree(ns) && parent < |ns|
    ensures |r| == |ns| + 1
  {
    var cur := Deadline(ns, parent);
    if cur.Some? && cur.value < deadline then Derive(ns, Cancel, parent)
    else
      DeriveTree(ns, Timer(deadline), parent);
      var made := Derive(ns, Timer(deadline), parent);
      if deadline <= now then CancelCall(made, |ns|, DeadlineExceeded)
      else if made[|ns|].err.None? then made[|ns| := made[|ns|].(timer := true)]
      else made
  }

  lemma WithDeadlineValid(ns: seq<Node>, parent: nat, deadline: int, now: int)
    requires Valid(ns) && parent < |ns|
    ensures Valid(WithDeadline(ns, parent, deadline, now))
  {
    var cur := Deadline(ns, parent);
    if cur.Some? && cur.value < deadline {
      DeriveValid(ns, Cancel, parent);
    } else {
      DeriveValid(ns, Timer(deadline), parent);
      var made := Derive(ns, Timer(deadline), parent);
      if deadline <= now {
        CancelCallValid(made, |ns|, DeadlineExceeded);
      } else if made[|ns|].err.None? {
        TimerValid(made, |ns|);
      }
    }
  }

  lemma TimerValid(ns: seq<Node>, c: nat)
    requires Valid(ns) && c < |ns| && ns[c].kind.Timer? && ns[c].err.None?
    ensures Valid(ns[c := ns[c].(timer := true)])
  {
    var ns' := ns[c := ns[c].(timer := true)];
    forall d: nat | d < |ns|
      ensures NodeOk(ns', d) && DeadlineOk(ns', d)
    {
      assert NodeOk(ns, d) && DeadlineOk(ns, d);
      SameRegistered(ns, ns', d);
      if !ns[d].kind.Empty? {
        SameTree(ns, ns', ns[d].parent, d);
      }
    }
  }

  // ----- runs -----

  datatype Op =
    | NewEmpty
    | NewValue(parent: nat, key: int, val: int)
    | NewCancel(parent: nat)
    | NewDeadline(parent: nat, deadline: int, now: int)
    | CallCancel(c: nat)
    | TimerFires(c: nat)

  predicate MayApply(ns: seq<Node>, op: Op) {
    match op
    case NewEmpty => true
    case NewValue(p, _, _) => p < |ns|
    case NewCancel(p) => p < |ns|
    case NewDeadline(p, _, _) => p < |ns|
    case CallCancel(c) => c < |ns| && Canceler(ns[c])
    case TimerFires(c) => c < |ns| && ns[c].kind.Timer? && ns[c].timer
  }

  ghost function Apply(ns: seq<Node>, op: Op): seq<Node>
    requires Tree(ns) && MayApply(ns, op)
  {
    match op
    case NewEmpty => ns + [Node(Empty, 0, None, {}, false)]
    case NewValue(p, key, val) => Derive(ns, Value(key, val), p)
    case NewCancel(p) => Derive(ns, Cancel, p)
    case NewDeadline(p, d, now) => WithDeadline(ns, p, d, now)
    case CallCancel(c) => CancelCall(ns, c, Canceled)
    case TimerFires(c) => CancelCall(ns, c, DeadlineExceeded)
  }

  lemma ApplyValid(ns: seq<Node>, op: Op)
    requires Valid(ns) && MayApply(ns, op)
    ensures Valid(Apply(ns, op))
  {
    hide Valid;
    match op
    case NewEmpty => EmptyValid(ns);
    case NewValue(p, key, val) => DeriveValid(ns, Value(key, val), p);
    case NewCancel(p) => DeriveValid(ns, Cancel, p);
    case NewDeadline(p, d, now) => WithDeadlineValid(ns, p, d, now);
    case CallCancel(c) => CancelCallValid(ns, c, Canceled);
    case TimerFires(c) => CancelCallValid(ns, c, DeadlineExceeded);
  }

  lemma EmptyValid(ns: seq<Node>)
    requires Valid(ns)
    ensures Valid(ns + [Node(Empty, 0, None, {}, false)])
  {
    var ns' := ns + [Node(Empty, 0, None, {}, false)];
    forall d: nat | d < |ns|
      ensures NodeOk(ns', d) && DeadlineOk(ns', d)
    {
      assert NodeOk(ns, d) && DeadlineOk(ns, d);
      if !ns[d].kind.Empty? {
        SameTree(ns, ns', ns[d].parent, d);
      }
      forall e: nat | e < |ns|
        ensures e in Registered(ns', d) <==> e in Registered(ns, d)
      {
        SameTree(ns, ns', e, d);
      }
      assert Registered(ns', d) == Registered(ns, d);
    }
  }

  /** Nothing that was is forgotten: kinds, parents, and every error once set. */
  ghost predicate Grows(ns: seq<Node>, ns': seq<Node>) {
    && |ns| <= |ns'|
    && forall j: nat | j < |ns| ::
         && ns'[j].kind == ns[j].kind && ns'[j].parent == ns[j].parent
         && (ns[j].err.Some? ==> ns'[j].err == ns[j].err)
  }

  lemma CancelCallGrows(ns: seq<Node>, c: nat, err: Error)
    requires Tree(ns) && c < |ns|
    ensures Grows(ns, CancelCall(ns, c, err))
  {
  }

  lemma ApplyGrows(ns: seq<Node>, op: Op)
    requires Tree(ns) && MayApply(ns, op)
    ensures Grows(ns, Apply(ns, op))
  {
    hide CancelCall;
    match op
    case NewDeadline(p, d, now) =>
      DeriveTree(ns, Cancel, p);
      DeriveTree(ns, Timer(d), p);
      CancelCallGrows(Derive(ns, Timer(d), p), |ns|, DeadlineExceeded);
    case CallCancel(c) => CancelCallGrows(ns, c, Canceled);
    case TimerFires(c) => CancelCallGrows(ns, c, DeadlineExceeded);
    case _ =>
  }

  ghost predicate IsRun(ns: seq<Node>, ops: seq<Op>, ns': seq<Node>)
    decreases |ops|
  {
    if ops == [] then ns == ns'
    else Tree(ns) && MayApply(ns, ops[0]) && IsRun(Apply(ns, ops[0]), ops[1..], ns')
  }

  lemma {:induction false} RunValid(ns: seq<Node>, ops: seq<Op>, ns': seq<Node>)
    requires Valid(ns) && IsRun(ns, ops, ns')
    ensures Valid(ns') && Grows(ns, ns')
    decreases |ops|
  {
    hide NodeOk, DeadlineOk, Apply;
    if ops != [] {
      ApplyValid(ns, ops[0]);
      ApplyGrows(ns, ops[0]);
      RunValid(Apply(ns, ops[0]), ops[1..], ns');
    }
  }

  // ----- what clients see -----

  /** `i` is `c` or was made from it, through any kinds of context. */
  ghost predicate DerivedFrom(ns: seq<Node>, i: nat, c: nat)
    requires Tree(ns) && i < |ns|
    decreases i
  {
    i == c || (!ns[i].kind.Empty? && DerivedFrom(ns, ns[i].parent, c))
  }

  lemma {:induction false} DerivedIsUnder(ns: seq<Node>, i: nat, c: nat)
    requires Tree(ns) && i < |ns| && c < |ns| && Canceler(ns[c])
    ensures DerivedFrom(ns, i, c) <==> Nearest(ns, i).Some? && Under(ns, Nearest(ns, i).value, c)
    decreases i
  {
    if i != c && !ns[i].kind.Empty? {
      DerivedIsUnder(ns, ns[i].parent, c);
    }
  }

  lemma {:induction false} UnderCancelled(ns: seq<Node>, i: nat, c: nat)
    requires Tree(ns) && i < |ns| && c < |ns| && Canceler(ns[i]) && Under(ns, i, c) && ns[c].err.Some?
    requires forall d: nat | c <= d < |ns| :: NodeOk(ns, d)
    ensures ns[i].err.Some?
    decreases i
  {
    if i != c {
      var u := Up(ns, i).value;
      UnderCancelled(ns, u, c);
      UnderAbove(ns, u, c);
      assert NodeOk(ns, u);
      assert ns[i].err.None? ==> i in Registered(ns, u);
    }
  }

  /** Between calls, whatever was derived from a cancelled context is cancelled. */
  lemma CancellationReaches(ops: seq<Op>, ns: seq<Node>, i: nat, c: nat)
    requires IsRun([], ops, ns)
    requires Tree(ns) && i < |ns| && c < |ns| && DerivedFrom(ns, i, c) && Err(ns, c).Some?
    ensures Err(ns, i).Some?
  {
    RunValid([], ops, ns);
    var top := Nearest(ns, c).value;
    NearestDerived(ns, c);
    DerivedTransitive(ns, i, c, top);
    DerivedIsUnder(ns, i, top);
    UnderCancelled(ns, Nearest(ns, i).value, top);
  }

  lemma {:induction false} NearestDerived(ns: seq<Node>, i: nat)
    requires Tree(ns) && i < |ns| && Nearest(ns, i).Some?
    ensures DerivedFrom(ns, i, Nearest(ns, i).value)
    decreases i
  {
    if !Canceler(ns[i]) {
      NearestDerived(ns, ns[i].parent);
    }
  }

  lemma {:induction false} DerivedTransitive(ns: seq<Node>, i: nat, c: nat, top: nat)
    requires Tree(ns) && i < |ns| && c < |ns| && DerivedFrom(ns, i, c) && DerivedFrom(ns, c, top)
    ensures DerivedFrom(ns, i, top)
    decreases i
  {
    if i != c {
      DerivedTransitive(ns, ns[i].parent, c, top);
    }
  }

  /** An error once reported is reported for ever. */
  lemma FirstErrorStays(ns: seq<Node>, ops: seq<Op>, ns': seq<Node>, i: nat)
    requires Valid(ns) && IsRun(ns, ops, ns') && i < |ns| && Err(ns, i).Some?
    ensures Tree(ns') && i < |ns'| && Err(ns', i) == Err(ns, i)
  {
    RunValid(ns, ops, ns');
    NearestSame(ns, ns', i);
  }

  /** A cancel call gives its error to what was derived from its context and had none, and to nothing else. */
  lemma CancelExactly(ns: seq<Node>, c: nat, err: Error, i: nat)
    requires Valid(ns) && c < |ns| && Canceler(ns[c]) && i < |ns|
    ensures Tree(CancelCall(ns, c, err))
    ensures Err(CancelCall(ns, c, err), i)
         == if DerivedFrom(ns, i, c) && Err(ns, i).None? then Some(err) else Err(ns, i)
  {
    CancelCallValid(ns, c, err);
    CancelAllTree(ns, {c}, err);
    var ns' := CancelCall(ns, c, err);
    NearestSame(ns, ns', i);
    DerivedIsUnder(ns, i, c);
    if Nearest(ns, i).Some? {
      var d := Nearest(ns, i).value;
      assert UnderAny(ns, d, {c}) <==> Under(ns, d, c);
    }
  }

  /** A context never has a later deadline than one it was derived from. */
  lemma {:induction false} DeadlinesTighten(ns: seq<Node>, i: nat, c: nat)
    requires Valid(ns) && i < |ns| && c < |ns| && DerivedFrom(ns, i, c) && Deadline(ns, c).Some?
    ensures Deadline(ns, i).Some? && Deadline(ns, i).value <= Deadline(ns, c).value
    decreases i
  {
    if i != c {
      DeadlinesTighten(ns, ns[i].parent, c);
      assert DeadlineOk(ns, i);
    }
  }
}

/** What clients see of each call: errors, deadlines and values. */
module ContextClients {
  import opened Options
  import opened ContextSpec

  /** The value that a context associates with `key`, its own or that of the first context above it. */
  ghost function ValueOf(ns: seq<Node>, i: nat, key: int): Option<int>
    requires Tree(ns) && i < |ns|
  {
    match ns[i].kind
    case Empty => None
    case Value(k, v) => if k == key then Some(v) else ValueOf(ns, ns[i].parent, key)
    case _ => ValueOf(ns, ns[i].parent, key)
  }

  lemma {:induction false} ValueSame(ns: seq<Node>, ns': seq<Node>, i: nat, key: int)
    requires Tree(ns) && Tree(ns') && i < |ns| && Grows(ns, ns')
    ensures ValueOf(ns', i, key) == ValueOf(ns, i, key)
    decreases i
  {
    if !ns[i].kind.Empty? {
      ValueSame(ns, ns', ns[i].parent, key);
    }
  }

  // ----- new contexts -----

  /** The context just made has the error, the deadline and, for each key, the value of its parent. */
  ghost predicate Inherits(ns: seq<Node>, ns': seq<Node>, c: nat, parent: nat)
    requires Tree(ns) && Tree(ns') && parent < |ns| && c < |ns'|
  {
    && Err(ns', c) == Err(ns, parent)
    && Deadline(ns', c) == Deadline(ns, parent)
    && forall key :: ValueOf(ns', c, key) == ValueOf(ns, parent, key)
  }

  lemma DeriveSees(ns: seq<Node>, kind: Kind, parent: nat)
    requires Tree(ns) && parent < |ns| && !kind.Empty?
    ensures var ns' := Derive(ns, kind, parent);
            && Tree(ns')
            && Err(ns', |ns|) == Err(ns, parent)
            && Deadline(ns', |ns|) == (if kind.Timer? then Some(kind.deadline) else Deadline(ns, parent))
            && forall key :: ValueOf(ns', |ns|, key)
                          == if kind.Value? && key == kind.key then Some(kind.val) else ValueOf(ns, parent, key)
  {
    DeriveTree(ns, kind, parent);
    var ns' := Derive(ns, kind, parent);
    SameTree(ns, ns', parent, parent);
    assert Grows(ns, ns');
    hide Grows;
    forall key
      ensures ValueOf(ns', parent, key) == ValueOf(ns, parent, key)
    {
      ValueSame(ns, ns', parent, key);
    }
  }

  /** WithCancel: as its parent, cancelled if that is. */
  lemma CancelContext(ns: seq<Node>, p: nat)
    requires Valid(ns) && p < |ns|
    ensures Valid(Apply(ns, NewCancel(p))) && Inherits(ns, Apply(ns, NewCancel(p)), |ns|, p)
  {
    ApplyValid(ns, NewCancel(p));
    DeriveSees(ns, Cancel, p);
  }

  /** WithValue: as its parent, except for the value of one key. */
  lemma ValueContext(ns: seq<Node>, p: nat, key: int, val: int)
    requires Valid(ns) && p < |ns|
    ensures var ns' := Apply(ns, NewValue(p, key, val));
            && Valid(ns') && Err(ns', |ns|) == Err(ns, p) && Deadline(ns', |ns|) == Deadline(ns, p)
            && ValueOf(ns', |ns|, key) == Some(val)
            && forall k | k != key :: ValueOf(ns', |ns|, k) == ValueOf(ns, p, k)
  {
    ApplyValid(ns, NewValue(p, key, val));
    DeriveSees(ns, Value(key, val), p);
  }

  /** The parent's deadline is sooner than `d`. */
  ghost predicate Sooner(ns: seq<Node>, p: nat, d: int)
    requires Tree(ns) && p < |ns|
  {
    Deadline(ns, p).Some? && Deadline(ns, p).value < d
  }

  /** WithDeadline: the sooner of the two deadlines; the error of the parent, or DeadlineExceeded at once if
      a deadline of its own has passed; and otherwise its own timer, which can fire. */
  lemma DeadlineContext(ns: seq<Node>, p: nat, d: int, now: int)
    requires Valid(ns) && p < |ns|
    ensures var ns', c := Apply(ns, NewDeadline(p, d, now)), |ns|;
            && Valid(ns') && c < |ns'|
            && Deadline(ns', c) == (if Sooner(ns, p, d) then Deadline(ns, p) else Some(d))
            && Err(ns', c) == (if Err(ns, p).Some? then Err(ns, p)
                               else if !Sooner(ns, p, d) && d <= now then Some(DeadlineExceeded) else None)
            && (MayApply(ns', TimerFires(c)) <==> !Sooner(ns, p, d) && Err(ns', c).None?)
            && forall key :: ValueOf(ns', c, key) == ValueOf(ns, p, key)
  {
    ApplyValid(ns, NewDeadline(p, d, now));
    var c := |ns|;
    if Sooner(ns, p, d) {
      DeriveSees(ns, Cancel, p);
    } else {
      DeriveValid(ns, Timer(d), p);
      DeriveSees(ns, Timer(d), p);
      var made := Derive(ns, Timer(d), p);
      if d <= now {
        CancelExactly(made, c, DeadlineExceeded, c);
        CancelCallGrows(made, c, DeadlineExceeded);
        SameView(made, CancelCall(made, c, DeadlineExceeded), c);
        Stopped(made, c, DeadlineExceeded);
      } else if made[c].err.None? {
        SameView(made, made[c := made[c].(timer := true)], c);
      }
    }
  }

  lemma SameView(ns: seq<Node>, ns': seq<Node>, i: nat)
    requires Tree(ns) && Tree(ns') && i < |ns| && Grows(ns, ns')
    ensures Deadline(ns', i) == Deadline(ns, i) && forall key :: ValueOf(ns', i, key) == ValueOf(ns, i, key)
  {
    SameTree(ns, ns', i, i);
    forall key
      ensures ValueOf(ns', i, key) == ValueOf(ns, i, key)
    {
      ValueSame(ns, ns', i, key);
    }
  }

  lemma Stopped(ns: seq<Node>, c: nat, err: Error)
    requires Valid(ns) && c < |ns| && Canceler(ns[c])
    ensures !CancelCall(ns, c, err)[c].timer && CancelCall(ns, c, err)[c].err.Some?
  {
    assert NodeOk(ns, c) && Under(ns, c, c);
  }

  /** No call changes the deadline or a value of a context that is there, and only cancelling changes an
      error. */
  lemma OthersKeepTheirView(ns: seq<Node>, op: Op, i: nat)
    requires Valid(ns) && MayApply(ns, op) && i < |ns|
    ensures var ns' := Apply(ns, op);
            && Valid(ns') && i < |ns'|
            && Deadline(ns', i) == Deadline(ns, i)
            && (forall key :: ValueOf(ns', i, key) == ValueOf(ns, i, key))
            && (!op.CallCancel? && !op.TimerFires? ==> Err(ns', i) == Err(ns, i))
  {
    ApplyValid(ns, op);
    ApplyGrows(ns, op);
    var ns' := Apply(ns, op);
    SameView(ns, ns', i);
    NearestSame(ns, ns', i);
    if op.NewDeadline? && Nearest(ns, i).Some? {
      DeadlineLeavesErrors(ns, op.parent, op.deadline, op.now, Nearest(ns, i).value);
    }
  }

  lemma DeadlineLeavesErrors(ns: seq<Node>, p: nat, d: int, now: int, i: nat)
    requires Valid(ns) && p < |ns| && i < |ns| && Canceler(ns[i])
    ensures Apply(ns, NewDeadline(p, d, now))[i].err == ns[i].err
  {
    if !Sooner(ns, p, d) && d <= now {
      DeriveTree(ns, Timer(d), p);
      var made := Derive(ns, Timer(d), p);
      CancelAllTree(made, {|ns|}, DeadlineExceeded);
      if Under(made, i, |ns|) {
        UnderAbove(made, i, |ns|);
      }
      assert CancelAll(made, {|ns|}, DeadlineExceeded)[i] == made[i];
    }
  }

  // ----- cancelling -----

  /** A CancelFunc gives Canceled to the open contexts derived from its own, a timer DeadlineExceeded; both
      leave every other error alone. */
  lemma CancelSeen(ns: seq<Node>, op: Op, i: nat)
    requires Valid(ns) && MayApply(ns, op) && i < |ns| && (op.CallCancel? || op.TimerFires?)
    ensures var ns' := Apply(ns, op);
            && Valid(ns') && i < |ns'|
            && Err(ns', i) == if DerivedFrom(ns, i, op.c) && Err(ns, i).None?
                              then Some(if op.CallCancel? then Canceled else DeadlineExceeded) else Err(ns, i)
  {
    ApplyValid(ns, op);
    CancelExactly(ns, op.c, if op.CallCancel? then Canceled else DeadlineExceeded, i);
  }

  // ----- timers over whole runs -----

  /** Every open context with a deadline of its own has its timer set. */
  ghost predicate Armed(ns: seq<Node>) {
    forall i: nat | i < |ns| && ns[i].kind.Timer? && ns[i].err.None? :: ns[i].timer
  }

  lemma CancelArmed(ns: seq<Node>, c: nat, err: Error, but: nat)
    requires Tree(ns) && c < |ns|
    requires forall i: nat | i < |ns| && i != but && ns[i].kind.Timer? && ns[i].err.None? :: ns[i].timer
    ensures var ns' := CancelCall(ns, c, err);
            forall i: nat | i < |ns'| && i != but && ns'[i].kind.Timer? && ns'[i].err.None? :: ns'[i].timer
  {
    hide Under, Up;
  }

  lemma ApplyArmed(ns: seq<Node>, op: Op)
    requires Valid(ns) && Armed(ns) && MayApply(ns, op)
    ensures Armed(Apply(ns, op))
  {
    match op
    case NewEmpty =>
    case NewValue(p, key, val) => DeriveTree(ns, Value(key, val), p);
    case NewCancel(p) => DeriveTree(ns, Cancel, p);
    case NewDeadline(p, d, now) => DeadlineArmed(ns, p, d, now);
    case CallCancel(c) => CancelArmed(ns, c, Canceled, |ns|);
    case TimerFires(c) => CancelArmed(ns, c, DeadlineExceeded, |ns|);
  }

  lemma DeadlineArmed(ns: seq<Node>, p: nat, d: int, now: int)
    requires Valid(ns) && Armed(ns) && p < |ns|
    ensures Armed(WithDeadline(ns, p, d, now))
  {
    var c := |ns|;
    DeriveTree(ns, Cancel, p);
    DeriveTree(ns, Timer(d), p);
    var made := Derive(ns, Timer(d), p);
    assert forall i: nat | i < c && made[i].kind.Timer? && made[i].err.None? :: ns[i].timer && made[i].timer;
    if !Sooner(ns, p, d) && d <= now {
      DeriveValid(ns, Timer(d), p);
      CancelArmed(made, c, DeadlineExceeded, c);
      Stopped(made, c, DeadlineExceeded);
    }
  }

  lemma {:induction false} RunArmed(ns: seq<Node>, ops: seq<Op>, ns': seq<Node>)
    requires Valid(ns) && Armed(ns) && IsRun(ns, ops, ns')
    ensures Armed(ns')
    decreases |ops|
  {
    hide Valid, Armed, Apply;
    if ops != [] {
      ApplyValid(ns, ops[0]);
      ApplyArmed(ns, ops[0]);
      RunArmed(Apply(ns, ops[0]), ops[1..], ns');
    }
  }

  /** The timer context that a deadline comes from. */
  lemma {:induction false} DeadlineFrom(ns: seq<Node>, i: nat) returns (c: nat)
    requires Tree(ns) && i < |ns| && Deadline(ns, i).Some?
    ensures c < |ns| && ns[c].kind == Timer(Deadline(ns, i).value) && DerivedFrom(ns, i, c)
    decreases i
  {
    if ns[i].kind.Timer? {
      c := i;
    } else {
      c := DeadlineFrom(ns, ns[i].parent);
    }
  }

  /** After any run, an open context that reports a deadline is under a timer set for that deadline, and when
      that timer fires the context has the error DeadlineExceeded. */
  lemma DeadlineCanFire(ops: seq<Op>, ns: seq<Node>, i: nat) returns (c: nat)
    requires IsRun([], ops, ns) && Tree(ns) && i < |ns| && Err(ns, i).None? && Deadline(ns, i).Some?
    ensures c < |ns| && ns[c].kind == Timer(Deadline(ns, i).value) && DerivedFrom(ns, i, c)
    ensures MayApply(ns, TimerFires(c))
    ensures var ns' := Apply(ns, TimerFires(c)); Tree(ns') && i < |ns'| && Err(ns', i) == Some(DeadlineExceeded)
  {
    c := DeadlineFrom(ns, i);
    if ns[c].err.Some? {
      CancellationReaches(ops, ns, i, c);
    }
    RunValid([], ops, ns);
    RunArmed([], ops, ns);
    CancelSeen(ns, TimerFires(c), i);
  }
}

/** The package itself: contexts and the functions that change them. */
module Contexts {
  import opened Options
  import opened ContextSpec
  import opened ContextClients

  class Package {
    var nodes: seq<Node>

    constructor ()
      ensures nodes == []
    {
      nodes := [];
    }

    /** parentCancelCtx: follow parents until a canceler turns up. */
    method ParentCancelCtx(parent: nat) returns (p: Option<nat>)
      requires Tree(nodes) && parent < |nodes|
      ensures p == Nearest(nodes, parent)
    {
      var c: nat := parent;
      while true
        invariant c < |nodes| && Nearest(nodes, c) == Nearest(nodes, parent)
        decreases c
      {
        match nodes[c].kind {
          case Cancel => return Some(c);
          case Timer(_) => return Some(c);
          case Value(_, _) => c := nodes[c].parent;
          case Empty => return None;
        }
      }
    }

    method RemoveFromParent(c: nat)
      requires Tree(nodes) && c < |nodes| && Canceler(nodes[c])
      modifies this
      ensures nodes == RemoveChild(old(nodes), c)
    {
      var p := ParentCancelCtx(nodes[c].parent);
      if p.Some? {
        nodes := nodes[p.value := nodes[p.value].(children := nodes[p.value].children - {c})];
      }
    }

    /** cancelCtx.cancel: the first error wins; mark, cancel the children, forget them, leave the parent.
        Stopping the timer is the caller's. */
    method CancelCtx(c: nat, removeFromParent: bool, err: Error)
      requires Tree(nodes) && c < |nodes| && Canceler(nodes[c])
      requires forall d: nat | c <= d < |nodes| :: NodeOk(nodes, d)
      requires removeFromParent ==> Valid(nodes)
      modifies this
      ensures |nodes| == |old(nodes)| && nodes[c].kind == old(nodes[c].kind)
      ensures nodes[c := nodes[c].(timer := false)]
           == if removeFromParent then CancelCall(old(nodes), c, err) else CancelAll(old(nodes), {c}, err)
      ensures nodes[c].timer ==> old(nodes[c].timer)
      decreases |nodes| - c, 1
    {
      hide CancelAll;
      if nodes[c].err.Some? {
        assert NodeOk(nodes, c);
        AlreadyCancelled(nodes, c, err);
        if removeFromParent {
          NotRegistered(nodes, c);
        }
        return;
      }
      CancelAllTree(nodes, {c}, err);
      CancelOpen(c, err);
      if removeFromParent {
        ghost var cancelled := nodes[c := nodes[c].(timer := false)];
        assert forall j: nat | j < |nodes| ::
            nodes[j].kind == cancelled[j].kind && nodes[j].parent == cancelled[j].parent;
        SameTree(cancelled, nodes, c, c);
        RemoveFromParent(c);
      }
    }

    /** The part that holds the lock: mark, cancel the children, forget them. */
    method CancelOpen(c: nat, err: Error)
      requires Tree(nodes) && c < |nodes| && Canceler(nodes[c]) && nodes[c].err.None?
      requires forall d: nat | c <= d < |nodes| :: NodeOk(nodes, d)
      modifies this
      ensures |nodes| == |old(nodes)| && nodes[c].kind == old(nodes[c].kind)
      ensures nodes[c := nodes[c].(timer := false)] == CancelAll(old(nodes), {c}, err)
      ensures nodes[c].timer ==> old(nodes[c].timer)
      decreases |nodes| - c, 0
    {
      ghost var before := nodes;
      assert NodeOk(before, c);
      CancelUnfolds(nodes, c, err);
      nodes := nodes[c := nodes[c].(err := Some(err))];
      CancelChildren(before, c, err);
      nodes := nodes[c := nodes[c].(children := {})];
    }

    /** The loop over the children, which may come in any order. */
    method CancelChildren(ghost before: seq<Node>, c: nat, err: Error)
      requires Tree(before) && c < |before| && Canceler(before[c]) && before[c].err.None?
      requires forall d: nat | c <= d < |before| :: NodeOk(before, d)
      requires nodes == before[c := before[c].(err := Some(err))]
      modifies this
      ensures Tree(old(nodes)) && nodes == CancelAll(old(nodes), before[c].children, err)
      decreases |nodes| - c - 1, 3
    {
      ghost var marked := nodes;
      assert Tree(marked);
      assert NodeOk(before, c);
      var children := nodes[c].children;
      var todo := children;
      CancelNone(marked, err);
      while todo != {}
        invariant todo <= children && nodes == CancelAll(marked, children - todo, err)
        decreases todo
      {
        var child :| child in todo;
        CancelAllTree(marked, children - todo, err);
        forall d: nat | child <= d < |nodes|
          ensures NodeOk(nodes, d)
        {
          TailKept(before, c, children - todo, err, d);
        }
        CancelOneMore(marked, children - todo, child, err);
        Cancel(child, false, err);
        assert children - todo + {child} == children - (todo - {child});
        todo := todo - {child};
      }
      assert children - todo == children;
    }

    /** child.cancel: cancelCtx.cancel, or timerCtx.cancel, which also stops the timer. */
    method Cancel(c: nat, removeFromParent: bool, err: Error)
      requires Tree(nodes) && c < |nodes| && Canceler(nodes[c])
      requires forall d: nat | c <= d < |nodes| :: NodeOk(nodes, d)
      requires removeFromParent ==> Valid(nodes)
      modifies this
      ensures nodes == if removeFromParent then CancelCall(old(nodes), c, err) else CancelAll(old(nodes), {c}, err)
      decreases |nodes| - c, 2
    {
      assert NodeOk(nodes, c);
      CancelAllTree(nodes, {c}, err);
      match nodes[c].kind {
        case Cancel =>
          CancelCtx(c, removeFromParent, err);
        case Timer(_) =>
          ghost var cancelled := CancelAll(nodes, {c}, err);
          CancelCtx(c, false, err);
          assert nodes[c].(timer := false) == cancelled[c];
          if removeFromParent {
            assert forall j: nat | j < |nodes| ::
                nodes[j].parent == cancelled[j].parent && nodes[j].kind == cancelled[j].kind;
            assert Tree(nodes);
            SameTree(cancelled, nodes, c, c);
            RemoveFromParent(c);
          }
          nodes := nodes[c := nodes[c].(timer := false)];
      }
    }

    /** propagateCancel, for the canceler that was just made. */
    method PropagateCancel(parent: nat)
      requires |nodes| > 0 && parent < |nodes| - 1 && Tree(nodes)
      requires var node := nodes[|nodes| - 1];
               Canceler(node) && node.parent == parent && node.err.None? && node.children == {} && !node.timer
      requires Valid(nodes[..|nodes| - 1])
      modifies this
      ensures nodes == Derive(old(nodes)[..|old(nodes)| - 1], old(nodes)[|old(nodes)| - 1].kind, parent)
    {
      ghost var ns := nodes[..|nodes| - 1];
      var child := |nodes| - 1;
      ghost var node := nodes[child];
      assert nodes == ns + [node];
      NearestSame(ns, nodes, parent);
      var p := ParentCancelCtx(parent);
      if p.None? {
        return;
      }
      if nodes[p.value].err.Some? {
        DeriveLeafOk(ns, node);
        CancelFresh(ns, node, nodes[p.value].err.value);
        Cancel(child, false, nodes[p.value].err.value);
      } else {
        nodes := nodes[p.value := nodes[p.value].(children := nodes[p.value].children + {child})];
        assert nodes == Derive(ns, node.kind, parent);
      }
    }

    method NewContext(kind: Kind, parent: nat) returns (c: nat)
      requires Valid(nodes) && parent < |nodes| && (kind.Cancel? || kind.Timer?)
      modifies this
      ensures c == |old(nodes)| && nodes == Derive(old(nodes), kind, parent)
    {
      c := |nodes|;
      nodes := nodes + [Node(kind, parent, None, {}, false)];
      assert nodes[..|nodes| - 1] == old(nodes);
      PropagateCancel(parent);
    }

    method Background() returns (c: nat)
      requires Valid(nodes)
      modifies this
      ensures c == |old(nodes)| && nodes == Apply(old(nodes), NewEmpty) && Valid(nodes)
    {
      c := |nodes|;
      EmptyValid(nodes);
      nodes := nodes + [Node(Empty, 0, None, {}, false)];
    }

    method WithValue(parent: nat, key: int, val: int) returns (c: nat)
      requires Valid(nodes) && parent < |nodes|
      modifies this
      ensures c == |old(nodes)| && nodes == Apply(old(nodes), NewValue(parent, key, val)) && Valid(nodes)
    {
      c := |nodes|;
      DeriveValid(nodes, Value(key, val), parent);
      nodes := nodes + [Node(Value(key, val), parent, None, {}, false)];
    }

    method WithCancel(parent: nat) returns (c: nat)
      requires Valid(nodes) && parent < |nodes|
      modifies this
      ensures c == |old(nodes)| && nodes == Apply(old(nodes), NewCancel(parent)) && Valid(nodes)
    {
      DeriveValid(nodes, ContextSpec.Cancel, parent);
      c := NewContext(ContextSpec.Cancel, parent);
    }

    /** The Deadline method of a context: that of the first timer at or above it. */
    method DeadlineOf(i: nat) returns (d: Option<int>)
      requires Tree(nodes) && i < |nodes|
      ensures d == Deadline(nodes, i)
    {
      match nodes[i].kind {
        case Empty => d := None;
        case Timer(t) => d := Some(t);
        case _ => d := DeadlineOf(nodes[i].parent);
      }
    }

    /** The Value method of a context. */
    method ValueFor(i: nat, key: int) returns (v: Option<int>)
      requires Tree(nodes) && i < |nodes|
      ensures v == ValueOf(nodes, i, key)
    {
      match nodes[i].kind {
        case Empty => v := None;
        case Value(k, val) =>
          if k == key {
            v := Some(val);
          } else {
            v := ValueFor(nodes[i].parent, key);
          }
        case _ => v := ValueFor(nodes[i].parent, key);
      }
    }

    /** The Err method of a context: that of the canceler it stands under. */
    method ErrOf(i: nat) returns (e: Option<Error>)
      requires Tree(nodes) && i < |nodes|
      ensures e == Err(nodes, i)
    {
      match nodes[i].kind {
        case Empty => e := None;
        case Value(_, _) => e := ErrOf(nodes[i].parent);
        case _ => e := nodes[i].err;
      }
    }

    method WithDeadline(parent: nat, deadline: int, now: int) returns (c: nat)
      requires Valid(nodes) && parent < |nodes|
      modifies this
      ensures c == |old(nodes)| && nodes == Apply(old(nodes), NewDeadline(parent, deadline, now)) && Valid(nodes)
    {
      WithDeadlineValid(nodes, parent, deadline, now);
      var cur := DeadlineOf(parent);
      if cur.Some? && cur.value < deadline {
        c := WithCancel(parent);
        return;
      }
      DeriveValid(nodes, Timer(deadline), parent);
      c := NewContext(Timer(deadline), parent);
      if deadline - now <= 0 {
        Cancel(c, true, DeadlineExceeded);
        return;
      }
      if nodes[c].err.None? {
        nodes := nodes[c := nodes[c].(timer := true)];
      }
    }

    /** The CancelFunc of context `c`. */
    method CancelFunc(c: nat)
      requires Valid(nodes) && c < |nodes| && Canceler(nodes[c])
      modifies this
      ensures nodes == Apply(old(nodes), CallCancel(c)) && Valid(nodes)
    {
      CancelCallValid(nodes, c, Canceled);
      Cancel(c, true, Canceled);
    }

    /** The timer of context `c` goes off. */
    method AfterFunc(c: nat)
      requires Valid(nodes) && c < |nodes| && nodes[c].kind.Timer? && nodes[c].timer
      modifies this
      ensures nodes == Apply(old(nodes), TimerFires(c)) && Valid(nodes)
    {
      CancelCallValid(nodes, c, DeadlineExceeded);
      Cancel(c, true, DeadlineExceeded);
    }
  }

  lemma DeriveLeafOk(ns: seq<Node>, node: Node)
    requires Tree(ns) && Canceler(node) && node.parent < |ns| && node.err.None? && node.children == {} && !node.timer
    ensures Tree(ns + [node]) && NodeOk(ns + [node], |ns|)
  {
    assert Registered(ns + [node], |ns|) == {};
  }

  /** A fresh canceler has nothing under it. */
  lemma CancelFresh(ns: seq<Node>, node: Node, err: Error)
    requires Tree(ns) && Canceler(node) && node.parent < |ns| && node.err.None? && node.children == {} && !node.timer
    ensures Tree(ns + [node]) && CancelAll(ns + [node], {|ns|}, err) == ns + [node.(err := Some(err))]
  {
    var all := ns + [node];
    var n := |ns|;
    assert Under(all, n, n);
    forall i: nat | i < n
      ensures CancelAll(all, {n}, err)[i] == all[i]
    {
      if Under(all, i, n) {
        UnderAbove(all, i, n);
      }
    }
  }

  lemma NotRegistered(ns: seq<Node>, c: nat)
    requires Valid(ns) && c < |ns| && Canceler(ns[c]) && ns[c].err.Some?
    ensures RemoveChild(ns, c) == ns
  {
    if Up(ns, c).Some? {
      var p := Up(ns, c).value;
      assert NodeOk(ns, p);
      assert ns[p].children - {c} == ns[p].children;
    }
  }
}
