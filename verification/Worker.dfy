/**
 * The provide worker: its de-duplicating queue, and what becomes of every block that the client loop
 * takes from HasBlock.
 */
module WorkerSpec {
  import opened Options
  import opened Sequences

  datatype Block = Block(key: string, data: string)

  function KeysOf(q: seq<Block>): seq<string> { seq(|q|, i requires 0 <= i < |q| => q[i].key) }

  ghost predicate Distinct(q: seq<Block>) { forall i: nat, j: nat | i < j < |q| :: q[i].key != q[j].key }

  /** The queue as a list without duplicate keys: a second block with a key is dropped. */
  function Pushed(q: seq<Block>, b: Block): seq<Block> {
    if b.key in KeysOf(q) then q else q + [b]
  }

  /** The outcomes of the loop's select. */
  datatype Event = Send | Tick | Receive(b: Block) | Close

  /** The loop at its select: `hand` is the block it offers. The rest is what happened so far. */
  datatype State = State(queue: seq<Block>, hand: Option<Block>, closed: bool,
                         accepted: seq<Block>, sent: seq<Block>, merged: seq<Block>, discarded: seq<Block>)

  const START := State([], None, false, [], [], [], [])

  function Held(o: Option<Block>): seq<Block> {
    if o.Some? then [o.value] else []
  }

  predicate Enabled(s: State, e: Event) {
    !s.closed && (e.Send? ==> s.hand.Some?)
  }

  function Popped(s: State): State {
    if s.queue == [] then s.(hand := None) else s.(hand := Some(s.queue[0]), queue := s.queue[1..])
  }

  /** The state in which a round ends, before the Pop that starts the next one. */
  function BeforePop(s: State, e: Event): State
    requires Enabled(s, e)
  {
    match e
    case Send => s.(sent := s.sent + [s.hand.value])
    case Tick => s.(discarded := s.discarded + Held(s.hand))
    case Receive(b) =>
      var queue := if s.hand.Some? then Pushed(s.queue, s.hand.value) else s.queue;
      s.(queue := Pushed(queue, b), accepted := s.accepted + [b],
         merged := s.merged + if b.key in KeysOf(queue) then [b] else [])
    case Close => s.(closed := true, hand := None, queue := [], discarded := s.discarded + Held(s.hand) + s.queue)
  }

  /** One round of the loop: a case of the select, then the next Pop. */
  function Step(s: State, e: Event): State
    requires Enabled(s, e)
  {
    Popped(BeforePop(s, e))
  }

  ghost predicate Possible(es: seq<Event>)
    decreases |es|, 0
  {
    es == [] || (Possible(es[..|es| - 1]) && Enabled(Run(es[..|es| - 1]), es[|es| - 1]))
  }

  ghost function Run(es: seq<Event>): State
    requires Possible(es)
    decreases |es|, 1
  {
    if es == [] then START else Step(Run(es[..|es| - 1]), es[|es| - 1])
  }

  lemma {:induction false} PrefixPossible(es: seq<Event>, n: nat)
    requires Possible(es) && n <= |es|
    ensures Possible(es[..n])
    decreases |es|
  {
    if n == |es| {
      assert es[..n] == es;
    } else {
      PrefixPossible(es[..|es| - 1], n);
      assert es[..|es| - 1][..n] == es[..n];
    }
  }

  lemma NextRound(es: seq<Event>, i: nat)
    requires Possible(es) && i < |es|
    ensures Possible(es[..i]) && Possible(es[..i + 1])
    ensures Enabled(Run(es[..i]), es[i]) && Run(es[..i + 1]) == Step(Run(es[..i]), es[i])
  {
    PrefixPossible(es, i);
    PrefixPossible(es, i + 1);
    assert es[..i + 1][..i] == es[..i];
  }

  lemma FirstRound()
    ensures Possible([]) && Run([]) == START
  {
  }

  lemma NotClosedBefore(es: seq<Event>, n: nat)
    requires Possible(es) && n <= |es|
    ensures Possible(es[..n]) && (n < |es| ==> !Run(es[..n]).closed)
  {
    PrefixPossible(es, n);
    if n < |es| {
      NextRound(es, n);
    }
  }

  /** Nothing happens after closing. */
  lemma ClosedIsLast(es: seq<Event>, i: nat)
    requires Possible(es) && i < |es| && es[i].Close?
    ensures i == |es| - 1
  {
    NextRound(es, i);
    assert Run(es[..i + 1]).closed;
    NotClosedBefore(es, i + 1);
  }

  // ----- accounting -----

  /** How often a block is in a list. */
  function Count(q: seq<Block>, b: Block): nat { multiset(q)[b] }

  lemma CountConcat(p: seq<Block>, q: seq<Block>, b: Block)
    ensures Count(p + q, b) == Count(p, b) + Count(q, b)
  {
  }

  lemma CountIn(q: seq<Block>, b: Block)
    ensures Count(q, b) > 0 <==> b in q
    ensures Count([], b) == 0
  {
    assert b in multiset(q) <==> b in q;
  }

  /** How often a block is handed on, in hand, queued, or discarded. */
  ghost function Places(s: State, b: Block): nat {
    Count(s.sent, b) + Count(Held(s.hand), b) + Count(s.queue, b) + Count(s.discarded, b)
  }

  ghost predicate Known(s: State, key: string) {
    exists b :: Places(s, b) > 0 && b.key == key
  }

  /** Hand and queue hold each key once; every accepted block is accounted for, as often as accepted; a
      merged block's key is that of one that was not merged. */
  ghost predicate Inv(s: State) {
    && Distinct(Held(s.hand) + s.queue)
    && (forall b :: Count(s.accepted, b) == Places(s, b) + Count(s.merged, b))
    && (forall b | b in s.merged :: Known(s, b.key))
  }

  lemma PushFacts(q: seq<Block>, b: Block)
    requires Distinct(q)
    ensures Distinct(Pushed(q, b))
    ensures b.key in KeysOf(q) ==> exists c :: c in q && c.key == b.key
  {
    if b.key in KeysOf(q) {
      var i :| 0 <= i < |q| && KeysOf(q)[i] == b.key;
      assert q[i] in q;
    } else {
      forall i: nat | i < |q|
        ensures q[i].key != b.key
      {
        assert KeysOf(q)[i] == q[i].key;
      }
    }
  }

  lemma DistinctFront(q: seq<Block>, b: Block)
    requires Distinct(q) && b.key !in KeysOf(q)
    ensures Distinct([b] + q)
  {
    assert forall i: nat | i < |q| :: KeysOf(q)[i] == q[i].key;
  }

  /** Taking the head in hand moves nothing out of sight. */
  lemma PopKeeps(s: State, b: Block)
    ensures Places(Popped(s), b) == Places(s.(hand := None), b)
    ensures Distinct(s.queue) ==> Distinct(Held(Popped(s).hand) + Popped(s).queue)
  {
    hide Count;
    CountIn([], b);
    if s.queue != [] {
      assert [s.queue[0]] + s.queue[1..] == s.queue;
      CountConcat([s.queue[0]], s.queue[1..], b);
    }
  }

  /** The block in hand goes back into the queue: no block in it has its key. */
  lemma PutBack(s: State)
    requires Distinct(Held(s.hand) + s.queue)
    ensures Distinct(s.queue)
    ensures var queue := if s.hand.Some? then Pushed(s.queue, s.hand.value) else s.queue;
            Distinct(queue) && queue == s.queue + Held(s.hand)
  {
    var both, h := Held(s.hand) + s.queue, |Held(s.hand)|;
    forall i: nat, j: nat | i < j < |s.queue|
      ensures s.queue[i].key != s.queue[j].key
    {
      assert both[h + i] == s.queue[i] && both[h + j] == s.queue[j];
    }
    if s.hand.Some? {
      forall i: nat | i < |s.queue|
        ensures s.queue[i].key != s.hand.value.key
      {
        assert both[0] == s.hand.value && both[h + i] == s.queue[i];
      }
      PushFacts(s.queue, s.hand.value);
    } else {
      assert s.queue + [] == s.queue;
    }
  }

  /** What a step adds to the blocks that are not merged. */
  function Gained(s: State, e: Event): seq<Block> {
    if e.Receive? && e.b.key !in KeysOf(s.queue + Held(s.hand)) then [e.b] else []
  }

  lemma StepDistinct(s: State, e: Event)
    requires Distinct(Held(s.hand) + s.queue) && Enabled(s, e)
    ensures Distinct(Held(Step(s, e).hand) + Step(s, e).queue)
  {
    PutBack(s);
    PushFacts(s.queue + Held(s.hand), if e.Receive? then e.b else Block("", ""));
    hide Pushed, KeysOf, Distinct;
    assert Distinct(BeforePop(s, e).queue) by {
      NoneDistinct();
    }
    PopKeeps(BeforePop(s, e), Block("", ""));
  }

  lemma NoneDistinct()
    ensures Distinct([])
  {
  }

  lemma StepMoves(s: State, e: Event, b: Block)
    requires Distinct(Held(s.hand) + s.queue) && Enabled(s, e)
    ensures Places(Step(s, e), b) == Places(s, b) + Count(Gained(s, e), b)
  {
    hide Count, Pushed, KeysOf, Distinct;
    CountIn([], b);
    var t := BeforePop(s, e);
    PopKeeps(t, b);
    match e
    case Send => CountConcat(s.sent, [s.hand.value], b);
    case Tick => CountConcat(s.discarded, Held(s.hand), b);
    case Receive(_) =>
      var queue := s.queue + Held(s.hand);
      PutBack(s);
      PushGains(s, e);
      CountConcat(queue, Gained(s, e), b);
      CountConcat(s.queue, Held(s.hand), b);
    case Close =>
      CountConcat(s.discarded + Held(s.hand), s.queue, b);
      CountConcat(s.discarded, Held(s.hand), b);
  }

  lemma PushGains(s: State, e: Event)
    requires e.Receive?
    ensures Pushed(s.queue + Held(s.hand), e.b) == s.queue + Held(s.hand) + Gained(s, e)
  {
    var queue := s.queue + Held(s.hand);
    assert queue + [] == queue;
  }

  lemma StepCounts(s: State, e: Event, b: Block)
    requires Distinct(Held(s.hand) + s.queue) && Enabled(s, e)
    requires Count(s.accepted, b) == Places(s, b) + Count(s.merged, b)
    ensures Count(Step(s, e).accepted, b) == Places(Step(s, e), b) + Count(Step(s, e).merged, b)
  {
    StepMoves(s, e, b);
    hide Count, Pushed, KeysOf, Distinct, Places;
    CountIn([], b);
    if e.Receive? {
      PutBack(s);
      var more := if Gained(s, e) == [] then [e.b] else [];
      assert Step(s, e).merged == s.merged + more;
      CountConcat(s.accepted, [e.b], b);
      CountConcat(s.merged, more, b);
    }
  }

  lemma StepKeeps(s: State, e: Event)
    requires Inv(s) && Enabled(s, e)
    ensures Inv(Step(s, e))
  {
    hide Count, Pushed, KeysOf, Distinct, Places, Step;
    var n := Step(s, e);
    StepDistinct(s, e);
    forall b
      ensures Count(n.accepted, b) == Places(n, b) + Count(n.merged, b)
    {
      StepCounts(s, e, b);
    }
    forall m | m in n.merged
      ensures Known(n, m.key)
    {
      MergedKnown(s, e, m);
      var c :| Places(s, c) > 0 && c.key == m.key;
      StepMoves(s, e, c);
    }
  }

  lemma MergedKnown(s: State, e: Event, m: Block)
    requires Inv(s) && Enabled(s, e) && m in Step(s, e).merged
    ensures Known(s, m.key)
  {
    hide Places, Distinct, Pushed;
    if m !in s.merged {
      PutBack(s);
      var queue := s.queue + Held(s.hand);
      var i :| 0 <= i < |queue| && KeysOf(queue)[i] == m.key;
      InSight(s, queue[i]);
    }
  }

  lemma InSight(s: State, c: Block)
    requires c in s.queue + Held(s.hand)
    ensures Places(s, c) > 0
  {
    CountIn(s.queue, c);
    CountIn(Held(s.hand), c);
  }

  /** Over every run: each accepted block is accounted for exactly once. */
  lemma {:induction false} Accounting(es: seq<Event>)
    requires Possible(es)
    ensures Inv(Run(es))
    decreases |es|
  {
    if es != [] {
      Accounting(es[..|es| - 1]);
      StepKeeps(Run(es[..|es| - 1]), es[|es| - 1]);
    }
  }

  // ----- loss -----

  /** Round `i` is a tick or the closing with a block in hand. */
  ghost predicate Loses(es: seq<Event>, i: nat) {
    && i < |es| && Possible(es[..i])
    && (es[i].Tick? || es[i].Close?) && Run(es[..i]).hand.Some?
  }

  /** At the select, blocks are queued only behind a block in hand. */
  lemma {:induction false} HandBeforeQueue(es: seq<Event>)
    requires Possible(es)
    ensures Run(es).hand.None? ==> Run(es).queue == []
  {
    hide BeforePop;
  }

  /** Blocks are lost exactly by ticks and closing with a block in hand: a tick with none is harmless. */
  lemma {:induction false} DiscardsNothingIff(es: seq<Event>)
    requires Possible(es)
    ensures Run(es).discarded == [] <==> forall i: nat | i < |es| :: !Loses(es, i)
    decreases |es|
  {
    if es == [] {
      FirstRound();
    } else {
      hide Run, Possible, Step, Loses;
      var n := |es| - 1;
      LastRound(es);
      HandBeforeQueue(es[..n]);
      DiscardsNothingIff(es[..n]);
      LosesNever(es, n);
      StepDiscards(Run(es[..n]), es[n]);
      LosesNow(es, n);
    }
  }

  lemma LosesNever(es: seq<Event>, n: nat)
    requires n == |es| - 1
    ensures (forall i: nat | i < |es| :: !Loses(es, i))
       <==> (forall i: nat | i < n :: !Loses(es[..n], i)) && !Loses(es, n)
  {
    hide Loses;
    forall i: nat | i < n
      ensures Loses(es, i) <==> Loses(es[..n], i)
    {
      LosesBefore(es, n, i);
    }
  }

  lemma LastRound(es: seq<Event>)
    requires Possible(es) && es != []
    ensures var n := |es| - 1;
            Possible(es[..n]) && Enabled(Run(es[..n]), es[n]) && Run(es) == Step(Run(es[..n]), es[n])
  {
    NextRound(es, |es| - 1);
    assert es[..|es|] == es;
  }

  lemma LosesBefore(es: seq<Event>, n: nat, i: nat)
    requires i < n <= |es|
    ensures Loses(es, i) <==> Loses(es[..n], i)
  {
    hide Run, Possible;
    assert es[..n][..i] == es[..i];
  }

  lemma LosesNow(es: seq<Event>, n: nat)
    requires n < |es| && Possible(es[..n])
    ensures Loses(es, n) <==> (es[n].Tick? || es[n].Close?) && Run(es[..n]).hand.Some?
  {
    hide Run, Possible;
  }

  lemma StepDiscards(s: State, e: Event)
    requires Enabled(s, e) && (s.hand.None? ==> s.queue == [])
    ensures Step(s, e).discarded == [] <==> s.discarded == [] && !((e.Tick? || e.Close?) && s.hand.Some?)
  {
  }

  /** For instance, a tick right after a block came in loses it. */
  lemma TickLoses(a: Block)
    ensures var es := [Receive(a)] + [Tick];
            Possible(es) && Run(es).accepted == [a] && Run(es).discarded == [a] && Run(es).sent == []
  {
    FirstRound();
    RunOne([], Receive(a));
    assert [] + [Receive(a)] == [Receive(a)];
    assert Run([Receive(a)]) == State([], Some(a), false, [a], [], [], []);
    RunOne([Receive(a)], Tick);
  }

  /** A key that was accepted is known ever after. */
  lemma KeyNotLost(es: seq<Event>, b: Block)
    requires Possible(es) && b in Run(es).accepted
    ensures Known(Run(es), b.key)
  {
    hide Places, Count;
    Accounting(es);
    var s := Run(es);
    CountIn(s.accepted, b);
    CountIn(s.merged, b);
    assert Count(s.accepted, b) == Places(s, b) + Count(s.merged, b);
  }

  /** So if nothing is lost, every accepted key is the key of a block handed on or waiting. */
  lemma KeyHandedOnOrWaiting(es: seq<Event>, b: Block)
    requires Possible(es) && b in Run(es).accepted && forall i: nat | i < |es| :: !Loses(es, i)
    ensures exists c :: c in Run(es).sent + Waiting(Run(es)) && c.key == b.key
  {
    hide Run;
    KeyNotLost(es, b);
    DiscardsNothingIff(es);
    var s := Run(es);
    var c :| Places(s, c) > 0 && c.key == b.key;
    CountIn(s.sent, c);
    CountIn(Held(s.hand), c);
    CountIn(s.queue, c);
    assert c in s.sent + Waiting(s);
  }

  // ----- order -----

  /** The blocks not yet handed on, first the one in hand. */
  function Waiting(s: State): seq<Block> { Held(s.hand) + s.queue }

  /** In round `i` a block comes in while one is offered and others are behind it. */
  ghost predicate Overtakes(es: seq<Event>, i: nat) {
    && i < |es| && Possible(es[..i])
    && es[i].Receive? && Run(es[..i]).hand.Some? && Run(es[..i]).queue != []
  }

  /** A block that comes in leaves those before it where they were, in one round ... */
  lemma ReceiveKeepsLine(s: State, b: Block)
    requires Enabled(s, Receive(b)) && Distinct(Waiting(s)) && (s.hand.None? ==> s.queue == [])
    ensures Waiting(s) <= Waiting(Step(s, Receive(b))) <==> !(s.hand.Some? && s.queue != [])
    ensures Waiting(Step(s, Receive(b))) == s.queue + Held(s.hand) + Gained(s, Receive(b))
  {
    var n := Step(s, Receive(b));
    PutBack(s);
    PushGains(s, Receive(b));
    var line := s.queue + Held(s.hand) + Gained(s, Receive(b));
    assert line != [] ==> [line[0]] + line[1..] == line;
    assert Waiting(n) == line;
    if s.hand.Some? && s.queue != [] {
      assert Waiting(s)[0] == s.hand.value && Waiting(s)[1] == s.queue[0] && line[0] == s.queue[0];
    } else {
      assert Waiting(s) == s.queue + Held(s.hand);
    }
  }

  /** ... and in all rounds of a run exactly when it never comes in behind an offered block and others. */
  lemma LineKeptIff(es: seq<Event>)
    requires Possible(es)
    ensures (forall i: nat | i < |es| && es[i].Receive? :: KeepsLine(es, i))
       <==> (forall i: nat | i < |es| :: !Overtakes(es, i))
  {
    forall i: nat | i < |es| && es[i].Receive?
      ensures KeepsLine(es, i) <==> !Overtakes(es, i)
    {
      NextRound(es, i);
      Accounting(es[..i]);
      HandBeforeQueue(es[..i]);
      hide Run, Possible, Distinct, Step;
      ReceiveKeepsLine(Run(es[..i]), es[i].b);
    }
  }

  ghost predicate KeepsLine(es: seq<Event>, i: nat) {
    && i < |es| && Possible(es[..i]) && Possible(es[..i + 1])
    && Waiting(Run(es[..i])) <= Waiting(Run(es[..i + 1]))
  }

  /** As long as that never happens, the blocks leave in the order they came, less those merged and lost. */
  lemma {:induction false} OrderKept(es: seq<Event>)
    requires Possible(es) && forall i: nat | i < |es| :: !Overtakes(es, i)
    ensures Subseq(Run(es).sent + Waiting(Run(es)), Run(es).accepted)
    ensures Subseq(Run(es).sent, Run(es).accepted)
    decreases |es|
  {
    if es != [] {
      var n := |es| - 1;
      var init := es[..n];
      forall i: nat | i < n
        ensures !Overtakes(init, i)
      {
        assert es[..i] == init[..i] && !Overtakes(es, i);
      }
      OrderKept(init);
      Accounting(init);
      HandBeforeQueue(init);
      assert !Overtakes(es, n);
      StepKeepsOrder(Run(init), es[n]);
    }
    SubseqPrefix(Run(es).sent, Waiting(Run(es)), Run(es).accepted);
  }

  lemma StepKeepsOrder(s: State, e: Event)
    requires Enabled(s, e) && Distinct(Waiting(s)) && (s.hand.None? ==> s.queue == [])
    requires Subseq(s.sent + Waiting(s), s.accepted)
    requires e.Receive? ==> !(s.hand.Some? && s.queue != [])
    ensures Subseq(Step(s, e).sent + Waiting(Step(s, e)), Step(s, e).accepted)
  {
    hide Subseq, Distinct, Pushed, KeysOf;
    match e
    case Send => assert Step(s, e).sent + Waiting(Step(s, e)) == s.sent + Waiting(s);
    case Tick => TickKeepsOrder(s);
    case Receive(b) => ReceiveKeepsOrder(s, b);
    case Close =>
      SubseqPrefix(s.sent, Waiting(s), s.accepted);
      assert Step(s, e).sent + Waiting(Step(s, e)) == s.sent;
  }

  lemma TickKeepsOrder(s: State)
    requires Enabled(s, Tick) && Subseq(s.sent + Waiting(s), s.accepted)
    ensures Subseq(Step(s, Tick).sent + Waiting(Step(s, Tick)), Step(s, Tick).accepted)
  {
    hide Subseq;
    assert Step(s, Tick).sent + Waiting(Step(s, Tick)) == s.sent + s.queue;
    if s.hand.Some? {
      assert s.sent + [s.hand.value] + s.queue == s.sent + Waiting(s);
      SubseqRemove(s.sent, s.hand.value, s.queue, s.accepted);
    } else {
      assert s.sent + s.queue == s.sent + Waiting(s);
    }
  }

  lemma ReceiveKeepsOrder(s: State, b: Block)
    requires Enabled(s, Receive(b)) && Distinct(Waiting(s)) && (s.hand.None? ==> s.queue == [])
    requires Subseq(s.sent + Waiting(s), s.accepted) && !(s.hand.Some? && s.queue != [])
    ensures var n := Step(s, Receive(b));
            Subseq(n.sent + Waiting(n), n.accepted)
  {
    LineGrows(s, b);
    RoundReady(s, b);
    hide Subseq, Distinct, Step, Waiting, Gained;
    AppendGain(s.sent, Waiting(s), Gained(s, Receive(b)), s.accepted, b);
  }

  lemma LineGrows(s: State, b: Block)
    requires Enabled(s, Receive(b)) && Distinct(Waiting(s)) && (s.hand.None? ==> s.queue == [])
    requires !(s.hand.Some? && s.queue != [])
    ensures Waiting(Step(s, Receive(b))) == Waiting(s) + Gained(s, Receive(b))
    ensures Gained(s, Receive(b)) == [] || Gained(s, Receive(b)) == [b]
  {
    hide Distinct, Step, KeysOf;
    ReceiveKeepsLine(s, b);
    assert s.queue + Held(s.hand) == Waiting(s);
  }

  lemma AppendGain(sent: seq<Block>, line: seq<Block>, gain: seq<Block>, accepted: seq<Block>, b: Block)
    requires Subseq(sent + line, accepted) && (gain == [] || gain == [b])
    ensures Subseq(sent + (line + gain), accepted + [b])
  {
    hide Subseq;
    SubseqAppend(sent + line, accepted, b);
    if gain == [] {
      assert line + gain == line;
    } else {
      assert sent + (line + gain) == sent + line + [b];
    }
  }

  /** And whenever it happens, the next block sent is the second in line, with the first still waiting. */
  lemma Overtaken(es: seq<Event>, b: Block)
    requires Possible(es) && Enabled(Run(es), Receive(b)) && Run(es).hand.Some? && Run(es).queue != []
    ensures var s, more := Run(es), es + [Receive(b)] + [Send];
            && Possible(more) && Run(more).sent == s.sent + [s.queue[0]] && s.hand.value in Waiting(Run(more))
  {
    Accounting(es);
    hide Run, Possible, Distinct, Step, Waiting;
    OvertakenNext(Run(es), b);
    RunOne(es, Receive(b));
    var more := es + [Receive(b)];
    RunOne(more, Send);
  }

  lemma OvertakenNext(s: State, b: Block)
    requires Enabled(s, Receive(b)) && Distinct(Held(s.hand) + s.queue) && s.hand.Some? && s.queue != []
    ensures var n := Step(s, Receive(b));
            && Enabled(n, Send) && Step(n, Send).sent == s.sent + [s.queue[0]]
            && s.hand.value in Waiting(Step(n, Send))
  {
    var n := Step(s, Receive(b));
    ReceiveKeepsLine(s, b);
    RoundReady(s, b);
    SecondSent(n);
    hide Step;
    var line := s.queue + Held(s.hand) + Gained(s, Receive(b));
    assert line[0] == s.queue[0] && line[1..][|s.queue| - 1] == s.hand.value;
  }

  lemma RoundReady(s: State, b: Block)
    requires Enabled(s, Receive(b))
    ensures var n := Step(s, Receive(b));
            && !n.closed && n.sent == s.sent && n.accepted == s.accepted + [b] && (n.hand.None? ==> n.queue == [])
  {
    hide Pushed, KeysOf;
  }

  lemma SecondSent(n: State)
    requires Waiting(n) != [] && !n.closed && (n.hand.None? ==> n.queue == [])
    ensures Enabled(n, Send) && Step(n, Send).sent == n.sent + [Waiting(n)[0]]
    ensures Waiting(Step(n, Send)) == Waiting(n)[1..]
  {
  }

  /** For instance, when three blocks come in before one is sent. */
  lemma OutOfOrder(a: Block, b: Block, c: Block)
    requires a.key != b.key && b.key != c.key && a.key != c.key
    ensures var es := [Receive(a)] + [Receive(b)] + [Receive(c)] + [Send];
            Possible(es) && Run(es).accepted == [a, b, c] && Run(es).sent == [b]
  {
    var s1, s2 := State([], Some(a), false, [a], [], [], []), State([b], Some(a), false, [a, b], [], [], []);
    var s3 := State([a, c], Some(b), false, [a, b, c], [], [], []);
    ThreeRounds(a, b, c);
    FirstRound();
    SendOffered(s3);
    hide Step, Run, Possible;
    RunOne([], Receive(a));
    assert [] + [Receive(a)] == [Receive(a)];
    RunOne([Receive(a)], Receive(b));
    RunOne([Receive(a)] + [Receive(b)], Receive(c));
    RunOne([Receive(a)] + [Receive(b)] + [Receive(c)], Send);
  }

  lemma ThreeRounds(a: Block, b: Block, c: Block)
    requires a.key != b.key && b.key != c.key && a.key != c.key
    ensures var s1 := State([], Some(a), false, [a], [], [], []);
            var s2 := State([b], Some(a), false, [a, b], [], [], []);
            var s3 := State([a, c], Some(b), false, [a, b, c], [], [], []);
            && Step(START, Receive(a)) == s1 && Step(s1, Receive(b)) == s2 && Step(s2, Receive(c)) == s3
  {
    var s1, s2 := State([], Some(a), false, [a], [], [], []), State([b], Some(a), false, [a, b], [], [], []);
    assert Step(START, Receive(a)) == s1;
    hide Step;
    OfferedGoesBehind(s1, a, b);
    OfferedGoesBehind(s2, a, c);
  }

  lemma RunOne(es: seq<Event>, e: Event)
    requires Possible(es) && Enabled(Run(es), e)
    ensures Possible(es + [e]) && Run(es + [e]) == Step(Run(es), e)
  {
    assert (es + [e])[..|es|] == es;
  }

  lemma SendOffered(s: State)
    requires Enabled(s, Send)
    ensures Step(s, Send).sent == s.sent + [s.hand.value] && Step(s, Send).accepted == s.accepted
  {
  }

  /** With `a` offered and at most one block behind it, a new block takes the last place after `a`. */
  lemma OfferedGoesBehind(s: State, a: Block, c: Block)
    requires Enabled(s, Receive(c)) && s.hand == Some(a) && |s.queue| <= 1
    requires a.key != c.key && (s.queue != [] ==> s.queue[0].key != a.key && s.queue[0].key != c.key)
    ensures var all := s.queue + [a, c];
            Step(s, Receive(c)) == s.(queue := all[1..], hand := Some(all[0]), accepted := s.accepted + [c])
  {
    var q := s.queue;
    assert Pushed(q, a) == q + [a] && Pushed(q + [a], c) == q + [a] + [c];
    assert q + [a] + [c] == q + [a, c] && s.merged + [] == s.merged;
  }
}

module Worker {
  import opened Options
  import opened WorkerSpec

  /** An element of the list. */
  class Element {
    const value: Block

    constructor (b: Block)
      ensures value == b
    {
      value := b;
    }
  }

  class BlockList {
    var list: seq<Element>
    var uniques: map<string, Element>

    function Contents(): (q: seq<Block>)
      reads this
      ensures |q| == |list|
    {
      seq(|list|, i requires 0 <= i < |list| reads this => list[i].value)
    }

    /** The map leads from each key in the list to its element, and from no other key. */
    ghost predicate Valid()
      reads this
    {
      && Distinct(Contents())
      && (forall i: nat | i < |list| :: list[i].value.key in uniques && uniques[list[i].value.key] == list[i])
      && (forall key | key in uniques :: uniques[key] in list && uniques[key].value.key == key)
    }

    constructor ()
      ensures Valid() && Contents() == []
    {
      list, uniques := [], map[];
    }

    lemma Indexed(key: string)
      requires Valid()
      ensures key in uniques <==> key in KeysOf(Contents())
    {
      if key in uniques {
        var i :| 0 <= i < |list| && list[i] == uniques[key];
        assert KeysOf(Contents())[i] == key;
      }
      if key in KeysOf(Contents()) {
        var i :| 0 <= i < |list| && KeysOf(Contents())[i] == key;
        assert list[i].value.key == key;
      }
    }

    method PushFront(b: Block)
      requires Valid()
      modifies this
      ensures Valid()
      ensures Contents() == if b.key in KeysOf(old(Contents())) then old(Contents()) else [b] + old(Contents())
    {
      hide Distinct, KeysOf;
      Indexed(b.key);
      if b.key !in uniques {
        var e := new Element(b);
        list := [e] + list;
        uniques := uniques[b.key := e];
        DistinctFront(old(Contents()), b);
        assert Contents() == [b] + old(Contents());
      }
    }

    method Push(b: Block)
      requires Valid()
      modifies this
      ensures Valid() && Contents() == Pushed(old(Contents()), b)
    {
      hide Distinct, KeysOf;
      Indexed(b.key);
      if b.key !in uniques {
        var e := new Element(b);
        list := list + [e];
        uniques := uniques[b.key := e];
        PushFacts(old(Contents()), b);
        assert Contents() == old(Contents()) + [b];
      }
    }

    method Pop() returns (b: Option<Block>)
      requires Valid()
      modifies this
      ensures Valid()
      ensures b == if old(Contents()) == [] then None else Some(old(Contents())[0])
      ensures Contents() == if old(Contents()) == [] then [] else old(Contents())[1..]
    {
      if |list| == 0 {
        return None;
      }
      var e := list[0];
      ghost var was := Contents();
      list := list[1..];
      uniques := uniques - {e.value.key};
      assert forall i: nat | i < |list| :: list[i].value == was[i + 1] && list[i].value.key != was[0].key;
      assert Contents() == was[1..];
      return Some(e.value);
    }

    method Len() returns (n: nat)
      ensures n == |Contents()|
    {
      n := |list|;
    }
  }

  /** The client worker, with the outcomes of its select given: what it sends and holds at the end. */
  method ClientWorker(events: seq<Event>) returns (sent: seq<Block>, nextBlock: Option<Block>, workQueue: BlockList)
    requires Possible(events)
    ensures sent == Run(events).sent
    ensures !Run(events).closed ==>
              fresh(workQueue) && workQueue.Contents() == Run(events).queue && nextBlock == Run(events).hand
  {
    hide Possible, Run, Pushed, KeysOf, BlockList.Valid, BlockList.Contents;
    FirstRound();
    workQueue := new BlockList();
    sent := [];
    assert events[..0] == [];
    var i := 0;
    ghost var s := START;
    while true
      invariant 0 <= i <= |events| && fresh(workQueue) && workQueue.Valid()
      invariant Possible(events[..i]) && Run(events[..i]) == Popped(s) && !s.closed
      invariant sent == s.sent && workQueue.Contents() == s.queue
      decreases |events| - i
    {
      nextBlock := workQueue.Pop();
      if i == |events| {
        assert events[..i] == events;
        return;
      }
      NextRound(events, i);
      s := BeforePop(Popped(s), events[i]);
      match events[i] {
        case Send => sent := sent + [nextBlock.value];
        case Tick =>
        case Receive(block) =>
          if nextBlock.Some? {
            workQueue.Push(nextBlock.value);
          }
          workQueue.Push(block);
        case Close =>
          ClosedIsLast(events, i);
          assert events[..i + 1] == events;
          return;
      }
      i := i + 1;
    }
  }
}
