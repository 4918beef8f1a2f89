/**
 The queue as its users see it: whole runs of calls by one producer and one consumer.
 */
module SpscTheorems {
  import opened SpscBlocks
  import opened SpscQueue
  import opened SpscCalls
  import opened SpscMoments
  import opened SpscInvariant
  import opened SpscProofs

  lemma InvBasics<T>(s: State<T>, ring: seq<nat>, t: nat)
    requires Inv(s, ring, t)
    ensures Typed(s) && t < |ring|
  {
  }

  lemma ProducerStepOk<T>(s: State<T>, ring: seq<nat>, t: nat, allocOk: bool) returns (ring': seq<nat>, t': nat)
    requires Inv(s, ring, t)
    ensures Inv(ProducerStep(s, allocOk), ring', t')
    ensures !s.p.PLink? ==> |ring'| == |ring|
  {
    hide Inv, ProducerTyped, ConsumerTyped, BlocksTyped;
    InvBasics(s, ring, t);
    ring', t' := ring, t;
    match s.p {
      case PIdle =>
      case PFailed =>
      case PStart(_, _) => StartOk(s, ring, t);
      case PCheckFront(_, _, _, _) => CheckFrontOk(s, ring, t);
      case PWrite(_, _, _) => WriteOk(s, ring, t);
      case PPublish(_, _, _) => PublishOk(s, ring, t);
      case PCheckRing(_, _, _, _) => CheckRingOk(s, ring, t);
      case PNextFront(_, _) => NextFrontOk(s, ring, t);
      case PNextWrite(_, _, _) => NextWriteOk(s, ring, t);
      case PNextTail(_, _, _) => NextTailOk(s, ring, t);
      case PMove(_, _) => MoveOk(s, ring, t); t' := t + 1;
      case PAlloc(_, _) => AllocOk(s, ring, t, allocOk);
      case PLink(_, _, added) => LinkOk(s, ring, t); ring' := Insert(ring, t, added);
    }
  }

  lemma ConsumerStepOk<T>(s: State<T>, ring: seq<nat>, t: nat) returns (ring': seq<nat>, t': nat)
    requires Inv(s, ring, t)
    ensures Inv(ConsumerStep(s), ring', t') && |ring'| == |ring|
  {
    hide Inv, ProducerTyped, ConsumerTyped, BlocksTyped;
    InvBasics(s, ring, t);
    ring', t' := ring, t;
    match s.c {
      case CIdle =>
      case CFailed =>
      case CStart(_) => CStartOk(s, ring, t);
      case CCheckTail(_, _, _) => CCheckTailOk(s, ring, t);
      case CRead(_, _, _) => CReadOk(s, ring, t);
      case CAdvance(_, _, _) => CAdvanceOk(s, ring, t);
      case CCheckTailBlock(_, _, _) => CCheckTailBlockOk(s, ring, t);
      case CRecheck(_) => CRecheckOk(s, ring, t);
      case CNext(_, _) => CNextOk(s, ring, t);
      case CNextTail(_, _) => CNextTailOk(s, ring, t);
      case CMoveFront(_, _) => CMoveFrontOk(s, ring, t); ring', t' := Rotate(ring), t - 1;
      case CLookNext(_, _) => CLookNextOk(s, ring, t);
    }
  }

  lemma CallOk<T>(s: State<T>, a: Action<T>, ring: seq<nat>, t: nat)
    requires Inv(s, ring, t) && (a.CallEnqueue? || a.CallDequeue?)
    ensures Inv(Apply(s, a), ring, t)
  {
    hide ProducerStep, ConsumerStep, ShadowsOk, RingOk, Queue, Capacity, Contents;
  }

  lemma ApplyOk<T>(s: State<T>, a: Action<T>, ring: seq<nat>, t: nat) returns (ring': seq<nat>, t': nat)
    requires Inv(s, ring, t)
    ensures Inv(Apply(s, a), ring', t')
    ensures !s.p.PLink? ==> |ring'| == |ring|
  {
    hide Inv, ProducerStep, ConsumerStep;
    InvBasics(s, ring, t);
    ring', t' := ring, t;
    match a {
      case CallEnqueue(_, _) => CallOk(s, a, ring, t);
      case CallDequeue(_) => CallOk(s, a, ring, t);
      case ProducerRuns(allocOk) => ring', t' := ProducerStepOk(s, ring, t, allocOk);
      case ConsumerRuns => ring', t' := ConsumerStepOk(s, ring, t);
    }
  }

  lemma {:induction false} RunOk<T>(s: State<T>, actions: seq<Action<T>>, ring: seq<nat>, t: nat)
    returns (ring': seq<nat>, t': nat)
    requires Inv(s, ring, t)
    ensures Inv(Run(s, actions), ring', t')
    decreases |actions|
  {
    hide Inv;
    InvBasics(s, ring, t);
    if actions == [] {
      ring', t' := ring, t;
    } else {
      var r, u := RunOk(s, actions[..|actions| - 1], ring, t);
      ring', t' := ApplyOk(Run(s, actions[..|actions| - 1]), actions[|actions| - 1], r, u);
    }
  }

  // ------------------------------------------------------------------ calls and results

  // The argument of the call the producer is working on.
  function Argument<T>(p: Producer<T>): (x: T)
    requires !p.PIdle? && !p.PFailed?
  {
    p.x
  }

  // The arguments of the calls that returned true, in call order.
  ghost function Taken<T>(offered: seq<T>, pushes: seq<PushOutcome>): (xs: seq<T>)
    requires |pushes| <= |offered|
    decreases |pushes|
  {
    if pushes == [] then [] else
    var n := |pushes| - 1;
    Taken(offered, pushes[..n]) + if pushes[n].Accepted? then [offered[n]] else []
  }

  // The values that the consumer's calls handed out, in call order.
  ghost function Given<T>(pops: seq<PopOutcome<T>>): (xs: seq<T>)
    decreases |pops|
  {
    if pops == [] then [] else
    var n := |pops| - 1;
    Given(pops[..n]) + if pops[n].Delivered? then [pops[n].value] else []
  }

  // The bookkeeping of the model follows the calls and their results.
  ghost predicate CallsOk<T>(s: State<T>) {
    && !s.p.PFailed?
    && |s.offered| == |s.pushes| + (if s.p.PIdle? then 0 else 1)
    && (!s.p.PIdle? ==> s.offered[|s.pushes|] == Argument(s.p))
    && s.accepted == Taken(s.offered, s.pushes)
    && s.delivered == Given(s.pops)
  }

  lemma {:induction false} TakenIgnoresNewCalls<T>(offered: seq<T>, x: T, pushes: seq<PushOutcome>)
    requires |pushes| <= |offered|
    ensures Taken(offered + [x], pushes) == Taken(offered, pushes)
    decreases |pushes|
  {
    if pushes != [] { TakenIgnoresNewCalls(offered, x, pushes[..|pushes| - 1]); }
  }

  lemma TakenSnoc<T>(offered: seq<T>, pushes: seq<PushOutcome>, o: PushOutcome)
    requires |pushes| < |offered|
    ensures Taken(offered, pushes + [o]) == Taken(offered, pushes) + if o.Accepted? then [offered[|pushes|]] else []
  {
    assert (pushes + [o])[..|pushes|] == pushes;
  }

  lemma GivenSnoc<T>(pops: seq<PopOutcome<T>>, o: PopOutcome<T>)
    ensures Given(pops + [o]) == Given(pops) + if o.Delivered? then [o.value] else []
  {
    assert (pops + [o])[..|pops|] == pops;
  }

  // How one step of the producer shows in the logs.
  lemma ProducerLogs<T>(s: State<T>, allocOk: bool)
    requires Typed(s) && !ProducerStep(s, allocOk).p.PFailed?
    ensures var s' := ProducerStep(s, allocOk);
      && s'.offered == s.offered && s'.pops == s.pops && s'.delivered == s.delivered && s'.c == s.c
      && (s'.p.PIdle? && !s.p.PIdle? ==>
            exists o :: s'.pushes == s.pushes + [o] &&
              s'.accepted == s.accepted + if o.Accepted? then [Argument(s.p)] else [])
      && (!s'.p.PIdle? ==> !s.p.PIdle? && Argument(s'.p) == Argument(s.p))
      && (!s'.p.PIdle? || s.p.PIdle? ==> s'.pushes == s.pushes && s'.accepted == s.accepted)
  {
    hide Typed;
    var s' := ProducerStep(s, allocOk);
    if s'.p.PIdle? && !s.p.PIdle? {
      assert s'.pushes == s.pushes + [s'.pushes[|s.pushes|]];
    }
  }

  lemma ConsumerLogs<T>(s: State<T>)
    requires Typed(s)
    ensures var s' := ConsumerStep(s);
      && s'.offered == s.offered && s'.pushes == s.pushes && s'.accepted == s.accepted && s'.p == s.p
      && (s'.pops == s.pops ==> s'.delivered == s.delivered)
      && (s'.pops != s.pops ==>
            exists o :: s'.pops == s.pops + [o] && s'.delivered == s.delivered + if o.Delivered? then [o.value] else [])
  {
    hide ProducerTyped;
    var s' := ConsumerStep(s);
    if s'.pops != s.pops {
      var o := s'.pops[|s.pops|];
      assert s'.pops == s.pops + [o];
    }
  }

  lemma ApplyKeepsCalls<T>(s: State<T>, a: Action<T>)
    requires Typed(s) && CallsOk(s) && !Apply(s, a).p.PFailed?
    ensures CallsOk(Apply(s, a))
  {
    var s' := Apply(s, a);
    match a {
      case CallEnqueue(x, _) => TakenIgnoresNewCalls(s.offered, x, s.pushes);
      case CallDequeue(_) =>
      case ProducerRuns(allocOk) =>
        ProducerLogs(s, allocOk);
        if s'.p.PIdle? && !s.p.PIdle? { TakenSnoc(s.offered, s.pushes, s'.pushes[|s.pushes|]); }
      case ConsumerRuns =>
        ConsumerLogs(s);
        if s'.pops != s.pops { GivenSnoc(s.pops, s'.pops[|s.pops|]); }
    }
  }

  // ------------------------------------------------------------------ whole runs

  // A queue as the constructor leaves it: n empty blocks of the given size in a ring.
  ghost predicate Built<T>(s: State<T>, n: nat, size: nat) {
    && 0 < n == |s.blocks| && 2 <= size == s.largest && 2 <= s.maxBlock
    && (forall i :: 0 <= i < n ==> s.blocks[i] == MakeBlock(size, if i + 1 == n then 0 else i + 1, s.junk))
    && s.frontBlock == 0 && s.tailBlock == 0 && s.p.PIdle? && s.c.CIdle?
    && s.offered == [] && s.accepted == [] && s.delivered == [] && s.pushes == [] && s.pops == []
  }

  function FirstRing(n: nat): (ring: seq<nat>) {
    seq(n, i requires 0 <= i < n => i)
  }

  lemma BuiltOk<T>(s: State<T>, n: nat, size: nat)
    requires Built(s, n, size)
    ensures Inv(s, FirstRing(n), 0) && CallsOk(s)
  {
    var ring := FirstRing(n);
    assert Typed(s);
    assert RingOk(s.blocks, ring);
    assert ring[..1] == [0];
    assert Join(s.blocks, [0]) == [];
  }

  lemma InvNotFailed<T>(s: State<T>, ring: seq<nat>, t: nat)
    requires Inv(s, ring, t)
    ensures Typed(s) && !s.p.PFailed? && !s.c.CFailed?
  {
  }

  lemma {:induction false} RunKeepsCalls<T>(s: State<T>, actions: seq<Action<T>>, ring: seq<nat>, t: nat)
    requires Inv(s, ring, t) && CallsOk(s)
    ensures CallsOk(Run(s, actions))
    decreases |actions|
  {
    InvNotFailed(s, ring, t);
    hide Inv;
    if actions != [] {
      var before := actions[..|actions| - 1];
      RunKeepsCalls(s, before, ring, t);
      var r, u := RunOk(s, actions, ring, t);
      InvNotFailed(Run(s, actions), r, u);
      ApplyKeepsCalls(Run(s, before), actions[|actions| - 1]);
    }
  }

  // What the queue promises after any run: no assertion of the source has failed; the values
  // handed out are, in order, a prefix of the values accepted; what lies between is what the
  // blocks from the front to the tail hold, block by block; a call that reports an empty queue
  // saw it empty at some moment, and a peek reported the next value to be handed out.  The calls
  // are those of the run, and each has an outcome of its own kind.
  ghost predicate FifoHolds<T>(s: State<T>, actions: seq<Action<T>>, ring: seq<nat>, t: nat)
    requires Typed(s)
  {
    var now := Run(s, actions);
    && CallsFit(s, actions)
    && |now.pushes| <= |Offers(s, actions)|
    && !now.p.PFailed? && !now.c.CFailed?
    && Shape(now, ring, t)
    && Taken(Offers(s, actions), now.pushes) == Given(now.pops) + Queue(now.blocks, ring, t)
    && LogsOk(now.pops, Taken(Offers(s, actions), now.pushes))
    && (forall i :: 0 <= i < |now.pops| && now.pops[i].Empty? ==> PopMoment(s, actions, i))
  }

  lemma Fifo<T>(s: State<T>, n: nat, size: nat, actions: seq<Action<T>>)
    requires Built(s, n, size)
    ensures Typed(s) && exists ring, t :: FifoHolds(s, actions, ring, t)
  {
    hide Built, Shape, LogsOk, ProducerOk, ConsumerOk, Queue, Run, Offers, PopsFit, PushesFit, PopMoment;
    BuiltOk(s, n, size);
    BuiltFresh(s, n, size);
    InvBasics(s, FirstRing(n), 0);
    var ring, t := RunOk(s, actions, FirstRing(n), 0);
    InvNotFailed(Run(s, actions), ring, t);
    RunKeepsCalls(s, actions, FirstRing(n), 0);
    RunFits(s, actions);
    EmptyWitnessed(s, actions, Run(s, actions).accepted);
    assert FifoHolds(s, actions, ring, t);
  }

  lemma EmptyWitnessed<T>(s: State<T>, actions: seq<Action<T>>, accepted: seq<T>)
    requires Typed(s) && Fresh(s) && LogsOk(Run(s, actions).pops, accepted)
    ensures var pops := Run(s, actions).pops; forall i :: 0 <= i < |pops| && pops[i].Empty? ==> PopMoment(s, actions, i)
  {
    hide Run, PopMoment, Typed;
    RunWitnessed(s, actions);
  }

  lemma BuiltFresh<T>(s: State<T>, n: nat, size: nat)
    requires Built(s, n, size)
    ensures Fresh(s)
  {
  }

  // ------------------------------------------------------------------ capacity

  // A queue that never allocates after construction.
  ghost predicate Fixed<T>(s: State<T>, size: nat) {
    && (forall i :: 0 <= i < |s.blocks| ==> s.blocks[i].size == size)
    && !s.p.PAlloc? && !s.p.PLink?
    && (s.p.PStart? || s.p.PCheckFront? || s.p.PCheckRing? ==> !s.p.canAlloc)
  }

  predicate TriesOnly<T>(a: Action<T>) {
    a.CallEnqueue? ==> !a.canAlloc
  }

  lemma ProducerKeepsFixed<T>(s: State<T>, size: nat, allocOk: bool)
    requires Typed(s) && Fixed(s, size)
    ensures Fixed(ProducerStep(s, allocOk), size)
  {
    hide ConsumerTyped;
  }

  lemma ConsumerKeepsFixed<T>(s: State<T>, size: nat)
    requires Typed(s) && Fixed(s, size)
    ensures Fixed(ConsumerStep(s), size)
  {
    hide ProducerTyped;
  }

  lemma ApplyKeepsFixed<T>(s: State<T>, a: Action<T>, size: nat)
    requires Typed(s) && Fixed(s, size) && TriesOnly(a)
    ensures Fixed(Apply(s, a), size)
  {
    hide ProducerStep, ConsumerStep, Typed;
    match a {
      case ProducerRuns(allocOk) => ProducerKeepsFixed(s, size, allocOk);
      case ConsumerRuns => ConsumerKeepsFixed(s, size);
      case _ =>
    }
  }

  lemma OneMoreRoom(n: nat, room: int)
    ensures n * room == (n - 1) * room + room
  {
  }

  lemma {:induction false} UniformRoom<T>(blocks: seq<Block<T>>, ids: seq<nat>, size: nat)
    requires BlocksTyped(blocks) && forall i :: 0 <= i < |blocks| ==> blocks[i].size == size
    requires forall i :: 0 <= i < |ids| ==> ids[i] < |blocks|
    ensures Room(blocks, ids) == |ids| * (size - 1)
  {
    hide BlocksTyped;
    if ids != [] {
      UniformRoom(blocks, ids[1..], size);
      OneMoreRoom(|ids|, size - 1);
    }
  }

  // A call that is refused by a queue of n equal blocks saw all blocks but one full.
  ghost predicate RefusalsOk(pushes: seq<PushOutcome>, n: nat, size: nat) {
    forall i :: 0 <= i < |pushes| && pushes[i].Refused? ==>
      pushes[i].present >= (if n == 1 then 1 else n - 1) * (size - 1)
  }

  // Only the ring check refuses, with the number of elements it has seen.
  lemma OnlyRingRefuses<T>(s: State<T>, allocOk: bool)
    requires Typed(s)
    ensures var s' := ProducerStep(s, allocOk);
      || s'.pushes == s.pushes
      || (|s'.pushes| == |s.pushes| + 1 && s'.pushes[..|s.pushes|] == s.pushes &&
          (s'.pushes[|s.pushes|].Refused? ==>
             s.p.PCheckRing? && s.blocks[s.p.block].next == s.frontBlock && s'.pushes[|s.pushes|].present == s.p.present))
  {
    hide BlocksTyped, ConsumerTyped;
  }

  lemma RefusalIsFull<T>(s: State<T>, ring: seq<nat>, t: nat, size: nat)
    requires Inv(s, ring, t) && Fixed(s, size) && s.p.PCheckRing? && s.blocks[s.p.block].next == s.frontBlock
    ensures s.p.present >= (if |ring| == 1 then 1 else |ring| - 1) * (size - 1)
  {
    hide Queue, LogsOk, ConsumerOk, ShadowsOk, ArcOk, Contents;
    RefusedMeansFull(s, ring, t);
    UniformRoom(s.blocks, if |ring| == 1 then ring else ring[1..], size);
  }

  lemma RefusalsSnoc(pushes: seq<PushOutcome>, pushes': seq<PushOutcome>, n: nat, size: nat)
    requires RefusalsOk(pushes, n, size) && |pushes'| == |pushes| + 1 && pushes'[..|pushes|] == pushes
    requires pushes'[|pushes|].Refused? ==> pushes'[|pushes|].present >= (if n == 1 then 1 else n - 1) * (size - 1)
    ensures RefusalsOk(pushes', n, size)
  {
    forall i | 0 <= i < |pushes'| && pushes'[i].Refused? ensures pushes'[i].present >= (if n == 1 then 1 else n - 1) * (size - 1) {
      if i < |pushes| { assert pushes'[i] == pushes[i]; }
    }
  }

  lemma ApplyKeepsRefusals<T>(s: State<T>, a: Action<T>, ring: seq<nat>, t: nat, size: nat)
    requires Inv(s, ring, t) && Fixed(s, size) && RefusalsOk(s.pushes, |ring|, size)
    ensures RefusalsOk(Apply(s, a).pushes, |ring|, size)
  {
    hide Inv, Fixed, RefusalsOk, ProducerStep, ConsumerStep;
    InvBasics(s, ring, t);
    match a {
      case ProducerRuns(allocOk) =>
        OnlyRingRefuses(s, allocOk);
        var pushes := ProducerStep(s, allocOk).pushes;
        if pushes != s.pushes {
          if pushes[|s.pushes|].Refused? { RefusalIsFull(s, ring, t, size); }
          RefusalsSnoc(s.pushes, pushes, |ring|, size);
        }
      case ConsumerRuns => ConsumerLogs(s);
      case _ =>
    }
  }

  lemma {:induction false} RunKeepsRefusals<T>(s: State<T>, n: nat, size: nat, actions: seq<Action<T>>)
    returns (ring: seq<nat>, t: nat)
    requires Built(s, n, size)
    requires forall i :: 0 <= i < |actions| ==> TriesOnly(actions[i])
    ensures var s' := Run(s, actions);
      Inv(s', ring, t) && |ring| == n && Fixed(s', size) && RefusalsOk(s'.pushes, n, size)
    decreases |actions|
  {
    hide Inv;
    if actions == [] {
      BuiltOk(s, n, size);
      ring, t := FirstRing(n), 0;
    } else {
      var a := actions[|actions| - 1];
      var r, u := RunKeepsRefusals(s, n, size, actions[..|actions| - 1]);
      var s1 := Run(s, actions[..|actions| - 1]);
      ApplyKeepsRefusals(s1, a, r, u, size);
      ApplyKeepsFixed(s1, a, size);
      ring, t := ApplyOk(s1, a, r, u);
    }
  }
}
