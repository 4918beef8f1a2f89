/** A refusal saw a full queue and an empty answer an empty one, at a moment inside the call. */
module SpscMoments {
  import opened SpscBlocks
  import opened SpscQueue
  import opened SpscCalls

  ghost function AcceptedIn(pushes: seq<PushOutcome>): (n: nat) {
    if pushes == [] then 0 else AcceptedIn(pushes[..|pushes| - 1]) + if pushes[|pushes| - 1].Accepted? then 1 else 0
  }

  ghost function DeliveredIn<T>(pops: seq<PopOutcome<T>>): (n: nat) {
    if pops == [] then 0 else DeliveredIn(pops[..|pops| - 1]) + if pops[|pops| - 1].Delivered? then 1 else 0
  }

  // The elements whose insertion has completed and whose removal has not.
  ghost function Stored<T>(s: State<T>): int { AcceptedIn(s.pushes) - DeliveredIn(s.pops) }

  lemma AcceptedSnoc(pushes: seq<PushOutcome>, o: PushOutcome)
    ensures AcceptedIn(pushes + [o]) == AcceptedIn(pushes) + if o.Accepted? then 1 else 0
  {
    assert (pushes + [o])[..|pushes|] == pushes;
  }

  lemma DeliveredSnoc<T>(pops: seq<PopOutcome<T>>, o: PopOutcome<T>)
    ensures DeliveredIn(pops + [o]) == DeliveredIn(pops) + if o.Delivered? then 1 else 0
  {
    assert (pops + [o])[..|pops|] == pops;
  }

  // ------------------------------------------------------------------ moments of a run

  // While the i-th enqueue is under way, exactly n elements are stored.
  ghost predicate PushMoment<T>(s: State<T>, actions: seq<Action<T>>, i: nat, n: int)
    requires Typed(s)
  {
    exists k :: 0 <= k <= |actions| && PushAt(Run(s, actions[..k]), i, n)
  }

  ghost predicate PushAt<T>(now: State<T>, i: nat, n: int) { |now.pushes| == i && !now.p.PIdle? && Stored(now) == n }

  // While the i-th dequeue is under way, nothing is stored.
  ghost predicate PopMoment<T>(s: State<T>, actions: seq<Action<T>>, i: nat)
    requires Typed(s)
  {
    exists k :: 0 <= k <= |actions| && PopAt(Run(s, actions[..k]), i)
  }

  ghost predicate PopAt<T>(now: State<T>, i: nat) { |now.pops| == i && !now.c.CIdle? && Stored(now) == 0 }

  lemma LaterPush<T>(s: State<T>, actions: seq<Action<T>>, m: nat, i: nat, n: int)
    requires Typed(s) && m <= |actions| && PushMoment(s, actions[..m], i, n)
    ensures PushMoment(s, actions, i, n)
  {
    hide PushAt, Run;
    var k :| 0 <= k <= m && PushAt(Run(s, actions[..m][..k]), i, n);
    assert actions[..m][..k] == actions[..k];
  }

  lemma LaterPop<T>(s: State<T>, actions: seq<Action<T>>, m: nat, i: nat)
    requires Typed(s) && m <= |actions| && PopMoment(s, actions[..m], i)
    ensures PopMoment(s, actions, i)
  {
    hide PopAt, Run;
    var k :| 0 <= k <= m && PopAt(Run(s, actions[..m][..k]), i);
    assert actions[..m][..k] == actions[..k];
  }

  // What the logs claim has been so.
  ghost predicate PushesSaw<T>(s: State<T>, actions: seq<Action<T>>, pushes: seq<PushOutcome>, p: Producer<T>)
    requires Typed(s)
  {
    && (forall i :: 0 <= i < |pushes| && pushes[i].Refused? ==> PushMoment(s, actions, i, pushes[i].present))
    && (p.PCheckRing? ==> PushMoment(s, actions, |pushes|, p.present))
  }

  ghost predicate PopsSaw<T>(s: State<T>, actions: seq<Action<T>>, pops: seq<PopOutcome<T>>, c: Consumer<T>)
    requires Typed(s)
  {
    && (forall i :: 0 <= i < |pops| && pops[i].Empty? && pops[i].wasEmpty ==> PopMoment(s, actions, i))
    && (c.CCheckTailBlock? && c.wasEmpty ==> PopMoment(s, actions, |pops|))
  }

  lemma PushesSawLater<T>(s: State<T>, actions: seq<Action<T>>, m: nat, pushes: seq<PushOutcome>, p: Producer<T>)
    requires Typed(s) && m <= |actions| && PushesSaw(s, actions[..m], pushes, p)
    ensures PushesSaw(s, actions, pushes, p)
  {
    hide PushMoment;
    forall i | 0 <= i < |pushes| && pushes[i].Refused? ensures PushMoment(s, actions, i, pushes[i].present) {
      LaterPush(s, actions, m, i, pushes[i].present);
    }
    if p.PCheckRing? { LaterPush(s, actions, m, |pushes|, p.present); }
  }

  lemma PopsSawLater<T>(s: State<T>, actions: seq<Action<T>>, m: nat, pops: seq<PopOutcome<T>>, c: Consumer<T>)
    requires Typed(s) && m <= |actions| && PopsSaw(s, actions[..m], pops, c)
    ensures PopsSaw(s, actions, pops, c)
  {
    hide PopMoment;
    forall i | 0 <= i < |pops| && pops[i].Empty? && pops[i].wasEmpty ensures PopMoment(s, actions, i) { LaterPop(s, actions, m, i); }
    if c.CCheckTailBlock? && c.wasEmpty { LaterPop(s, actions, m, |pops|); }
  }

  // ------------------------------------------------------------------ one step

  // A step of the producer either finishes its call, with the count it has seen, or takes a count of
  // what is stored now, or neither.
  ghost predicate PushStep<T>(s: State<T>, s': State<T>) {
    && s'.pops == s.pops && s'.c == s.c && s'.delivered == s.delivered
    && (s'.pushes == s.pushes ==> s'.accepted == s.accepted && (s'.p.PCheckRing? ==> !s.p.PIdle? && s'.p.present == |s.accepted| - |s.delivered|))
    && (s'.pushes != s.pushes ==>
          && |s'.pushes| == |s.pushes| + 1 && s'.pushes == s.pushes + [s'.pushes[|s.pushes|]] && s'.p.PIdle?
          && |s'.accepted| == |s.accepted| + (if s'.pushes[|s.pushes|].Accepted? then 1 else 0)
          && (s'.pushes[|s.pushes|].Refused? ==> s.p.PCheckRing? && s'.pushes[|s.pushes|].present == s.p.present))
  }

  lemma LastPushStep<T>(s: State<T>, allocOk: bool)
    requires Typed(s) && (s.p.PPublish? || s.p.PCheckRing? || s.p.PMove? || s.p.PAlloc?)
    ensures PushStep(s, ProducerStep(s, allocOk))
  {
    hide ConsumerTyped, StepPStart, StepPCheckFront, StepPWrite, StepPNextFront, StepPNextWrite, StepPNextTail, StepPLink;
  }

  lemma EarlierPushStep<T>(s: State<T>, allocOk: bool)
    requires Typed(s) && !s.p.PPublish? && !s.p.PCheckRing? && !s.p.PMove? && !s.p.PAlloc?
    ensures ProducerStep(s, allocOk) == s || PushStep(s, ProducerStep(s, allocOk))
  {
    hide ConsumerTyped, StepPPublish, StepPCheckRing, StepPMove, StepPAlloc;
  }

  ghost predicate PopStep<T>(s: State<T>, s': State<T>) {
    && s'.pushes == s.pushes && s'.p == s.p && s'.accepted == s.accepted
    && (s'.pops == s.pops ==>
          && |s'.delivered| == |s.delivered|
          && (s'.c.CCheckTailBlock? && s'.c.wasEmpty ==> !s.c.CIdle? && |s.accepted| == |s.delivered|))
    && (s'.pops != s.pops ==>
          && |s'.pops| == |s.pops| + 1 && s'.pops == s.pops + [s'.pops[|s.pops|]] && s'.c.CIdle?
          && |s'.delivered| == |s.delivered| + (if s'.pops[|s.pops|].Delivered? then 1 else 0)
          && (s'.pops[|s.pops|].Empty? && s'.pops[|s.pops|].wasEmpty ==> s.c.CCheckTailBlock? && s.c.wasEmpty))
  }

  lemma LastPopStep<T>(s: State<T>)
    requires Typed(s) && (s.c.CRead? || s.c.CAdvance? || s.c.CCheckTailBlock? || s.c.CLookNext?)
    ensures PopStep(s, ConsumerStep(s))
  {
    hide ProducerTyped, StepCStart, StepCCheckTail, StepCRecheck, StepCNext, StepCNextTail, StepCMoveFront;
  }

  lemma EarlierPopStep<T>(s: State<T>)
    requires Typed(s) && !s.c.CRead? && !s.c.CAdvance? && !s.c.CCheckTailBlock? && !s.c.CLookNext?
    ensures ConsumerStep(s) == s || PopStep(s, ConsumerStep(s))
  {
    hide ProducerTyped, StepCRead, StepCAdvance, StepCCheckTailBlock, StepCLookNext;
  }

  // ------------------------------------------------------------------ whole runs

  // Counts of elements and of outcomes agree, and what the logs claim has been so.
  ghost predicate Witnessed<T>(s: State<T>, actions: seq<Action<T>>, now: State<T>)
    requires Typed(s)
  {
    && |now.accepted| == AcceptedIn(now.pushes) && |now.delivered| == DeliveredIn(now.pops)
    && PushesSaw(s, actions, now.pushes, now.p) && PopsSaw(s, actions, now.pops, now.c)
  }

  lemma PushWitnessed<T>(s: State<T>, actions: seq<Action<T>>, m: nat, now: State<T>, next: State<T>)
    requires Typed(s) && m < |actions| && Witnessed(s, actions[..m], now) && now == Run(s, actions[..m]) && PushStep(now, next)
    ensures Witnessed(s, actions, next)
  {
    hide PushMoment, PopMoment, Run;
    PushesSawLater(s, actions, m, now.pushes, now.p);
    PopsSawLater(s, actions, m, now.pops, now.c);
    if next.pushes == now.pushes {
      if next.p.PCheckRing? { PushNow(s, actions, m, next.p.present); }
    } else {
      AcceptedSnoc(now.pushes, next.pushes[|now.pushes|]);
    }
  }

  lemma PushNow<T>(s: State<T>, actions: seq<Action<T>>, m: nat, n: int)
    requires Typed(s) && m <= |actions|
    requires var now := Run(s, actions[..m]); !now.p.PIdle? && Stored(now) == n
    ensures PushMoment(s, actions, |Run(s, actions[..m]).pushes|, n)
  {
    hide Run;
    assert PushAt(Run(s, actions[..m]), |Run(s, actions[..m]).pushes|, n);
  }

  lemma PopNow<T>(s: State<T>, actions: seq<Action<T>>, m: nat)
    requires Typed(s) && m <= |actions|
    requires var now := Run(s, actions[..m]); !now.c.CIdle? && Stored(now) == 0
    ensures PopMoment(s, actions, |Run(s, actions[..m]).pops|)
  {
    hide Run;
    assert PopAt(Run(s, actions[..m]), |Run(s, actions[..m]).pops|);
  }

  lemma PopWitnessed<T>(s: State<T>, actions: seq<Action<T>>, m: nat, now: State<T>, next: State<T>)
    requires Typed(s) && m < |actions| && Witnessed(s, actions[..m], now) && now == Run(s, actions[..m]) && PopStep(now, next)
    ensures Witnessed(s, actions, next)
  {
    hide PushMoment, PopMoment, Run;
    PushesSawLater(s, actions, m, now.pushes, now.p);
    PopsSawLater(s, actions, m, now.pops, now.c);
    if next.pops == now.pops {
      if next.c.CCheckTailBlock? && next.c.wasEmpty { PopNow(s, actions, m); }
    } else {
      DeliveredSnoc(now.pops, next.pops[|now.pops|]);
    }
  }

  lemma CallWitnessed<T>(s: State<T>, actions: seq<Action<T>>, m: nat, now: State<T>, next: State<T>)
    requires Typed(s) && m < |actions| && Witnessed(s, actions[..m], now)
    requires next.pushes == now.pushes && next.pops == now.pops && next.accepted == now.accepted && next.delivered == now.delivered
    requires next.p == now.p || !next.p.PCheckRing?
    requires next.c == now.c || !next.c.CCheckTailBlock?
    ensures Witnessed(s, actions, next)
  {
    hide PushMoment, PopMoment, Run;
    PushesSawLater(s, actions, m, now.pushes, now.p);
    PopsSawLater(s, actions, m, now.pops, now.c);
  }

  lemma {:induction false} RunWitnessed<T>(s: State<T>, actions: seq<Action<T>>)
    requires Typed(s) && Fresh(s)
    ensures Witnessed(s, actions, Run(s, actions))
    decreases |actions|
  {
    hide Witnessed, PushStep, PopStep, ProducerStep, ConsumerStep, Typed;
    if actions == [] {
      NothingWitnessed(s);
    } else {
      var m := |actions| - 1;
      var a := actions[m];
      RunWitnessed(s, actions[..m]);
      var now := Run(s, actions[..m]);
      var next := Apply(now, a);
      match a {
        case ProducerRuns(allocOk) =>
          if now.p.PPublish? || now.p.PCheckRing? || now.p.PMove? || now.p.PAlloc? { LastPushStep(now, allocOk); } else { EarlierPushStep(now, allocOk); }
          if next == now { CallWitnessed(s, actions, m, now, next); } else { PushWitnessed(s, actions, m, now, next); }
        case ConsumerRuns =>
          if now.c.CRead? || now.c.CAdvance? || now.c.CCheckTailBlock? || now.c.CLookNext? { LastPopStep(now); } else { EarlierPopStep(now); }
          if next == now { CallWitnessed(s, actions, m, now, next); } else { PopWitnessed(s, actions, m, now, next); }
        case _ => CallWitnessed(s, actions, m, now, next);
      }
    }
  }

  lemma NothingWitnessed<T>(s: State<T>)
    requires Typed(s) && Fresh(s)
    ensures Witnessed(s, [], s)
  {
  }
}
