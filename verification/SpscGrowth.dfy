/** How the queue grows: only when it was full, by blocks of doubling size up to the largest one. */
module SpscGrowth {
  import opened SpscBlocks
  import opened SpscQueue
  import opened SpscCalls
  import opened SpscMoments
  import opened SpscInvariant
  import opened SpscProofs
  import opened SpscTheorems
  import opened SpscConstructor

  // ------------------------------------------------------------------ sizes

  // How often a size doubles until it reaches max.
  ghost function Doublings(size: nat, max: nat): (m: nat)
    requires size > 0
    decreases max - size
  {
    if size >= max then 0 else 1 + Doublings(2 * size, max)
  }

  // The size of the j-th block that is allocated, counted from 1.
  ghost function SizeAfter(size: nat, max: nat, j: nat): nat
    requires size > 0
  {
    var m := Doublings(size, max);
    size * Pow2(if j < m then j else m)
  }

  lemma TwiceAndHalf(size: nat, k: nat)
    requires k > 0
    ensures 2 * size * Pow2(k - 1) == size * Pow2(k)
  {
    var p := Pow2(k - 1);
    assert Pow2(k) == 2 * p;
    assert 2 * size * p == size * (2 * p);
  }

  // Doubling stops at the first size that is not below max.
  lemma {:induction false} DoublingsLeast(size: nat, max: nat, j: nat)
    requires size > 0
    ensures j < Doublings(size, max) ==> size * Pow2(j) < max
    ensures size * Pow2(Doublings(size, max)) >= max
    decreases max - size
  {
    if size < max {
      DoublingsLeast(2 * size, max, if j > 0 then j - 1 else 0);
      if j > 0 { TwiceAndHalf(size, j); }
      TwiceAndHalf(size, Doublings(size, max));
    }
  }

  lemma SizeNext(size: nat, max: nat, j: nat)
    requires size > 0
    ensures SizeAfter(size, max, 0) == size
    ensures var now := SizeAfter(size, max, j); SizeAfter(size, max, j + 1) == if now < max then 2 * now else now
  {
    hide Doublings;
    DoublingsLeast(size, max, j);
    TwiceAndHalf(size, j + 1);
  }

  // Blocks keep their size; a new one is twice as large as the last, unless that has reached max.
  ghost predicate Grows<T>(s: State<T>, s': State<T>) {
    && s'.maxBlock == s.maxBlock && |s.blocks| <= |s'.blocks| <= |s.blocks| + 1
    && (forall i :: 0 <= i < |s.blocks| ==> s'.blocks[i].size == s.blocks[i].size)
    && if |s'.blocks| == |s.blocks| then s'.largest == s.largest
       else s.p.PAlloc? && s'.blocks[|s.blocks|].size == s'.largest == if s.largest < s.maxBlock then 2 * s.largest else s.largest
  }

  lemma AllocGrows<T>(s: State<T>, allocOk: bool)
    requires Typed(s) && s.p.PAlloc?
    ensures Grows(s, StepPAlloc(s, allocOk))
  {
    hide ConsumerTyped, BlocksTyped;
  }

  lemma InsideBlockGrows<T>(s: State<T>, allocOk: bool)
    requires Typed(s) && (s.p.PStart? || s.p.PCheckFront? || s.p.PWrite? || s.p.PPublish? || s.p.PCheckRing?)
    ensures Grows(s, ProducerStep(s, allocOk))
  {
    hide ConsumerTyped, BlocksTyped, Inc, StepPNextFront, StepPNextWrite, StepPNextTail, StepPMove, StepPAlloc, StepPLink;
  }

  lemma NextBlockGrows<T>(s: State<T>, allocOk: bool)
    requires Typed(s) && (s.p.PNextFront? || s.p.PNextWrite? || s.p.PNextTail? || s.p.PMove? || s.p.PLink?)
    ensures Grows(s, ProducerStep(s, allocOk))
  {
    hide ConsumerTyped, BlocksTyped, Inc, StepPStart, StepPCheckFront, StepPWrite, StepPPublish, StepPCheckRing, StepPAlloc;
  }

  lemma ProducerGrows<T>(s: State<T>, allocOk: bool)
    requires Typed(s)
    ensures Grows(s, ProducerStep(s, allocOk))
  {
    hide Typed, StepPStart, StepPCheckFront, StepPWrite, StepPPublish, StepPCheckRing, StepPNextFront, StepPNextWrite, StepPNextTail, StepPMove, StepPAlloc, StepPLink;
    if s.p.PAlloc? {
      AllocGrows(s, allocOk);
    } else if s.p.PStart? || s.p.PCheckFront? || s.p.PWrite? || s.p.PPublish? || s.p.PCheckRing? {
      InsideBlockGrows(s, allocOk);
    } else if !s.p.PIdle? && !s.p.PFailed? {
      NextBlockGrows(s, allocOk);
    }
  }

  lemma ConsumerGrows<T>(s: State<T>)
    requires Typed(s)
    ensures Grows(s, ConsumerStep(s))
  {
    hide ProducerTyped;
  }

  lemma ApplyGrows<T>(s: State<T>, a: Action<T>)
    requires Typed(s)
    ensures Grows(s, Apply(s, a))
  {
    hide Typed, ProducerStep, ConsumerStep;
    match a {
      case ProducerRuns(allocOk) => ProducerGrows(s, allocOk);
      case ConsumerRuns => ConsumerGrows(s);
      case _ =>
    }
  }

  // The first n blocks are of the given size, the others double.
  ghost predicate Sized<T>(s: State<T>, n: nat, size: nat, max: nat)
    requires size > 0
  {
    && s.maxBlock == max && |s.blocks| >= n && s.largest == SizeAfter(size, max, |s.blocks| - n)
    && forall k :: 0 <= k < |s.blocks| ==> s.blocks[k].size == if k < n then size else SizeAfter(size, max, k + 1 - n)
  }

  lemma GrowsSized<T>(s: State<T>, s': State<T>, n: nat, size: nat, max: nat)
    requires size > 0 && Sized(s, n, size, max) && Grows(s, s')
    ensures Sized(s', n, size, max)
  {
    hide SizeAfter;
    SizeNext(size, max, |s.blocks| - n);
  }

  lemma BuiltSized<T>(s: State<T>, n: nat, size: nat)
    requires Built(s, n, size)
    ensures Sized(s, n, size, s.maxBlock)
  {
    hide SizeAfter;
    SizeNext(size, s.maxBlock, 0);
  }

  // Over every run: the k-th further block is 2^k times as large as the first ones, until that reaches
  // the largest block size.
  lemma {:induction false} BlocksDouble<T>(s: State<T>, n: nat, size: nat, actions: seq<Action<T>>)
    requires Built(s, n, size)
    ensures Typed(s) && Sized(Run(s, actions), n, size, s.maxBlock)
    decreases |actions|
  {
    BuiltSized(s, n, size);
    hide Inv, Apply, Sized, Grows, Typed;
    BuiltOk(s, n, size);
    InvBasics(s, FirstRing(n), 0);
    if actions != [] {
      var front := actions[..|actions| - 1];
      BlocksDouble(s, n, size, front);
      ApplyGrows(Run(s, front), actions[|actions| - 1]);
      GrowsSized(Run(s, front), Run(s, actions), n, size, s.maxBlock);
    }
  }

  // ------------------------------------------------------------------ allocation

  // During the i-th enqueue as many elements are stored at some moment as fit into all blocks of the
  // ring but the front one, or into the only one.
  ghost predicate FullMoment<T>(s: State<T>, actions: seq<Action<T>>, i: nat)
    requires Typed(s)
  {
    exists k, ring, n :: 0 <= k <= |actions| && FullAt(Run(s, actions[..k]), i, ring, n) && PushMoment(s, actions, i, n)
  }

  ghost predicate FullAt<T>(now: State<T>, i: nat, ring: seq<nat>, n: int) {
    |now.pushes| == i && !now.p.PIdle? &&
    BlocksTyped(now.blocks) && RingOk(now.blocks, ring) && ring[0] == now.frontBlock && n >= Capacity(now.blocks, ring)
  }

  lemma LaterFull<T>(s: State<T>, actions: seq<Action<T>>, m: nat, i: nat)
    requires Typed(s) && m <= |actions| && FullMoment(s, actions[..m], i)
    ensures FullMoment(s, actions, i)
  {
    hide Run, FullAt, PushMoment, Typed;
    var k, ring, n :| 0 <= k <= m && FullAt(Run(s, actions[..m][..k]), i, ring, n) && PushMoment(s, actions[..m], i, n);
    assert actions[..m][..k] == actions[..k];
    LaterPush(s, actions, m, i, n);
  }

  // Allocation is decided by the ring check, and only if no free block is ahead.
  lemma OnlyRingAllocates<T>(s: State<T>, allocOk: bool)
    requires Typed(s) && ProducerStep(s, allocOk).p.PAlloc?
    ensures s.p.PCheckRing? && s.blocks[s.p.block].next == s.frontBlock && ProducerStep(s, allocOk).pushes == s.pushes
  {
    hide ConsumerTyped, BlocksTyped;
  }

  lemma RingCheckFull<T>(s: State<T>, ring: seq<nat>, t: nat)
    requires Inv(s, ring, t) && s.p.PCheckRing? && s.blocks[s.p.block].next == s.frontBlock
    ensures FullAt(s, |s.pushes|, ring, s.p.present)
  {
    hide Queue, LogsOk, ConsumerOk, ShadowsOk, ArcOk, Contents, Capacity;
    RefusedMeansFull(s, ring, t);
  }

  lemma AllocatingNow<T>(s: State<T>, n: nat, size: nat, actions: seq<Action<T>>, m: nat, allocOk: bool)
    requires Built(s, n, size) && m < |actions|
    requires Typed(s) && var now := Run(s, actions[..m]); ProducerStep(now, allocOk).p.PAlloc?
    ensures FullMoment(s, actions, |Run(s, actions[..m]).pushes|)
  {
    hide Built, Inv, Run, ProducerStep, FullAt, PushMoment, Typed;
    BuiltOk(s, n, size);
    BuiltFresh(s, n, size);
    var now := Run(s, actions[..m]);
    OnlyRingAllocates(now, allocOk);
    var ring, t := RunOk(s, actions[..m], FirstRing(n), 0);
    InvBasics(now, ring, t);
    RingCheckFull(now, ring, t);
    RunWitnessed(s, actions[..m]);
    LaterPush(s, actions, m, |now.pushes|, now.p.present);
  }

  // Over every run: an enqueue that goes for a new block saw the queue full.
  lemma {:induction false} AllocationMeansFull<T>(s: State<T>, n: nat, size: nat, actions: seq<Action<T>>)
    requires Built(s, n, size)
    ensures Typed(s)
    ensures var now := Run(s, actions); now.p.PAlloc? ==> FullMoment(s, actions, |now.pushes|)
    decreases |actions|
  {
    hide Built, Inv, ProducerStep, ConsumerStep, FullMoment, Typed;
    BuiltOk(s, n, size);
    BuiltFresh(s, n, size);
    InvBasics(s, FirstRing(n), 0);
    if actions != [] && Run(s, actions).p.PAlloc? {
      var m := |actions| - 1;
      var now := Run(s, actions[..m]);
      AllocationMeansFull(s, n, size, actions[..m]);
      match actions[m] {
        case ProducerRuns(allocOk) =>
          OnlyRingAllocates(now, allocOk);
          AllocatingNow(s, n, size, actions, m, allocOk);
        case ConsumerRuns =>
          ConsumerOnly(now);
          LaterFull(s, actions, m, |now.pushes|);
        case _ => LaterFull(s, actions, m, |now.pushes|);
      }
    }
  }

  // The action that adds a block belongs to such an enqueue.
  lemma NewBlockMeansFull<T>(s: State<T>, n: nat, size: nat, actions: seq<Action<T>>, a: Action<T>)
    requires Built(s, n, size)
    ensures Typed(s)
    ensures var now := Run(s, actions); |Apply(now, a).blocks| > |now.blocks| ==> FullMoment(s, actions, |now.pushes|)
  {
    hide Built, Run, Apply, FullMoment, Typed;
    AllocationMeansFull(s, n, size, actions);
    ApplyGrows(Run(s, actions), a);
  }
}
