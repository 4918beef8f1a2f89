/** Calls are wait-free: each ends after a fixed number of its own steps, whatever the other thread does. */
module SpscProgress {
  import opened SpscBlocks
  import opened SpscQueue
  import opened SpscInvariant
  import opened SpscTheorems

  // The steps that a call needs at most from here on.
  function PushRank<T>(p: Producer<T>): nat {
    match p
    case PIdle => 0
    case PFailed => 0
    case PStart(_, _) => 7
    case PCheckFront(_, _, _, _) => 6
    case PCheckRing(_, _, _, _) => 5
    case PNextFront(_, _) => 4
    case PNextWrite(_, _, _) => 3
    case PAlloc(_, _) => 3
    case PNextTail(_, _, _) => 2
    case PLink(_, _, _) => 2
    case PWrite(_, _, _) => 2
    case PMove(_, _) => 1
    case PPublish(_, _, _) => 1
  }

  function PopRank<T>(c: Consumer<T>): nat {
    match c
    case CIdle => 0
    case CFailed => 0
    case CStart(_) => 9
    case CCheckTail(_, _, _) => 8
    case CCheckTailBlock(_, _, _) => 7
    case CRecheck(_) => 6
    case CNext(_, _) => 5
    case CNextTail(_, _) => 4
    case CMoveFront(_, _) => 3
    case CRead(_, _, _) => 2
    case CAdvance(_, _, _) => 1
    case CLookNext(_, _) => 1
  }

  // The call has ended, or it is nearer to its end by at least k steps.
  ghost predicate Pushing<T>(s: State<T>, s': State<T>, k: nat) {
    || |s'.pushes| > |s.pushes|
    || (|s'.pushes| == |s.pushes| && !s'.p.PIdle? && PushRank(s'.p) + k <= PushRank(s.p))
  }

  ghost predicate Popping<T>(s: State<T>, s': State<T>, k: nat) {
    || |s'.pops| > |s.pops|
    || (|s'.pops| == |s.pops| && !s'.c.CIdle? && PopRank(s'.c) + k <= PopRank(s.c))
  }

  lemma ProducerNearer<T>(s: State<T>, allocOk: bool)
    requires Typed(s) && !s.p.PFailed? && !ProducerStep(s, allocOk).p.PFailed?
    ensures var s' := ProducerStep(s, allocOk);
      |s'.pushes| >= |s.pushes| && s'.pops == s.pops && s'.c == s.c && (!s.p.PIdle? ==> Pushing(s, s', 1))
  {
    hide ConsumerTyped, BlocksTyped;
  }

  lemma ConsumerNearer<T>(s: State<T>)
    requires Typed(s) && !s.c.CFailed? && !ConsumerStep(s).c.CFailed?
    ensures var s' := ConsumerStep(s);
      |s'.pops| >= |s.pops| && s'.pushes == s.pushes && s'.p == s.p && (!s.c.CIdle? ==> Popping(s, s', 1))
  {
    hide ProducerTyped, BlocksTyped;
  }

  ghost function ProducerSteps<T>(actions: seq<Action<T>>): (n: nat) {
    if actions == [] then 0 else
    ProducerSteps(actions[..|actions| - 1]) + if actions[|actions| - 1].ProducerRuns? then 1 else 0
  }

  ghost function ConsumerSteps<T>(actions: seq<Action<T>>): (n: nat) {
    if actions == [] then 0 else
    ConsumerSteps(actions[..|actions| - 1]) + if actions[|actions| - 1].ConsumerRuns? then 1 else 0
  }

  lemma ApplyNearer<T>(s: State<T>, now: State<T>, a: Action<T>, i: nat, j: nat)
    requires Typed(now) && !now.p.PFailed? && !now.c.CFailed? && !Apply(now, a).p.PFailed? && !Apply(now, a).c.CFailed?
    requires Pushing(s, now, i) || s.p.PIdle?
    requires Popping(s, now, j) || s.c.CIdle?
    ensures Pushing(s, Apply(now, a), if a.ProducerRuns? then i + 1 else i) || s.p.PIdle?
    ensures Popping(s, Apply(now, a), if a.ConsumerRuns? then j + 1 else j) || s.c.CIdle?
  {
    hide Typed, ProducerStep, ConsumerStep, PushRank, PopRank;
    match a {
      case ProducerRuns(allocOk) => ProducerNearer(now, allocOk);
      case ConsumerRuns => ConsumerNearer(now);
      case _ =>
    }
  }

  lemma {:induction false} RunNearer<T>(s: State<T>, n: nat, size: nat, before: seq<Action<T>>, actions: seq<Action<T>>)
    requires Built(s, n, size)
    ensures Typed(s)
    ensures var (now, later) := (Run(s, before), Run(s, before + actions));
      && (Pushing(now, later, ProducerSteps(actions)) || now.p.PIdle?)
      && (Popping(now, later, ConsumerSteps(actions)) || now.c.CIdle?)
    decreases |actions|
  {
    hide Built, Inv, Apply, Typed, Pushing, Popping;
    BuiltOk(s, n, size);
    InvBasics(s, FirstRing(n), 0);
    if actions == [] {
      assert before + actions == before;
      Unmoved(Run(s, before));
    } else {
      var m := |actions| - 1;
      assert (before + actions)[..|before| + m] == before + actions[..m];
      RunNearer(s, n, size, before, actions[..m]);
      NeverFails(s, n, size, before + actions[..m]);
      NeverFails(s, n, size, before + actions);
      ApplyNearer(Run(s, before), Run(s, before + actions[..m]), actions[m], ProducerSteps(actions[..m]), ConsumerSteps(actions[..m]));
    }
  }

  lemma Unmoved<T>(s: State<T>)
    ensures (Pushing(s, s, 0) || s.p.PIdle?) && (Popping(s, s, 0) || s.c.CIdle?)
  {
  }

  lemma NeverFails<T>(s: State<T>, n: nat, size: nat, actions: seq<Action<T>>)
    requires Built(s, n, size)
    ensures Typed(s) && Typed(Run(s, actions)) && !Run(s, actions).p.PFailed? && !Run(s, actions).c.CFailed?
  {
    hide Built, Inv, Run;
    BuiltOk(s, n, size);
    InvBasics(s, FirstRing(n), 0);
    var ring, t := RunOk(s, actions, FirstRing(n), 0);
    InvNotFailed(Run(s, actions), ring, t);
  }

  // In every interleaving: an enqueue that is under way has ended after at most seven further steps of
  // the producer, a dequeue or peek after at most nine further steps of the consumer.
  lemma WaitFree<T>(s: State<T>, n: nat, size: nat, before: seq<Action<T>>, actions: seq<Action<T>>)
    requires Built(s, n, size)
    ensures Typed(s)
    ensures var (now, later) := (Run(s, before), Run(s, before + actions));
      && (!now.p.PIdle? && ProducerSteps(actions) >= 7 ==> |later.pushes| > |now.pushes|)
      && (!now.c.CIdle? && ConsumerSteps(actions) >= 9 ==> |later.pops| > |now.pops|)
  {
    hide Built, Run, ProducerSteps, ConsumerSteps;
    RunNearer(s, n, size, before, actions);
    NeverFails(s, n, size, before + actions);
  }
}
