/** The wait of the CPU side ends: the memory thread catches up after finitely many steps. */
module EpochWaiting {
  import opened EpochProtocol
  import opened EpochOrder
  import opened EpochProgress

  // The CPU side polls until the memory thread has caught up.
  ghost predicate Polling(s: State) { s.cpu == Waiting && s.memEpoch + EPOCHS <= s.cpuEpoch }

  // A pop takes a first request if there is any: no other is of an earlier epoch, or of the same epoch
  // with an earlier time stamp.
  ghost predicate Proper(queue: multiset<Req>, choice: Req) {
    || queue == multiset{}
    || (choice in queue && forall r :: r in queue ==> choice.epoch < r.epoch || (choice.epoch == r.epoch && choice.time <= r.time))
  }

  lemma ProperPops(queue: multiset<Req>, choice: Req)
    requires Proper(queue, choice)
    ensures IsEmpty(queue) || IsFirst(choice, queue)
  {
  }

  // There is always a request to take.
  lemma {:induction false} ProperExists(queue: multiset<Req>) returns (choice: Req)
    ensures Proper(queue, choice)
    decreases |queue|
  {
    hide Proper;
    if queue == multiset{} {
      choice := Req(SesamCommand, 0, 0, 0, 0);
      ProperNone(choice);
    } else {
      var k :| k in queue;
      var rest := queue - multiset{k};
      assert queue == rest + multiset{k};
      choice := ProperExists(rest);
      if !Proper(queue, choice) {
        ProperMore(rest, k, choice);
        choice := k;
      }
    }
  }

  lemma ProperNone(choice: Req)
    ensures Proper(multiset{}, choice)
  {
  }

  lemma ProperMore(rest: multiset<Req>, k: Req, c: Req)
    requires Proper(rest, c)
    ensures Proper(rest + multiset{k}, c) || Proper(rest + multiset{k}, k)
  {
    assert forall r :: r in rest + multiset{k} <==> r in rest || r == k;
  }

  // How far the memory thread is from its next change of epoch, apart from the requests to handle.
  function Rank(mem: MemPc): nat {
    match mem
    case Release(_, exitLoop) => if exitLoop then 9 else 3
    case Top => 8
    case WaitCpu(_) => 7
    case FirstPop(_) => 6
    case NextPop(_) => 6
    case Test(_, _) => 5
    case TakeLock(_, _) => 4
    case Handle(_, _) => 3
    case SkipTo(_) => 2
    case LeaveTo(_, _) => 2
    case Bump(_) => 1
  }

  // The requests that are queued or in the hand of the memory thread.
  function Load(queue: multiset<Req>, mem: MemPc): nat { |queue| + if mem.Test? || mem.TakeLock? || mem.Handle? then 1 else 0 }

  lemma LoadIsPending(s: State)
    ensures Load(s.queue, s.mem) == |Pending(s)|
  {
    var h := InHand(s.mem);
    assert |s.queue + h| == |s.queue| + |h|;
  }

  lemma PutBackSize(queue: multiset<Req>, k: Req)
    ensures |queue + multiset{k}| == |queue| + 1
  {
  }

  lemma PopSize(queue: multiset<Req>, k: Req)
    requires IsFirst(k, queue)
    ensures |Without(queue, k)| + 1 == |queue|
  {
    assert Without(queue, k) + multiset{k} == queue;
  }

  function Epochs(gap: int, most: nat): int { 10 * (most + 1) * gap }

  // The steps the memory thread may still need, with at most `most` requests pending.
  ghost function Steps(s: State, most: nat): int {
    Rank(s.mem) + 10 * Load(s.queue, s.mem) + Epochs(s.cpuEpoch - s.memEpoch, most)
  }

  lemma FewerEpochs(gap: int, gap': int, most: nat)
    requires gap' < gap
    ensures Epochs(gap', most) + 10 <= Epochs(gap, most)
  {
    assert Epochs(gap, most) - Epochs(gap', most) == 10 * (most + 1) * (gap - gap');
    assert (most + 1) * (gap - gap') >= 1;
  }

  lemma StepsNonNegative(s: State, most: nat)
    requires OrderInv(s)
    ensures Steps(s, most) >= 0
  {
    hide Ledger, MemOk, Load, Epochs;
    EpochsInOrder(s);
    EpochsNonNegative(s.cpuEpoch - s.memEpoch, most);
  }

  lemma EpochsInOrder(s: State)
    requires OrderInv(s)
    ensures s.memEpoch <= s.cpuEpoch
  {
    hide MemOk;
  }

  lemma EpochsNonNegative(gap: nat, most: nat)
    ensures Epochs(gap, most) >= 0
  {
  }

  // What a step of the memory thread does to the pending requests and the epoch.
  ghost predicate Nearer(s: State, s': State) {
    && s'.cpu == s.cpu && s'.cpuEpoch == s.cpuEpoch && Load(s'.queue, s'.mem) <= Load(s.queue, s.mem)
    && if s'.memEpoch > s.memEpoch then true
       else s'.memEpoch == s.memEpoch && (Load(s'.queue, s'.mem) < Load(s.queue, s.mem) || Rank(s'.mem) < Rank(s.mem))
  }

  lemma PopNearer(s: State, choice: Req)
    requires Proper(s.queue, choice)
    ensures s.mem.FirstPop? ==> Nearer(s, StepFirstPop(s, choice, IsFirst(choice, s.queue)))
    ensures s.mem.NextPop? ==> Nearer(s, StepNextPop(s, choice, IsFirst(choice, s.queue)))
  {
    hide IsFirst, Without, Proper;
    ProperPops(s.queue, choice);
    if IsFirst(choice, s.queue) { PopSize(s.queue, choice); }
  }

  lemma HandleNearer(s: State, delay: nat)
    requires s.mem.Handle?
    ensures Nearer(s, StepHandle(s, delay))
  {
    hide SlotOf, Time;
    PutBackSize(s.queue, s.mem.k);
  }

  // A polling CPU holds no mutex, and the memory thread none it does not know of.
  lemma LockIsFree(s: State)
    requires LockInv(s) && s.mem.TakeLock? && s.cpu == Waiting
    ensures LockOf(s.locks, SlotOf(s.mem.tmp)) == Free
  {
    assert LockAt(s, SlotOf(s.mem.tmp));
  }

  lemma TestNearer(s: State, choice: Req, delay: nat)
    requires s.mem.Test?
    ensures Nearer(s, StepMem(s, choice, delay))
  {
    hide StepFirstPop, StepNextPop, StepHandle, IsFirst, SlotOf;
    PutBackSize(s.queue, s.mem.k);
  }

  lemma LockNearer(s: State, choice: Req, delay: nat)
    requires LockInv(s) && s.cpu == Waiting && (s.mem.TakeLock? || s.mem.Release?)
    ensures Nearer(s, StepMem(s, choice, delay))
  {
    hide StepFirstPop, StepNextPop, StepHandle, IsFirst, SlotOf, LockInv;
    if s.mem.TakeLock? { LockIsFree(s); }
  }

  lemma EpochNearer(s: State, choice: Req, delay: nat)
    requires MemOk(s.mem, s.queue, s.memEpoch, s.cpuEpoch)
    requires s.mem.Top? || s.mem.WaitCpu? || s.mem.SkipTo? || s.mem.LeaveTo? || s.mem.Bump?
    requires s.memEpoch < s.cpuEpoch
    ensures Nearer(s, StepMem(s, choice, delay))
  {
    hide StepFirstPop, StepNextPop, StepHandle, IsFirst, SlotOf, NoneBelow, NoneBefore;
  }

  lemma MemNearer(s: State, choice: Req, delay: nat)
    requires MemOk(s.mem, s.queue, s.memEpoch, s.cpuEpoch) && LockInv(s) && Polling(s) && Proper(s.queue, choice)
    ensures Nearer(s, StepMem(s, choice, delay))
  {
    hide Nearer, StepFirstPop, StepNextPop, StepHandle, IsFirst, SlotOf, LockInv, MemOk, Proper;
    match s.mem {
      case FirstPop(_) => PopNearer(s, choice);
      case NextPop(_) => PopNearer(s, choice);
      case Handle(_, _) => HandleNearer(s, delay);
      case TakeLock(_, _) => LockNearer(s, choice, delay);
      case Release(_, _) => LockNearer(s, choice, delay);
      case Test(_, _) => TestNearer(s, choice, delay);
      case _ => EpochNearer(s, choice, delay);
    }
  }

  lemma NearerDescends(s: State, s': State, most: nat)
    requires Nearer(s, s') && Load(s.queue, s.mem) <= most
    ensures Steps(s', most) < Steps(s, most)
  {
    hide Epochs, Load;
    if s'.memEpoch > s.memEpoch { FewerEpochs(s.cpuEpoch - s.memEpoch, s'.cpuEpoch - s'.memEpoch, most); }
  }

  // Nobody else does anything while the CPU side polls.
  lemma OthersIdle(s: State, a: Action)
    requires Polling(s) && !a.MemRuns?
    ensures Apply(s, a) == s
  {
    hide StepMem;
  }

  lemma ApplyKeepsLocks(s: State, a: Action)
    requires LockInv(s)
    ensures LockInv(Apply(s, a))
  {
    hide LockInv, StepMem, StepCpu, StepFillBiases, StepNotify;
    match a {
      case FillBiases => CpuKeepsLocks(s);
      case CpuRuns => CpuKeepsLocks(s);
      case MemRuns(choice, delay) => MemKeepsLocks(s, choice, delay);
      case _ => OtherKeepsLocks(s, a);
    }
  }

  ghost function MemSteps(actions: seq<Action>): (n: nat) {
    if actions == [] then 0 else
    MemSteps(actions[..|actions| - 1]) + if actions[|actions| - 1].MemRuns? then 1 else 0
  }

  // The CPU side polls before every action, and pops are proper.
  ghost predicate PollsThroughout(s: State, actions: seq<Action>) {
    forall k :: 0 <= k < |actions| ==> PollsAt(s, actions, k)
  }

  ghost predicate PollsAt(s: State, actions: seq<Action>, k: nat)
    requires k < |actions|
  {
    var now := Run(s, actions[..k]);
    Polling(now) && (actions[k].MemRuns? ==> Proper(now.queue, actions[k].choice))
  }

  lemma {:induction false} PollingCosts(s: State, actions: seq<Action>, most: nat)
    requires OrderInv(s) && LockInv(s) && Load(s.queue, s.mem) <= most && PollsThroughout(s, actions)
    ensures var s' := Run(s, actions);
      OrderInv(s') && LockInv(s') && Load(s'.queue, s'.mem) <= most && MemSteps(actions) + Steps(s', most) <= Steps(s, most)
    decreases |actions|
  {
    hide OrderInv, LockInv, Apply, Steps, Load, Polling, Proper;
    if actions != [] {
      var m := |actions| - 1;
      var (front, a) := (actions[..m], actions[m]);
      assert PollsThroughout(s, front) by { forall k | 0 <= k < m ensures PollsAt(s, front, k) { assert front[..k] == actions[..k] && PollsAt(s, actions, k); } }
      PollingCosts(s, front, most);
      assert PollsAt(s, actions, m);
      OneMoreStep(Run(s, front), a, most);
    }
  }

  lemma OneMoreStep(s: State, a: Action, most: nat)
    requires OrderInv(s) && LockInv(s) && Load(s.queue, s.mem) <= most && Polling(s) && (a.MemRuns? ==> Proper(s.queue, a.choice))
    ensures var s' := Apply(s, a);
      && OrderInv(s') && LockInv(s') && Load(s'.queue, s'.mem) <= most
      && Steps(s', most) + (if a.MemRuns? then 1 else 0) <= Steps(s, most)
  {
    hide LockInv, StepMem, Ledger, MemOk, Steps, Load, Proper, Polling;
    ApplyKeepsOrder(s, a);
    ApplyKeepsLocks(s, a);
    if a.MemRuns? {
      MemNearer(s, a.choice, a.delay);
      NearerDescends(s, Apply(s, a), most);
    } else {
      OthersIdle(s, a);
    }
  }

  // From any reachable state, however the threads are interleaved: the memory thread takes at most
  // Steps(s) steps before the CPU side may leave its wait.
  lemma WaitEnds(cpus: nat, notify: bool, before: seq<Action>, actions: seq<Action>)
    ensures var s := Run(Init(cpus, notify), before);
      PollsThroughout(s, actions) ==> MemSteps(actions) <= Steps(s, |Pending(s)|)
  {
    hide Run, OrderInv, LockInv, Steps, Load, PollsThroughout;
    RunKeepsOrder(cpus, notify, before);
    RunKeepsLocks(cpus, notify, before);
    var s := Run(Init(cpus, notify), before);
    LoadIsPending(s);
    if PollsThroughout(s, actions) {
      PollingCosts(s, actions, Load(s.queue, s.mem));
      StepsNonNegative(Run(s, actions), Load(s.queue, s.mem));
    }
  }

  lemma NearerMoves(s: State, s': State)
    requires Nearer(s, s')
    ensures s' != s
  {
  }

  // A CPU side that cannot move polls, or its mutex is in the hands of the memory thread.
  lemma StuckMeans(s: State)
    requires LockInv(s) && s.cpu != Running && StepCpu(s) == s
    ensures Polling(s) || s.mem.Handle? || s.mem.NextPop? || s.mem.LeaveTo? || s.mem.Release?
  {
    hide SlotOf, Times, Drained;
    assert LockAt(s, SlotOf(s.cpuEpoch));
  }

  lemma HolderMoves(s: State, choice: Req, delay: nat)
    requires Proper(s.queue, choice) && (s.mem.Handle? || s.mem.NextPop? || s.mem.LeaveTo? || s.mem.Release?)
    ensures StepMem(s, choice, delay) != s
  {
    hide Nearer, StepFirstPop, StepNextPop, StepHandle, IsFirst, SlotOf, Proper;
    match s.mem {
      case Handle(_, _) => HandleNearer(s, delay); NearerMoves(s, StepHandle(s, delay));
      case NextPop(_) => PopNearer(s, choice); NearerMoves(s, StepMem(s, choice, delay));
      case _ =>
    }
  }

  // In no reachable state are both threads stuck: if FillBiases cannot go on, the next step of the
  // memory thread changes the state, whichever first request it takes.
  lemma AlwaysMoves(cpus: nat, notify: bool, actions: seq<Action>, choice: Req, delay: nat)
    ensures var s := Run(Init(cpus, notify), actions);
      s.cpu != Running && StepCpu(s) == s && Proper(s.queue, choice) ==> StepMem(s, choice, delay) != s
  {
    hide Run, Nearer, StepCpu, StepMem, LockInv, MemOk, Ledger, Proper, Polling;
    RunKeepsOrder(cpus, notify, actions);
    RunKeepsLocks(cpus, notify, actions);
    var s := Run(Init(cpus, notify), actions);
    if s.cpu != Running && StepCpu(s) == s && Proper(s.queue, choice) {
      StuckMeans(s);
      if Polling(s) {
        MemNearer(s, choice, delay);
        NearerMoves(s, StepMem(s, choice, delay));
      } else {
        HolderMoves(s, choice, delay);
      }
    }
  }
}
