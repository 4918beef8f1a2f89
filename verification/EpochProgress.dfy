/** The two waits and the two mutexes never block both threads at once. */
module EpochProgress {
  import opened EpochProtocol
  import opened EpochOrder

  predicate MemHolds(mem: MemPc, slot: nat) {
    match mem
    case Handle(tmp, _) => slot == SlotOf(tmp)
    case NextPop(tmp) => slot == SlotOf(tmp)
    case LeaveTo(tmp, _) => slot == SlotOf(tmp)
    case Release(tmp, _) => slot == SlotOf(tmp)
    case _ => false
  }

  predicate CpuHolds(s: State, slot: nat) {
    (s.cpu == Draining || s.cpu == Unlocking) && slot == SlotOf(s.cpuEpoch)
  }

  // A mutex belongs to the thread whose program counter is inside its critical section.
  ghost predicate LockAt(s: State, p: nat) {
    && (LockOf(s.locks, p) == ByMem <==> MemHolds(s.mem, p))
    && (LockOf(s.locks, p) == ByCpu <==> CpuHolds(s, p))
  }

  ghost predicate LockInv(s: State) {
    forall p :: LockAt(s, p)
  }

  predicate CpuBlocked(s: State) {
    || (s.cpu == Waiting && s.memEpoch + EPOCHS <= s.cpuEpoch)
    || (s.cpu == Locking && LockOf(s.locks, SlotOf(s.cpuEpoch)) != Free)
  }

  predicate MemBlocked(s: State) {
    || (s.mem.WaitCpu? && s.mem.tmp >= s.cpuEpoch)
    || (s.mem.TakeLock? && LockOf(s.locks, SlotOf(s.mem.tmp)) != Free)
  }

  lemma CpuKeepsLock(s: State, p: nat)
    requires LockAt(s, p)
    ensures LockAt(StepCpu(s), p) && LockAt(StepFillBiases(s), p)
  {
    hide MemHolds, SlotOf, Times, Drained;
  }

  lemma CpuKeepsLocks(s: State)
    requires LockInv(s)
    ensures LockInv(StepCpu(s)) && LockInv(StepFillBiases(s))
  {
    hide LockAt, StepCpu, StepFillBiases;
    forall p ensures LockAt(StepCpu(s), p) && LockAt(StepFillBiases(s), p) {
      assert LockAt(s, p);
      CpuKeepsLock(s, p);
    }
  }

  lemma PopKeepsLock(s: State, choice: Req, popped: bool, p: nat)
    requires LockAt(s, p)
    ensures s.mem.FirstPop? ==> LockAt(StepFirstPop(s, choice, popped), p)
    ensures s.mem.NextPop? ==> LockAt(StepNextPop(s, choice, popped), p)
  {
    hide Without, IsEmpty, SlotOf;
  }

  lemma HandleKeepsLock(s: State, delay: nat, p: nat)
    requires LockAt(s, p) && s.mem.Handle?
    ensures LockAt(StepHandle(s, delay), p)
  {
    hide SlotOf;
  }

  lemma MemKeepsLock(s: State, choice: Req, delay: nat, p: nat)
    requires LockAt(s, p)
    ensures LockAt(StepMem(s, choice, delay), p)
  {
    hide StepFirstPop, StepNextPop, StepHandle, IsFirst, SlotOf;
    match s.mem {
      case FirstPop(_) => PopKeepsLock(s, choice, IsFirst(choice, s.queue), p);
      case NextPop(_) => PopKeepsLock(s, choice, IsFirst(choice, s.queue), p);
      case Handle(_, _) => HandleKeepsLock(s, delay, p);
      case _ =>
    }
  }

  lemma MemKeepsLocks(s: State, choice: Req, delay: nat)
    requires LockInv(s)
    ensures LockInv(StepMem(s, choice, delay))
  {
    hide LockAt, StepMem;
    forall p ensures LockAt(StepMem(s, choice, delay), p) {
      assert LockAt(s, p);
      MemKeepsLock(s, choice, delay, p);
    }
  }

  lemma OtherKeepsLocks(s: State, a: Action)
    requires LockInv(s) && (a.Notify? || a.SetNotify?)
    ensures LockInv(Apply(s, a))
  {
    hide SlotOf, MemHolds;
    forall p ensures LockAt(Apply(s, a), p) { assert LockAt(s, p); }
  }

  lemma {:induction false} RunKeepsLocks(cpus: nat, notify: bool, actions: seq<Action>)
    ensures LockInv(Run(Init(cpus, notify), actions))
    decreases |actions|
  {
    hide LockInv, StepMem, StepCpu, StepFillBiases, StepNotify;
    if actions == [] {
      InitLocks(cpus, notify);
    } else {
      var s := Run(Init(cpus, notify), actions[..|actions| - 1]);
      RunKeepsLocks(cpus, notify, actions[..|actions| - 1]);
      match actions[|actions| - 1] {
        case FillBiases => CpuKeepsLocks(s);
        case CpuRuns => CpuKeepsLocks(s);
        case MemRuns(choice, delay) => MemKeepsLocks(s, choice, delay);
        case a => OtherKeepsLocks(s, a);
      }
    }
  }

  lemma InitLocks(cpus: nat, notify: bool)
    ensures LockInv(Init(cpus, notify))
  {
    hide SlotOf;
  }

  lemma NoDeadlock(cpus: nat, notify: bool, actions: seq<Action>)
    ensures var s := Run(Init(cpus, notify), actions); !(CpuBlocked(s) && MemBlocked(s))
  {
    hide SlotOf, Ledger, Run;
    RunKeepsOrder(cpus, notify, actions);
    RunKeepsLocks(cpus, notify, actions);
    var s := Run(Init(cpus, notify), actions);
    assert LockAt(s, SlotOf(s.cpuEpoch));
    assert s.mem.TakeLock? ==> LockAt(s, SlotOf(s.mem.tmp));
  }
}
