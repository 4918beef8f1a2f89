/**
 The epoch protocol between the CPU side and the memory thread (MainMemCosim).

 Two threads share a priority queue of requests, the counters _CpuEpoch and _MemEpoch, one
 mutex per delay slot and EPOCHS = 2 delay slots per CPU.  A run is any sequence of `Action`s;
 every access to a shared variable is a step of its own.  The order among requests with equal
 epoch and time stamp, and the delay that a request causes, are chosen by the action.
 */
module EpochProtocol {

  const EPOCHS: nat := 2

  datatype NotifyType = CpuAccess | DeviceAccess | SesamCommand

  datatype Req = Req(kind: NotifyType, id: nat, epoch: nat, time: nat, tag: nat)

  datatype Owner = Free | ByCpu | ByMem

  // FillBiases: ++_CpuEpoch, wait, lock, drain, unlock
  datatype CpuPc = Running | Waiting | Locking | Draining | Unlocking

  // Run: the program counter and the locals tmpMemEpoch, k and exitLoop
  datatype MemPc =
    | Top
    | WaitCpu(tmp: nat)
    | FirstPop(tmp: nat)
    | Test(tmp: nat, k: Req)
    | SkipTo(k: Req)
    | TakeLock(tmp: nat, k: Req)
    | Handle(tmp: nat, k: Req)
    | NextPop(tmp: nat)
    | LeaveTo(tmp: nat, k: Req)
    | Release(tmp: nat, exitLoop: bool)
    | Bump(tmp: nat)

  // A delay that the handling of a request of some epoch added for some CPU
  datatype Delay = Delay(epoch: nat, cpu: nat, amount: nat)

  datatype State = State(
    cpuEpoch: nat,
    memEpoch: nat,
    queue: multiset<Req>,
    notify: bool,                      // Notify != haltNotify
    slots: map<(nat, nat), nat>,       // mTimes[cpu][slot]; absent means zero
    locks: map<nat, Owner>,            // _Mut[slot]; absent means free
    cpus: nat,
    cpu: CpuPc,
    mem: MemPc,
    pushed: seq<Req>,
    handled: seq<Req>,
    delays: seq<Delay>,
    biases: seq<seq<nat>>)             // what each call of FillBiases reported, per CPU

  datatype Action =
    | Notify(kind: NotifyType, id: nat, time: nat, tag: nat)
    | SetNotify(on: bool)
    | FillBiases
    | CpuRuns
    | MemRuns(choice: Req, delay: nat)

  function Init(cpus: nat, notify: bool): (s: State) {
    State(0, 0, multiset{}, notify, map[], map[], cpus, Running, Top, [], [], [], [])
  }

  function SlotOf(epoch: nat): (p: nat) { epoch % EPOCHS }

  function Time(slots: map<(nat, nat), nat>, cpu: nat, slot: nat): nat {
    if (cpu, slot) in slots then slots[(cpu, slot)] else 0
  }

  function LockOf(locks: map<nat, Owner>, slot: nat): Owner {
    if slot in locks then locks[slot] else Free
  }

  // The times of all CPUs in one slot.
  function Times(slots: map<(nat, nat), nat>, cpus: nat, slot: nat): (ts: seq<nat>) {
    seq(cpus, i requires 0 <= i < cpus => Time(slots, i, slot))
  }

  function Drained(slots: map<(nat, nat), nat>, cpus: nat, slot: nat): map<(nat, nat), nat> {
    map k | k in slots && !(k.0 < cpus && k.1 == slot) :: slots[k]
  }

  // compare_Req: a is to be popped strictly before b.
  predicate Before(a: Req, b: Req) {
    a.epoch < b.epoch || (a.epoch == b.epoch && a.time < b.time)
  }

  ghost predicate IsFirst(k: Req, queue: multiset<Req>) {
    k in queue && forall r :: r in queue ==> !Before(r, k)
  }

  predicate IsEmpty(queue: multiset<Req>) { queue == multiset{} }

  function Without(queue: multiset<Req>, k: Req): multiset<Req> { queue - multiset{k} }

  // ------------------------------------------------------------------ the CPU side

  function StepNotify(s: State, kind: NotifyType, id: nat, time: nat, tag: nat): (s': State) {
    var k := Req(kind, id, s.cpuEpoch, time, tag);
    if s.cpu == Running && (s.notify || kind == SesamCommand) && (kind == CpuAccess ==> id < s.cpus)
    then s.(queue := s.queue + multiset{k}, pushed := s.pushed + [k])
    else s
  }

  // While notifications are halted the call neither waits nor drains and reports zeros.
  function StepFillBiases(s: State): (s': State) {
    if s.cpu != Running then s
    else if s.notify then s.(cpuEpoch := s.cpuEpoch + 1, cpu := Waiting)
    else s.(cpuEpoch := s.cpuEpoch + 1, biases := s.biases + [seq(s.cpus, _ => 0)])
  }

  function StepCpu(s: State): (s': State) {
    var slot := SlotOf(s.cpuEpoch);
    match s.cpu
    case Running => s
    case Waiting => if s.memEpoch + EPOCHS <= s.cpuEpoch then s else s.(cpu := Locking)
    case Locking => if LockOf(s.locks, slot) == Free then s.(locks := s.locks[slot := ByCpu], cpu := Draining) else s
    case Draining =>
      s.(biases := s.biases + [Times(s.slots, s.cpus, slot)], slots := Drained(s.slots, s.cpus, slot), cpu := Unlocking)
    case Unlocking => s.(locks := s.locks[slot := Free], cpu := Running)
  }

  // ------------------------------------------------------------------ the memory thread

  // The thread left the queue empty at its last pop: the epoch is over.
  function StepFirstPop(s: State, choice: Req, popped: bool): (s': State)
    requires s.mem.FirstPop?
  {
    if popped then s.(queue := Without(s.queue, choice), mem := Test(s.mem.tmp, choice))
    else if IsEmpty(s.queue) then s.(mem := Bump(s.mem.tmp))
    else s
  }

  function StepNextPop(s: State, choice: Req, popped: bool): (s': State)
    requires s.mem.NextPop?
  {
    if popped then s.(queue := Without(s.queue, choice), mem := Handle(s.mem.tmp, choice))
    else if IsEmpty(s.queue) then s.(mem := Release(s.mem.tmp, false))
    else s
  }

  // The body of the do loop.
  function StepHandle(s: State, delay: nat): (s': State)
    requires s.mem.Handle?
  {
    var Handle(tmp, k) := s.mem;
    if tmp != k.epoch then s.(queue := s.queue + multiset{k}, mem := LeaveTo(tmp, k))
    else
      var t := s.(handled := s.handled + [k]);
      match k.kind
      case SesamCommand => t.(mem := Release(tmp, true))
      case DeviceAccess => t.(mem := NextPop(tmp))
      case CpuAccess =>
        var slot := SlotOf(s.memEpoch);
        t.(slots := s.slots[(k.id, slot) := Time(s.slots, k.id, slot) + delay],
           delays := s.delays + [Delay(k.epoch, k.id, delay)], mem := NextPop(tmp))
  }

  ghost function StepMem(s: State, choice: Req, delay: nat): (s': State) {
    match s.mem
    case Top => s.(mem := WaitCpu(s.memEpoch))
    case WaitCpu(tmp) => if tmp >= s.cpuEpoch then s else s.(mem := FirstPop(tmp))
    case FirstPop(_) => StepFirstPop(s, choice, IsFirst(choice, s.queue))
    case Test(tmp, k) =>
      if tmp != k.epoch then s.(queue := s.queue + multiset{k}, mem := SkipTo(k)) else s.(mem := TakeLock(tmp, k))
    case SkipTo(k) => s.(memEpoch := k.epoch, mem := Top)
    case TakeLock(tmp, k) =>
      if LockOf(s.locks, SlotOf(tmp)) == Free
      then s.(locks := s.locks[SlotOf(tmp) := ByMem], mem := Handle(tmp, k)) else s
    case Handle(_, _) => StepHandle(s, delay)
    case NextPop(_) => StepNextPop(s, choice, IsFirst(choice, s.queue))
    case LeaveTo(tmp, k) => s.(memEpoch := k.epoch, mem := Release(tmp, true))
    case Release(tmp, exitLoop) =>
      s.(locks := s.locks[SlotOf(tmp) := Free], mem := if exitLoop then Top else Bump(tmp))
    case Bump(tmp) => s.(memEpoch := s.memEpoch + 1, mem := Top)
  }

  ghost function Apply(s: State, a: Action): (s': State) {
    match a
    case Notify(kind, id, time, tag) => StepNotify(s, kind, id, time, tag)
    case SetNotify(on) => if s.cpu == Running then s.(notify := on) else s
    case FillBiases => StepFillBiases(s)
    case CpuRuns => StepCpu(s)
    case MemRuns(choice, delay) => StepMem(s, choice, delay)
  }

  ghost function Run(s: State, actions: seq<Action>): (s': State)
    decreases |actions|
  {
    if actions == [] then s
    else Apply(Run(s, actions[..|actions| - 1]), actions[|actions| - 1])
  }
}
