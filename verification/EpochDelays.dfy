/**
 With notifications on throughout, the CPU side runs at most one epoch ahead once it has left
 its wait, and every epoch's delays are reported exactly once, two epochs later, before the slot
 is used again.
 */
module EpochDelays {
  import opened EpochProtocol
  import opened EpochCalls
  import opened EpochOrder

  // The delay that the requests of one epoch have caused for one CPU.
  ghost function Total(delays: seq<Delay>, epoch: int, cpu: nat): (n: nat)
    decreases |delays|
  {
    if delays == [] then 0 else
    var d := delays[|delays| - 1];
    Total(delays[..|delays| - 1], epoch, cpu) + if d.epoch == epoch && d.cpu == cpu then d.amount else 0
  }

  // FillBiases has advanced the epoch and not yet drained its slot.
  predicate Undrained(cpu: CpuPc) {
    cpu == Waiting || cpu == Locking || cpu == Draining
  }

  ghost predicate Windowed(s: State) {
    && (Undrained(s.cpu) ==> s.cpuEpoch > 0)
    && s.cpuEpoch <= s.memEpoch + (if s.cpu == Waiting then EPOCHS else EPOCHS - 1)
    && |s.biases| == (if Undrained(s.cpu) then s.cpuEpoch - 1 else s.cpuEpoch)
    && (forall i :: 0 <= i < |s.delays| ==> s.delays[i].epoch < s.cpuEpoch)
  }

  // The slot of the last epoch holds that epoch's delays; the other one holds those of the
  // epoch before until it is drained, and nothing afterwards.
  ghost predicate SlotsHold(s: State, i: nat) {
    && Time(s.slots, i, SlotOf(s.cpuEpoch + 1)) == Total(s.delays, s.cpuEpoch - 1, i)
    && Time(s.slots, i, SlotOf(s.cpuEpoch)) == (if Undrained(s.cpu) then Total(s.delays, s.cpuEpoch - 2, i) else 0)
  }

  // The call of FillBiases that ended epoch j reported the delays of epoch j - 1.
  ghost predicate BiasesExact(biases: seq<seq<nat>>, delays: seq<Delay>, cpus: nat) {
    forall j :: 0 <= j < |biases| ==>
      |biases[j]| == cpus && forall i :: 0 <= i < cpus ==> biases[j][i] == Total(delays, j - 1, i)
  }

  ghost predicate DelayInv(s: State) {
    && s.notify
    && Windowed(s)
    && (forall i :: 0 <= i < s.cpus ==> SlotsHold(s, i))
    && BiasesExact(s.biases, s.delays, s.cpus)
  }

  // ------------------------------------------------------------------ totals

  lemma {:induction false} NoFutureDelays(delays: seq<Delay>, epoch: int, cpu: nat)
    requires forall i :: 0 <= i < |delays| ==> delays[i].epoch < epoch
    ensures Total(delays, epoch, cpu) == 0
    decreases |delays|
  {
    if delays != [] { NoFutureDelays(delays[..|delays| - 1], epoch, cpu); }
  }

  lemma TotalSnoc(delays: seq<Delay>, d: Delay, epoch: int, cpu: nat)
    ensures Total(delays + [d], epoch, cpu) ==
      Total(delays, epoch, cpu) + if d.epoch == epoch && d.cpu == cpu then d.amount else 0
  {
    assert (delays + [d])[..|delays|] == delays;
  }

  lemma BiasesKept(biases: seq<seq<nat>>, delays: seq<Delay>, cpus: nat, d: Delay)
    requires BiasesExact(biases, delays, cpus) && d.epoch >= |biases| - 1
    ensures BiasesExact(biases, delays + [d], cpus)
  {
    forall j, i | 0 <= j < |biases| && 0 <= i < cpus ensures biases[j][i] == Total(delays + [d], j - 1, i) {
      TotalSnoc(delays, d, j - 1, i);
    }
  }

  // ------------------------------------------------------------------ the steps

  lemma OtherSlot(c: nat, e: nat)
    requires e <= c <= e + 3
    ensures SlotOf(e) == SlotOf(c) <==> (e == c || e + 2 == c)
  {
  }

  lemma FillKeepsDelays(s: State)
    requires DelayInv(s)
    ensures DelayInv(StepFillBiases(s))
  {
    var s' := StepFillBiases(s);
    if s.cpu == Running {
      OtherSlot(s.cpuEpoch + 2, s.cpuEpoch);
      forall i | 0 <= i < s.cpus ensures SlotsHold(s', i) {
        assert SlotsHold(s, i);
        NoFutureDelays(s.delays, s.cpuEpoch, i);
      }
    }
  }

  lemma DrainKeepsDelays(s: State)
    requires DelayInv(s) && s.cpu == Draining
    ensures DelayInv(StepCpu(s))
  {
    var s' := StepCpu(s);
    OtherSlot(s.cpuEpoch + 1, s.cpuEpoch);
    forall i | 0 <= i < s.cpus
      ensures SlotsHold(s', i) && Times(s.slots, s.cpus, SlotOf(s.cpuEpoch))[i] == Total(s.delays, s.cpuEpoch - 2, i)
    {
      assert SlotsHold(s, i);
    }
  }

  lemma CpuKeepsDelays(s: State)
    requires DelayInv(s)
    ensures DelayInv(StepCpu(s))
  {
    if s.cpu == Draining {
      DrainKeepsDelays(s);
    } else {
      hide Total, BiasesExact;
      assert forall i :: 0 <= i < s.cpus && SlotsHold(s, i) ==> SlotsHold(StepCpu(s), i);
    }
  }

  lemma HandleKeepsSlots(s: State, delay: nat, i: nat)
    requires DelayInv(s) && s.mem.Handle? && i < s.cpus
    requires s.mem.tmp == s.memEpoch < s.cpuEpoch
    ensures SlotsHold(StepHandle(s, delay), i)
  {
    hide BiasesExact, Total, SlotOf, Time;
    assert SlotsHold(s, i);
    var k := s.mem.k;
    if s.mem.tmp == k.epoch && k.kind == CpuAccess {
      var d := Delay(k.epoch, k.id, delay);
      OtherSlot(s.cpuEpoch, k.epoch);
      OtherSlot(s.cpuEpoch + 1, k.epoch);
      TimeAdded(s.slots, k.id, SlotOf(k.epoch), delay, i, SlotOf(s.cpuEpoch));
      TimeAdded(s.slots, k.id, SlotOf(k.epoch), delay, i, SlotOf(s.cpuEpoch + 1));
      TotalSnoc(s.delays, d, s.cpuEpoch - 1, i);
      TotalSnoc(s.delays, d, s.cpuEpoch - 2, i);
    }
  }

  lemma TimeAdded(slots: map<(nat, nat), nat>, id: nat, slot: nat, delay: nat, i: nat, p: nat)
    ensures Time(slots[(id, slot) := Time(slots, id, slot) + delay], i, p) == Time(slots, i, p) + if i == id && p == slot then delay else 0
  {
  }

  lemma HandleKeepsDelays(s: State, delay: nat)
    requires DelayInv(s) && OrderInv(s) && s.mem.Handle?
    ensures DelayInv(StepHandle(s, delay))
  {
    hide Total, SlotsHold, BiasesExact, SlotOf, Time;
    var s' := StepHandle(s, delay);
    forall i | 0 <= i < s.cpus ensures SlotsHold(s', i) { HandleKeepsSlots(s, delay, i); }
    var k := s.mem.k;
    if s.mem.tmp == k.epoch && k.kind == CpuAccess {
      BiasesKept(s.biases, s.delays, s.cpus, Delay(k.epoch, k.id, delay));
    }
  }

  // The other steps of the memory thread touch no delay and never move its epoch back.
  lemma PopEffect(s: State, choice: Req, popped: bool)
    ensures s.mem.FirstPop? ==> var s' := StepFirstPop(s, choice, popped); s' == s.(queue := s'.queue, mem := s'.mem)
    ensures s.mem.NextPop? ==> var s' := StepNextPop(s, choice, popped); s' == s.(queue := s'.queue, mem := s'.mem)
  {
    hide Without, IsEmpty;
  }

  lemma MemEffect(s: State, choice: Req, delay: nat)
    requires MemOk(s.mem, s.queue, s.memEpoch, s.cpuEpoch) && !s.mem.Handle?
    ensures var s' := StepMem(s, choice, delay);
      && s'.memEpoch >= s.memEpoch
      && s' == s.(queue := s'.queue, memEpoch := s'.memEpoch, mem := s'.mem, locks := s'.locks)
  {
    hide NoneBelow, NoneBefore, IsFirst, LockOf, SlotOf, StepHandle, StepFirstPop, StepNextPop;
    PopEffect(s, choice, IsFirst(choice, s.queue));
  }

  lemma MemKeepsDelays(s: State, choice: Req, delay: nat)
    requires DelayInv(s) && OrderInv(s)
    ensures DelayInv(StepMem(s, choice, delay))
  {
    hide Total, BiasesExact, StepHandle, IsFirst;
    if s.mem.Handle? {
      HandleKeepsDelays(s, delay);
    } else {
      MemEffect(s, choice, delay);
      assert forall i :: 0 <= i < s.cpus && SlotsHold(s, i) ==> SlotsHold(StepMem(s, choice, delay), i);
    }
  }

  lemma ApplyKeepsDelays(s: State, a: Action)
    requires DelayInv(s) && OrderInv(s) && a != SetNotify(false)
    ensures DelayInv(Apply(s, a))
  {
    match a {
      case FillBiases => FillKeepsDelays(s);
      case CpuRuns => CpuKeepsDelays(s);
      case MemRuns(choice, delay) => MemKeepsDelays(s, choice, delay);
      case _ => assert forall i :: 0 <= i < s.cpus && SlotsHold(s, i) ==> SlotsHold(Apply(s, a), i);
    }
  }

  lemma {:induction false} RunKeepsDelays(cpus: nat, actions: seq<Action>)
    requires forall i :: 0 <= i < |actions| ==> actions[i] != SetNotify(false)
    ensures DelayInv(Run(Init(cpus, true), actions))
    decreases |actions|
  {
    if actions == [] {
      assert forall i :: 0 <= i < cpus ==> SlotsHold(Init(cpus, true), i);
    } else {
      hide DelayInv, OrderInv, Apply;
      var before := actions[..|actions| - 1];
      RunKeepsDelays(cpus, before);
      RunKeepsOrder(cpus, true, before);
      ApplyKeepsDelays(Run(Init(cpus, true), before), actions[|actions| - 1]);
    }
  }

  // The theorem of this file, for any run in which notifications are never halted: the CPU side is
  // at most one epoch ahead outside its wait, never drains the slot being added to, and the call that
  // ended epoch j reported what the memory system chose for the CPU accesses of epoch j - 1.
  lemma DelaysReportedOnce(cpus: nat, actions: seq<Action>)
    requires forall i :: 0 <= i < |actions| ==> actions[i] != SetNotify(false)
    ensures var s := Run(Init(cpus, true), actions);
      && s.cpuEpoch == EpochsOf(cpus, true, actions)
      && (s.cpu != Waiting ==> s.cpuEpoch <= s.memEpoch + EPOCHS - 1)
      && (s.cpu == Draining && s.mem.Handle? ==> SlotOf(s.mem.tmp) != SlotOf(s.cpuEpoch))
      && |s.biases| == (if Undrained(s.cpu) then s.cpuEpoch - 1 else s.cpuEpoch)
      && BiasesExact(s.biases, DelaysOf(cpus, true, actions), cpus)
  {
    hide Run, Requests, EpochsOf, NotifyOn, DelaysOf, Total;
    RunKeepsDelays(cpus, actions);
    RunKeepsOrder(cpus, true, actions);
    RunCalls(cpus, true, actions);
    var s := Run(Init(cpus, true), actions);
    if s.cpu == Draining && s.mem.Handle? { OtherSlot(s.cpuEpoch, s.mem.tmp); }
  }
}
