/** No delay is lost or reported twice, whether notifications are on or halted. */
module EpochTotals {
  import opened EpochProtocol
  import opened EpochCalls

  // All delays of one CPU.
  ghost function Caused(delays: seq<Delay>, cpu: nat): (n: nat)
    decreases |delays|
  {
    if delays == [] then 0 else
    var d := delays[|delays| - 1];
    Caused(delays[..|delays| - 1], cpu) + if d.cpu == cpu then d.amount else 0
  }

  // What the calls of FillBiases have reported for one CPU.
  ghost function Reported(biases: seq<seq<nat>>, cpu: nat): (n: nat)
    decreases |biases|
  {
    if biases == [] then 0 else
    var b := biases[|biases| - 1];
    Reported(biases[..|biases| - 1], cpu) + if cpu < |b| then b[cpu] else 0
  }

  lemma CausedMore(delays: seq<Delay>, d: Delay, cpu: nat)
    ensures Caused(delays + [d], cpu) == Caused(delays, cpu) + if d.cpu == cpu then d.amount else 0
  {
    assert (delays + [d])[..|delays|] == delays;
  }

  lemma ReportedMore(biases: seq<seq<nat>>, b: seq<nat>, cpu: nat)
    ensures Reported(biases + [b], cpu) == Reported(biases, cpu) + if cpu < |b| then b[cpu] else 0
  {
    assert (biases + [b])[..|biases|] == biases;
  }

  // Every delay of a CPU has been reported or sits in one of its two slots.
  ghost predicate Balanced(slots: map<(nat, nat), nat>, delays: seq<Delay>, biases: seq<seq<nat>>, cpu: nat) {
    Caused(delays, cpu) == Reported(biases, cpu) + Time(slots, cpu, 0) + Time(slots, cpu, 1)
  }

  lemma DrainBalances(slots: map<(nat, nat), nat>, delays: seq<Delay>, biases: seq<seq<nat>>, cpus: nat, slot: nat, cpu: nat)
    requires Balanced(slots, delays, biases, cpu) && cpu < cpus && slot < 2
    ensures Balanced(Drained(slots, cpus, slot), delays, biases + [Times(slots, cpus, slot)], cpu)
  {
    ReportedMore(biases, Times(slots, cpus, slot), cpu);
  }

  lemma AddBalances(slots: map<(nat, nat), nat>, delays: seq<Delay>, biases: seq<seq<nat>>, slot: nat, d: Delay, cpu: nat)
    requires Balanced(slots, delays, biases, cpu) && slot < 2
    ensures Balanced(slots[(d.cpu, slot) := Time(slots, d.cpu, slot) + d.amount], delays + [d], biases, cpu)
  {
    CausedMore(delays, d, cpu);
  }

  lemma HandleBalances(s: State, delay: nat, cpu: nat)
    requires s.mem.Handle? && Balanced(s.slots, s.delays, s.biases, cpu)
    ensures var s' := StepHandle(s, delay); Balanced(s'.slots, s'.delays, s'.biases, cpu)
  {
    hide Balanced;
    AddBalances(s.slots, s.delays, s.biases, SlotOf(s.memEpoch), Delay(s.mem.k.epoch, s.mem.k.id, delay), cpu);
  }

  lemma MemBalances(s: State, choice: Req, delay: nat, cpu: nat)
    requires Balanced(s.slots, s.delays, s.biases, cpu)
    ensures var s' := StepMem(s, choice, delay); Balanced(s'.slots, s'.delays, s'.biases, cpu)
  {
    hide Balanced, IsFirst, Without, IsEmpty, SlotOf, LockOf, StepHandle;
    if s.mem.Handle? { HandleBalances(s, delay, cpu); }
  }

  lemma CpuBalances(s: State, cpu: nat)
    requires Balanced(s.slots, s.delays, s.biases, cpu) && cpu < s.cpus
    ensures var s' := StepCpu(s); Balanced(s'.slots, s'.delays, s'.biases, cpu)
  {
    hide Balanced, LockOf, Times, Drained;
    DrainBalances(s.slots, s.delays, s.biases, s.cpus, SlotOf(s.cpuEpoch), cpu);
  }

  lemma FillBalances(s: State, cpu: nat)
    requires Balanced(s.slots, s.delays, s.biases, cpu)
    ensures var s' := StepFillBiases(s); Balanced(s'.slots, s'.delays, s'.biases, cpu)
  {
    ReportedMore(s.biases, seq(s.cpus, _ => 0), cpu);
  }

  lemma ApplyBalances(s: State, a: Action, cpu: nat)
    requires Balanced(s.slots, s.delays, s.biases, cpu) && cpu < s.cpus
    ensures var s' := Apply(s, a); Balanced(s'.slots, s'.delays, s'.biases, cpu)
  {
    hide Balanced, StepMem, StepCpu, StepFillBiases;
    match a {
      case FillBiases => FillBalances(s, cpu);
      case CpuRuns => CpuBalances(s, cpu);
      case MemRuns(choice, delay) => MemBalances(s, choice, delay, cpu);
      case _ =>
    }
  }

  lemma {:induction false} RunBalances(cpus: nat, notify: bool, actions: seq<Action>, cpu: nat)
    requires cpu < cpus
    ensures var s := Run(Init(cpus, notify), actions); Balanced(s.slots, s.delays, s.biases, cpu)
    decreases |actions|
  {
    hide Apply;
    if actions != [] {
      var front := actions[..|actions| - 1];
      hide Balanced;
      RunBalances(cpus, notify, front, cpu);
      RunCalls(cpus, notify, front);
      ApplyBalances(Run(Init(cpus, notify), front), actions[|actions| - 1], cpu);
    }
  }

  // Over any run: for every CPU, what the memory system chose for its accesses is what FillBiases
  // has reported plus what waits in the two slots.
  lemma DelaysConserved(cpus: nat, notify: bool, actions: seq<Action>, cpu: nat)
    requires cpu < cpus
    ensures var s := Run(Init(cpus, notify), actions);
      Caused(DelaysOf(cpus, notify, actions), cpu) == Reported(s.biases, cpu) + Time(s.slots, cpu, 0) + Time(s.slots, cpu, 1)
  {
    hide Run, Requests, EpochsOf, NotifyOn, DelaysOf, Caused, Reported;
    RunBalances(cpus, notify, actions, cpu);
    RunCalls(cpus, notify, actions);
  }
}
