/** The requests, epochs and delays of a run, read off its actions. */
module EpochCalls {
  import opened EpochProtocol

  // The CPU side is not inside FillBiases.
  ghost predicate Free(cpus: nat, notify: bool, actions: seq<Action>) {
    Run(Init(cpus, notify), actions).cpu == Running
  }

  // The number of epochs that the CPU side has ended.
  ghost function EpochsOf(cpus: nat, notify: bool, actions: seq<Action>): (n: nat)
    decreases |actions|
  {
    if actions == [] then 0 else
    var (front, a) := (actions[..|actions| - 1], actions[|actions| - 1]);
    EpochsOf(cpus, notify, front) + if a.FillBiases? && Free(cpus, notify, front) then 1 else 0
  }

  // Whether notifications are on: the last word of the CPU side counts.
  ghost function NotifyOn(cpus: nat, notify: bool, actions: seq<Action>): (on: bool)
    decreases |actions|
  {
    if actions == [] then notify else
    var (front, a) := (actions[..|actions| - 1], actions[|actions| - 1]);
    if a.SetNotify? && Free(cpus, notify, front) then a.on else NotifyOn(cpus, notify, front)
  }

  // A notification counts if notifications are on; commands always do.
  ghost predicate Counts(cpus: nat, on: bool, a: Action) {
    a.Notify? && (on || a.kind == SesamCommand) && (a.kind == CpuAccess ==> a.id < cpus)
  }

  // One request per notification, in order, with its kind, number, time stamp and tag, in the epoch
  // of the CPU side.
  ghost function Requests(cpus: nat, notify: bool, actions: seq<Action>): (rs: seq<Req>)
    decreases |actions|
  {
    if actions == [] then [] else
    var (front, a) := (actions[..|actions| - 1], actions[|actions| - 1]);
    Requests(cpus, notify, front) +
    if Free(cpus, notify, front) && Counts(cpus, NotifyOn(cpus, notify, front), a)
    then [Req(a.kind, a.id, EpochsOf(cpus, notify, front), a.time, a.tag)] else []
  }

  // One delay per CPU access handled: the one that the memory system chose for it.
  ghost function DelaysOf(cpus: nat, notify: bool, actions: seq<Action>): (ds: seq<Delay>)
    decreases |actions|
  {
    if actions == [] then [] else
    var (front, a) := (actions[..|actions| - 1], actions[|actions| - 1]);
    DelaysOf(cpus, notify, front) +
    if a.MemRuns? then NewDelays(Run(Init(cpus, notify), front).handled, Run(Init(cpus, notify), actions).handled, a.delay) else []
  }

  // ------------------------------------------------------------------ the steps

  ghost predicate SameCalls(s: State, s': State) {
    s'.pushed == s.pushed && s'.cpuEpoch == s.cpuEpoch && s'.notify == s.notify && s'.cpus == s.cpus
  }

  lemma PopKeepsCalls(s: State, choice: Req, popped: bool)
    ensures s.mem.FirstPop? ==> SameCalls(s, StepFirstPop(s, choice, popped))
    ensures s.mem.NextPop? ==> SameCalls(s, StepNextPop(s, choice, popped))
  {
    hide Without, IsEmpty;
  }

  lemma HandleKeepsCalls(s: State, delay: nat)
    requires s.mem.Handle?
    ensures SameCalls(s, StepHandle(s, delay))
  {
    hide SlotOf, Time;
  }

  lemma MemKeepsCalls(s: State, choice: Req, delay: nat)
    ensures SameCalls(s, StepMem(s, choice, delay))
  {
    hide IsFirst, SlotOf, LockOf, StepFirstPop, StepNextPop, StepHandle;
    PopKeepsCalls(s, choice, IsFirst(choice, s.queue));
    if s.mem.Handle? { HandleKeepsCalls(s, delay); }
  }

  // The delays that a step adds, given the handled requests before and after.
  ghost function NewDelays(before: seq<Req>, after: seq<Req>, delay: nat): seq<Delay> {
    if |after| > |before| && after[|after| - 1].kind == CpuAccess
    then [Delay(after[|after| - 1].epoch, after[|after| - 1].id, delay)] else []
  }

  lemma HandleDelays(s: State, delay: nat)
    requires s.mem.Handle?
    ensures var s' := StepHandle(s, delay); s'.delays == s.delays + NewDelays(s.handled, s'.handled, delay)
  {
    hide SlotOf, Time;
  }

  lemma MemDelays(s: State, choice: Req, delay: nat)
    ensures var s' := StepMem(s, choice, delay); s'.delays == s.delays + NewDelays(s.handled, s'.handled, delay)
  {
    hide IsFirst, Without, IsEmpty, SlotOf, LockOf, StepHandle;
    if s.mem.Handle? { HandleDelays(s, delay); }
  }

  lemma CpuKeepsCalls(s: State)
    ensures SameCalls(s, StepCpu(s)) && StepCpu(s).delays == s.delays && StepCpu(s).handled == s.handled
  {
    hide SlotOf, LockOf, Times, Drained;
  }

  // What one action adds to the logs.
  ghost predicate Logs(s: State, a: Action, s': State) {
    && s'.cpus == s.cpus
    && s'.cpuEpoch == s.cpuEpoch + (if a.FillBiases? && s.cpu == Running then 1 else 0)
    && s'.notify == (if a.SetNotify? && s.cpu == Running then a.on else s.notify)
    && s'.pushed == s.pushed + (if s.cpu == Running && Counts(s.cpus, s.notify, a) then [Req(a.kind, a.id, s.cpuEpoch, a.time, a.tag)] else [])
    && s'.delays == s.delays + (if a.MemRuns? then NewDelays(s.handled, s'.handled, a.delay) else [])
  }

  lemma ApplyLogs(s: State, a: Action)
    ensures Logs(s, a, Apply(s, a))
  {
    hide StepMem, StepCpu, NewDelays;
    match a {
      case MemRuns(choice, delay) =>
        MemKeepsCalls(s, choice, delay);
        MemDelays(s, choice, delay);
      case CpuRuns => CpuKeepsCalls(s);
      case _ =>
    }
  }

  // What the state logs is what the actions say.
  ghost predicate CallsOk(cpus: nat, notify: bool, actions: seq<Action>) {
    var s := Run(Init(cpus, notify), actions);
    && s.cpus == cpus && s.cpuEpoch == EpochsOf(cpus, notify, actions) && s.notify == NotifyOn(cpus, notify, actions)
    && s.pushed == Requests(cpus, notify, actions) && s.delays == DelaysOf(cpus, notify, actions)
  }

  lemma {:induction false} RunCalls(cpus: nat, notify: bool, actions: seq<Action>)
    ensures CallsOk(cpus, notify, actions)
    decreases |actions|
  {
    hide Apply, Counts, NewDelays;
    if actions != [] {
      var (front, a) := (actions[..|actions| - 1], actions[|actions| - 1]);
      RunCalls(cpus, notify, front);
      ApplyLogs(Run(Init(cpus, notify), front), a);
    }
  }
}
