/** Runs of the interrupt controller: interrupts are served in the order in which they were queued. */
module GicRuns {
  import opened GicQueues
  import opened Gic

  datatype Event =
    | Sgi(cpu: nat, value: nat)
    | Device(level: bool, irq: nat, targets: nat)
    | Enabling(cpu: nat, index: nat, value: nat)
    | End(cpu: nat, deactivate: bool, value: nat)
    | Write(r: Register)

  // CPUs are connected and interrupt numbers are within the pending words.
  predicate EventOk(e: Event, n: nat) {
    match e
    case Sgi(cpu, _) => cpu < n
    case Device(_, irq, _) => irq < Interrupts
    case Enabling(cpu, index, _) => cpu < n && index * 8 + 32 <= Interrupts
    case End(cpu, _, _) => cpu < n
    case Write(r) => RegisterOk(r, n)
  }

  // The three errors: a device raising a software interrupt, and ending an interrupt of an empty
  // queue or one that is not at its head.
  ghost predicate Accepted(e: Event, cpus: seq<Cpu>)
    requires EventOk(e, |cpus|)
  {
    match e
    case Device(_, irq, _) => irq >= 16
    case End(cpu, deactivate, value) =>
      Ends(cpus[cpu], deactivate) ==> cpus[cpu].queue != [] && Id(value) == Id(cpus[cpu].queue[0])
    case _ => true
  }

  // The heads that an event takes from the queues.
  ghost function ServedBy(e: Event, served: seq<seq<nat>>, cpus: seq<Cpu>): (r: seq<seq<nat>>)
    requires EventOk(e, |cpus|) && |served| == |cpus|
  {
    if e.End? then ServedHead(served, e.cpu, cpus[e.cpu], e.deactivate) else served
  }

  // Only a write to the control register of CPU number c changes how its interrupts are ended.
  function SplitAfter(e: Event, c: nat, split: bool): bool {
    if e.Write? && e.r.CpuControl? && e.r.cpu == c then e.r.split else split
  }

  ghost predicate Splits(e: Event, before: seq<Cpu>, after: seq<Cpu>) {
    |before| == |after| && forall c :: 0 <= c < |after| ==> after[c].split == SplitAfter(e, c, before[c].split)
  }

  lemma CombinedSplits(e: Event, d: Distributor, before: seq<Cpu>, mid: seq<Cpu>, after: seq<Cpu>)
    requires AllCombined(d, mid, after) && Splits(e, before, mid)
    ensures Splits(e, before, after)
  {
    hide Scan;
  }

  lemma EnablingSplits(e: Event, before: seq<Cpu>, cpu: nat, index: nat, value: nat)
    requires e.Enabling? && cpu < |before|
    ensures Splits(e, before, EnabledAll(before, cpu, index, value, 32))
  {
    var mid := EnabledAll(before, cpu, index, value, 32);
    hide EnabledAll, Bit;
    forall c | 0 <= c < |mid| ensures mid[c].split == before[c].split { EnabledMeans(before, cpu, index, value, 32, c); }
  }

  lemma MidSplits(e: Event, before: seq<Cpu>)
    requires EventOk(e, |before|)
    ensures e.Sgi? ==> Splits(e, before, RaisedAll(before, SgiTargets(e.cpu, e.value), e.value % 16, e.cpu))
    ensures e.Device? ==> Splits(e, before, PendingAll(before, e.irq, e.level, e.targets))
    ensures e.Write? ==> Splits(e, before, WrittenCpus(before, e.r))
    ensures e.End? && Ended(before[e.cpu], e.deactivate, e.value).Some? ==>
      Splits(e, before, before[e.cpu := Ended(before[e.cpu], e.deactivate, e.value).value])
  {
    hide SgiTargets, Bit;
  }

  // One access to the controller.
  method Handle(gic: InterruptController, e: Event) returns (ok: bool)
    requires gic.Valid() && EventOk(e, |gic.cpus|)
    modifies gic
    ensures ok <==> Accepted(e, old(gic.cpus))
    ensures |old(gic.served)| == |old(gic.cpus)|
    ensures ok ==> gic.Valid() && Grew(old(gic.queued), gic.queued) && gic.served == ServedBy(e, old(gic.served), old(gic.cpus))
    ensures ok ==> Splits(e, old(gic.cpus), gic.cpus)
  {
    hide AllCombined, Splits, IsOrder, DistributorOk, SgiTargets, RaisedAll, PendingAll, EnabledAll, WrittenCpus, AllOk, Grew, History, ServedHead;
    ghost var before := gic.cpus;
    HistoryLengths(gic.queued, gic.served, gic.cpus);
    MidSplits(e, before);
    ok := true;
    match e
    case Sgi(cpu, value) =>
      gic.SoftwareInterrupt(cpu, value);
      CombinedSplits(e, gic.dist, before, RaisedAll(before, SgiTargets(cpu, value), value % 16, cpu), gic.cpus);
    case Device(level, irq, targets) =>
      ok := gic.DeviceInterrupt(level, irq, targets);
      if ok { CombinedSplits(e, gic.dist, before, PendingAll(before, irq, level, targets), gic.cpus); }
    case Enabling(cpu, index, value) =>
      gic.EnableInterrupts(cpu, index, value);
      EnablingSplits(e, before, cpu, index, value);
      CombinedSplits(e, gic.dist, before, EnabledAll(before, cpu, index, value, 32), gic.cpus);
    case End(cpu, deactivate, value) =>
      ok := gic.EndOfInterrupt(cpu, deactivate, value);
      if ok { CombinedSplits(e, gic.dist, before, before[cpu := Ended(before[cpu], deactivate, value).value], gic.cpus); }
    case Write(r) =>
      gic.WriteRegister(r);
      CombinedSplits(e, gic.dist, before, WrittenCpus(before, r), gic.cpus);
  }

  // ------------------------------------------------------------------ what software has ended

  ghost function Ids(s: seq<nat>): (r: seq<nat>) { seq(|s|, i requires 0 <= i < |s| => Id(s[i])) }

  // Whether end and deactivation are separate writes on CPU number c after some events.
  ghost function SplitAt(events: seq<Event>, c: nat, split: bool): bool {
    if events == [] then split else SplitAfter(events[|events| - 1], c, SplitAt(events[..|events| - 1], c, split))
  }

  // The interrupt numbers that the writes of CPU number c have ended, in the order of the writes.
  ghost function EndsOf(events: seq<Event>, c: nat, split: bool): (ids: seq<nat>) {
    if events == [] then [] else
    var m := |events| - 1;
    EndsOf(events[..m], c, split) + EndOf(events[m], c, SplitAt(events[..m], c, split))
  }

  ghost function EndOf(e: Event, c: nat, split: bool): (ids: seq<nat>) {
    if e.End? && e.cpu == c && (e.deactivate || !split) then [Id(e.value)] else []
  }

  // CPU number c after some events: it was served what it ended.
  ghost predicate Account(events: seq<Event>, c: nat, split0: bool, served0: seq<nat>, split: bool, served: seq<nat>) {
    && split == SplitAt(events, c, split0)
    && served0 <= served && Ids(served) == Ids(served0) + EndsOf(events, c, split0)
  }

  lemma AccountStep(events: seq<Event>, k: nat, c: nat, split0: bool, served0: seq<nat>, cpu: Cpu, served: seq<nat>, served': seq<nat>)
    requires k < |events| && Account(events[..k], c, split0, served0, cpu.split, served)
    requires var e := events[k];
      if e.End? && e.cpu == c && Ends(cpu, e.deactivate) then cpu.queue != [] && Id(e.value) == Id(cpu.queue[0]) && served' == served + [cpu.queue[0]]
      else served' == served
    ensures Account(events[..k + 1], c, split0, served0, SplitAfter(events[k], c, cpu.split), served')
  {
    hide SplitAfter, Id;
    assert events[..k + 1][..k] == events[..k];
    assert Ids(served') == Ids(served) + EndOf(events[k], c, cpu.split);
  }

  ghost predicate Accounts(events: seq<Event>, start: seq<Cpu>, served0: seq<seq<nat>>, cpus: seq<Cpu>, served: seq<seq<nat>>) {
    && |start| == |served0| == |cpus| == |served|
    && forall c :: 0 <= c < |cpus| ==> Account(events, c, start[c].split, served0[c], cpus[c].split, served[c])
  }

  lemma AccountsStep(events: seq<Event>, k: nat, start: seq<Cpu>, served0: seq<seq<nat>>, before: seq<Cpu>, served: seq<seq<nat>>, after: seq<Cpu>)
    requires k < |events| && Accounts(events[..k], start, served0, before, served)
    requires EventOk(events[k], |before|) && Accepted(events[k], before) && Splits(events[k], before, after)
    ensures Accounts(events[..k + 1], start, served0, after, ServedBy(events[k], served, before))
  {
    hide Account;
    var served' := ServedBy(events[k], served, before);
    forall c | 0 <= c < |after| ensures Account(events[..k + 1], c, start[c].split, served0[c], after[c].split, served'[c]) {
      AccountStep(events, k, c, start[c].split, served0[c], before[c], served[c], served'[c]);
    }
  }

  lemma AccountsStart(events: seq<Event>, cpus: seq<Cpu>, served: seq<seq<nat>>)
    requires |served| == |cpus|
    ensures Accounts(events[..0], cpus, served, cpus, served)
  {
  }

  // Any run of accesses, up to the first error. What was ever queued for a CPU only grows at its
  // end and starts with what it was served, and what it was served is what its own writes have
  // ended: interrupts are served in the order in which they were queued, none skipped or repeated.
  method Run(gic: InterruptController, events: seq<Event>) returns (ok: bool)
    requires gic.Valid() && forall e :: e in events ==> EventOk(e, |gic.cpus|)
    modifies gic
    ensures ok ==> gic.Valid() && Grew(old(gic.queued), gic.queued)
    ensures ok ==> Accounts(events, old(gic.cpus), old(gic.served), gic.cpus, gic.served)
  {
    hide IsOrder, DistributorOk, AllOk, History, Grew, Accounts, Splits, ServedBy;
    HistoryLengths(gic.queued, gic.served, gic.cpus);
    AccountsStart(events, gic.cpus, gic.served);
    GrewNot(gic.queued);
    ok := true;
    var i := 0;
    while i < |events|
      invariant i <= |events| && gic.Valid() && Grew(old(gic.queued), gic.queued)
      invariant |gic.cpus| == |old(gic.cpus)| && Accounts(events[..i], old(gic.cpus), old(gic.served), gic.cpus, gic.served)
    {
      ghost var (before, served, queued) := (gic.cpus, gic.served, gic.queued);
      ok := Handle(gic, events[i]);
      if !ok { return; }
      AccountsStep(events, i, old(gic.cpus), old(gic.served), before, served, gic.cpus);
      GrewTwice(old(gic.queued), queued, gic.queued);
      i := i + 1;
    }
    assert events[..|events|] == events;
  }

  lemma GrewNot(q: seq<seq<nat>>)
    ensures Grew(q, q)
  {
  }

  lemma GrewTwice(a: seq<seq<nat>>, b: seq<seq<nat>>, c: seq<seq<nat>>)
    requires Grew(a, b) && Grew(b, c)
    ensures Grew(a, c)
  {
    forall i | 0 <= i < |c| ensures a[i] <= c[i] { assert a[i] <= b[i] && b[i] <= c[i]; }
  }

  ghost predicate NotEndedBy(events: seq<Event>, c: nat) {
    forall i :: 0 <= i < |events| ==> !(events[i].End? && events[i].cpu == c)
  }

  lemma {:induction false} EndsNothing(events: seq<Event>, c: nat, split: bool)
    requires NotEndedBy(events, c)
    ensures EndsOf(events, c, split) == []
    decreases |events|
  {
    if events != [] { EndsNothing(events[..|events| - 1], c, split); }
  }

  // While a CPU ends nothing, the head of its queue stays.
  lemma HeadStays(events: seq<Event>, c: nat, split0: bool, split: bool, served0: seq<nat>, served: seq<nat>, q0: seq<nat>, q: seq<nat>)
    requires NotEndedBy(events, c) && Account(events, c, split0, served0, split, served)
    requires served0 + q0 <= served + q && q0 != []
    ensures q != [] && q[0] == q0[0]
  {
    EndsNothing(events, c, split0);
    assert |Ids(served)| == |Ids(served0)| && served == served0;
    var n := |served|;
    assert (served0 + q0)[n] == q0[0] && (served + q)[n] == q[0];
  }

  // A CPU reads its acknowledge register while something is queued for it and later ends that
  // interrupt: this is never an error, whatever other CPUs and devices do in between.
  method ReadThenEnd(gic: InterruptController, cpu: nat, deactivate: bool, between: seq<Event>) returns (reached: bool, ok: bool)
    requires gic.Valid() && cpu < |gic.cpus| && gic.cpus[cpu].queue != []
    requires forall e :: e in between ==> EventOk(e, |gic.cpus|)
    requires NotEndedBy(between, cpu)
    modifies gic
    ensures reached ==> ok
  {
    hide NotEndedBy, Account, IsOrder, DistributorOk;
    var value := gic.cpus[cpu].ack;
    ghost var (before, served) := (gic.cpus, gic.served);
    reached := Run(gic, between);
    ok := false;
    if reached {
      HeadStays(between, cpu, before[cpu].split, gic.cpus[cpu].split, served[cpu], gic.served[cpu], before[cpu].queue, gic.cpus[cpu].queue);
      ok := gic.EndOfInterrupt(cpu, deactivate, value);
    }
  }
}
